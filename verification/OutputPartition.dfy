/** When the output node ends up in the last partition, as the pipeline needs. */
module OutputPartition {
  import opened Collections
  import opened FxGraph
  import opened TopologicalPartition
  import opened QueueOrder
  import opened Subgraphs
  import opened Liveness

  ghost predicate OutputInLast(g: Graph, parts: Partitions)
    requires InRange(g, parts)
  {
    |parts| > 0 && HasOutput(g, parts[|parts| - 1])
  }

  ghost predicate Reaches(g: Graph, n: nat, m: nat) {
    exists path :: IsPath(g, path) && path[0] == n && path[|path| - 1] == m
  }

  ghost predicate TargetsReachOutput(g: Graph, targets: set<nat>) {
    forall t, o: nat :: t in targets && o < |g| && g[o].op.Output? ==> Reaches(g, t, o)
  }

  lemma {:induction false} PathTail(g: Graph, path: seq<nat>)
    requires IsPath(g, path) && |path| > 1
    ensures IsPath(g, path[1..])
  {
    var rest := path[1..];
    forall k | 0 < k < |rest|
      ensures rest[k - 1] in g[rest[k]].inputs
    {
      var j := k + 1;
      assert path[j - 1] in g[path[j]].inputs;
    }
  }

  /** Partitions do not decrease along a path. */
  lemma {:induction false} PathInOrder(g: Graph, targets: set<nat>, parts: Partitions, path: seq<nat>)
    requires Traced(g) && IsPartition(g, targets, parts) && IsPath(g, path) && PartIndex(parts, path[|path| - 1]) >= 0
    ensures 0 <= PartIndex(parts, path[0]) <= PartIndex(parts, path[|path| - 1])
    decreases |path|
  {
    hide Traced, IsPartition;
    if |path| > 1 {
      var rest := path[1..];
      PathTail(g, path);
      PathInOrder(g, targets, parts, rest);
      assert path[0] in g[path[1]].inputs;
      EdgeInOrder(g, targets, parts, path[1], path[0]);
    }
  }

  /** A user of a target is in a later partition. */
  lemma {:induction false} UserAfterTarget(g: Graph, targets: set<nat>, parts: Partitions, t: nat, u: nat)
    requires Traced(g) && IsPartition(g, targets, parts) && t in targets && u < |g| && t in g[u].inputs
    ensures PartIndex(parts, t) < PartIndex(parts, u)
  {
    EdgeInOrder(g, targets, parts, u, t);
    var p, q := PartIndex(parts, t), PartIndex(parts, u);
    var k :| 0 <= k < |parts[p]| && parts[p][k] == t;
    var j :| 0 <= j < |parts[q]| && parts[q][j] == u;
    assert At(parts, p, k) && At(parts, q, j);
    assert Before(p, k, q, j);
  }

  /** When every target reaches the output node, the output node is in the last partition. */
  lemma {:induction false} OutputComesLast(g: Graph, modules: set<string>, parts: Partitions)
    requires Traced(g) && InRange(g, parts)
    requires IsPartition(g, FindTargetNodes(g, modules), parts) && TargetsReachOutput(g, FindTargetNodes(g, modules))
    ensures OutputInLast(g, parts)
  {
    hide Traced, TargetsReachOutput;
    var targets := FindTargetNodes(g, modules);
    var p, k := OutputPlace(g, targets, parts);
    var o := parts[p][k];
    PartIndexUnique(g, parts, o, p);
    if p < |parts| - 1 {
      EndsWithTarget(g, modules, parts, p);
      var t := parts[p][|parts[p]| - 1];
      PartIndexUnique(g, parts, t, p);
      hide IsPartition;
      TargetBeforeOutput(g, targets, parts, t, o);
      assert false;
    }
    assert o in parts[p];
  }

  lemma {:induction false} TargetBeforeOutput(g: Graph, targets: set<nat>, parts: Partitions, t: nat, o: nat)
    requires Traced(g) && IsPartition(g, targets, parts) && TargetsReachOutput(g, targets)
    requires t in targets && t < |g| && o < |g| && g[o].op.Output? && PartIndex(parts, o) >= 0
    requires !g[t].op.Output?
    ensures PartIndex(parts, t) < PartIndex(parts, o)
  {
    assert Reaches(g, t, o);
    var path :| IsPath(g, path) && path[0] == t && path[|path| - 1] == o;
    var rest := path[1..];
    PathTail(g, path);
    PathInOrder(g, targets, parts, rest);
    UserAfterTarget(g, targets, parts, t, path[1]);
  }

  // ----- Exactly when: in the order of the queue

  /** No target leaves the queue after the output node. */
  ghost predicate OutputAfterTargets(g: Graph, targets: set<nat>, order: seq<nat>) {
    forall i, j :: 0 <= i < |order| && 0 <= j < |order| && order[i] < |g| && g[order[i]].op.Output? && order[j] in targets ==>
      j < i
  }

  /** Where the k-th node of partition p stands in the order. */
  ghost function Rank(g: Graph, parts: Partitions, p: nat, k: nat): nat
    requires At(parts, p, k)
  {
    |NodeOrder(g, parts[..p])| + |Nodes(g, parts[p][..k])|
  }

  lemma {:induction false} NodesPrefix(g: Graph, part: seq<nat>, k: nat)
    requires k <= |part|
    ensures Nodes(g, part[..k]) <= Nodes(g, part)
    decreases |part| - k
  {
    if k < |part| {
      NodesPrefix(g, part, k + 1);
      assert part[..k + 1][..k] == part[..k];
    } else {
      assert part[..k] == part;
    }
  }

  lemma {:induction false} NodesAt(g: Graph, part: seq<nat>, k: nat)
    requires k < |part| && !IsAttr(g, part[k])
    ensures |Nodes(g, part[..k])| < |Nodes(g, part)| && Nodes(g, part)[|Nodes(g, part[..k])|] == part[k]
  {
    NodesPrefix(g, part, k + 1);
    assert part[..k + 1][..k] == part[..k];
  }

  lemma {:induction false} OrderPrefix(g: Graph, parts: Partitions, p: nat)
    requires p <= |parts|
    ensures NodeOrder(g, parts[..p]) <= NodeOrder(g, parts)
    decreases |parts| - p
  {
    if p < |parts| {
      OrderPrefix(g, parts, p + 1);
      assert parts[..p + 1][..p] == parts[..p];
    } else {
      assert parts[..p] == parts;
    }
  }

  /** A node other than an attribute read stands in the order at its rank. */
  lemma {:induction false} RankedAt(g: Graph, parts: Partitions, p: nat, k: nat)
    requires At(parts, p, k) && !IsAttr(g, parts[p][k])
    ensures Rank(g, parts, p, k) < |NodeOrder(g, parts[..p + 1])| <= |NodeOrder(g, parts)|
    ensures NodeOrder(g, parts)[Rank(g, parts, p, k)] == parts[p][k]
  {
    NodesAt(g, parts[p], k);
    assert parts[..p + 1][..p] == parts[..p];
    OrderPrefix(g, parts, p + 1);
  }

  lemma {:induction false} RankMonotone(g: Graph, parts: Partitions, p: nat, k: nat, q: nat, j: nat)
    requires At(parts, p, k) && At(parts, q, j) && Before(p, k, q, j) && !IsAttr(g, parts[p][k])
    ensures Rank(g, parts, p, k) < Rank(g, parts, q, j)
  {
    if p < q {
      RankedAt(g, parts, p, k);
      assert parts[..q][..p + 1] == parts[..p + 1];
      OrderPrefix(g, parts[..q], p + 1);
    } else {
      assert parts[p][..j][..k] == parts[p][..k];
      NodesAt(g, parts[p][..j], k);
    }
  }

  lemma {:induction false} NodesHave(g: Graph, part: seq<nat>, i: nat) returns (k: nat)
    requires i < |Nodes(g, part)|
    ensures k < |part| && !IsAttr(g, part[k]) && |Nodes(g, part[..k])| == i
    decreases |part|
  {
    var front := part[..|part| - 1];
    if i < |Nodes(g, front)| {
      k := NodesHave(g, front, i);
      assert front[..k] == part[..k];
    } else {
      k := |part| - 1;
    }
  }

  /** Every place in the order is the rank of some node. */
  lemma {:induction false} OrderHas(g: Graph, parts: Partitions, i: nat) returns (p: nat, k: nat)
    requires i < |NodeOrder(g, parts)|
    ensures At(parts, p, k) && !IsAttr(g, parts[p][k]) && Rank(g, parts, p, k) == i
            && NodeOrder(g, parts)[i] == parts[p][k]
    decreases |parts|
  {
    var front := parts[..|parts| - 1];
    if i < |NodeOrder(g, front)| {
      p, k := OrderHas(g, front, i);
      assert front[..p] == parts[..p];
    } else {
      p := |parts| - 1;
      k := NodesHave(g, parts[p], i - |NodeOrder(g, front)|);
    }
    RankedAt(g, parts, p, k);
  }

  lemma {:induction false} OutputLastInOrder(g: Graph, modules: set<string>, parts: Partitions)
    requires Traced(g) && InRange(g, parts) && IsPartition(g, FindTargetNodes(g, modules), parts)
    ensures OutputInLast(g, parts) <==> OutputAfterTargets(g, FindTargetNodes(g, modules), NodeOrder(g, parts))
  {
    if OutputInLast(g, parts) {
      InLastIsAfter(g, FindTargetNodes(g, modules), parts);
    } else {
      EarlierIsBefore(g, modules, parts);
    }
  }

  lemma {:induction false} InLastIsAfter(g: Graph, targets: set<nat>, parts: Partitions)
    requires Traced(g) && InRange(g, parts) && IsPartition(g, targets, parts) && OutputInLast(g, parts)
    ensures OutputAfterTargets(g, targets, NodeOrder(g, parts))
  {
    hide Traced, IsPartition, NodeOrder, Rank, OutputInLast;
    var order := NodeOrder(g, parts);
    forall i, j | 0 <= i < |order| && 0 <= j < |order| && order[i] < |g| && g[order[i]].op.Output? && order[j] in targets
      ensures j < i
    {
      var p, k := OrderHas(g, parts, i);
      var q, m := OrderHas(g, parts, j);
      OutputIsLast(g, targets, parts, p, k, q, m);
      RankMonotone(g, parts, q, m, p, k);
    }
  }

  lemma {:induction false} OutputIsLast(g: Graph, targets: set<nat>, parts: Partitions, p: nat, k: nat, q: nat, m: nat)
    requires Traced(g) && InRange(g, parts) && IsPartition(g, targets, parts) && OutputInLast(g, parts)
    requires At(parts, p, k) && parts[p][k] < |g| && g[parts[p][k]].op.Output? && At(parts, q, m) && parts[q][m] in targets
    ensures q < p
  {
    hide Sorted, AttributesDelayed, GraphIsWellFormed, NamesDistinct;
    var last := |parts| - 1;
    var o :| o in parts[last] && g[o].op.Output?;
    var at :| 0 <= at < |parts[last]| && parts[last][at] == o;
    assert At(parts, last, at);
    assert parts[p][k] == o;
  }

  lemma {:induction false} EarlierIsBefore(g: Graph, modules: set<string>, parts: Partitions)
    requires Traced(g) && InRange(g, parts) && IsPartition(g, FindTargetNodes(g, modules), parts)
             && !OutputInLast(g, parts)
    ensures !OutputAfterTargets(g, FindTargetNodes(g, modules), NodeOrder(g, parts))
  {
    var p, k := OutputPlace(g, FindTargetNodes(g, modules), parts);
    assert p < |parts| - 1 by {
      assert parts[p][k] in parts[p];
    }
    EndsWithTarget(g, modules, parts, p);
    hide Traced, IsPartition, OutputAfterTargets;
    EarlierRank(g, FindTargetNodes(g, modules), parts, p, k, |parts[p]| - 1);
  }

  lemma {:induction false} OutputPlace(g: Graph, targets: set<nat>, parts: Partitions) returns (p: nat, k: nat)
    requires Traced(g) && IsPartition(g, targets, parts)
    ensures At(parts, p, k) && parts[p][k] < |g| && g[parts[p][k]].op.Output?
  {
    var o: nat :| o < |g| && g[o].op.Output?;
    assert !UnusedAttr(g, o);
    assert Holds(parts, o);
    p :| 0 <= p < |parts| && o in parts[p];
    k :| 0 <= k < |parts[p]| && parts[p][k] == o;
  }

  lemma {:induction false} EndsWithTarget(g: Graph, modules: set<string>, parts: Partitions, p: nat)
    requires IsPartition(g, FindTargetNodes(g, modules), parts) && p < |parts| - 1
    ensures parts[p] != [] && IsTarget(g, modules, parts[p][|parts[p]| - 1])
  {
  }

  lemma {:induction false} EarlierRank(g: Graph, targets: set<nat>, parts: Partitions, p: nat, k: nat, end: nat)
    requires At(parts, p, k) && At(parts, p, end) && parts[p][k] < |g| && g[parts[p][k]].op.Output?
    requires parts[p][end] in targets && k < end && !IsAttr(g, parts[p][end])
    ensures !OutputAfterTargets(g, targets, NodeOrder(g, parts))
  {
    hide NodeOrder, Rank;
    RankedAt(g, parts, p, k);
    RankedAt(g, parts, p, end);
    RankMonotone(g, parts, p, k, p, end);
    var i, j := Rank(g, parts, p, k), Rank(g, parts, p, end);
    assert NodeOrder(g, parts)[i] == parts[p][k] && NodeOrder(g, parts)[j] in targets && i < j;
  }

  // ----- Exactly when: in terms of the graph

  /** What the partitioner returns. */
  ghost predicate IsPartitioned(g: Graph, modules: set<string>, parts: Partitions) {
    && InRange(g, parts) && IsPartition(g, FindTargetNodes(g, modules), parts)
    && NodeOrder(g, parts) == ExecutionOrder(g)
  }

  /** Every target's key is before that of the output node. */
  ghost predicate TargetsBeforeOutput(g: Graph, targets: set<nat>) {
    forall t, o: nat :: t in targets && t < |g| && o < |g| && g[o].op.Output? ==> KeyBefore(Key(g, t), Key(g, o))
  }

  lemma {:induction false} InNodeOrder(g: Graph, targets: set<nat>, parts: Partitions, n: nat) returns (i: nat)
    requires IsPartition(g, targets, parts) && n < |g| && !IsAttr(g, n)
    ensures i < |NodeOrder(g, parts)| && NodeOrder(g, parts)[i] == n
  {
    hide NodeOrder, Sorted, CutAtTargets, AttributesDelayed, Once;
    assert !UnusedAttr(g, n);
    assert Holds(parts, n);
    var p :| 0 <= p < |parts| && n in parts[p];
    var k :| 0 <= k < |parts[p]| && parts[p][k] == n;
    RankedAt(g, parts, p, k);
    i := Rank(g, parts, p, k);
  }

  lemma {:induction false} InOrderIffKeys(g: Graph, modules: set<string>, parts: Partitions)
    requires IsPartition(g, FindTargetNodes(g, modules), parts) && KeysAscend(g, NodeOrder(g, parts))
    ensures OutputAfterTargets(g, FindTargetNodes(g, modules), NodeOrder(g, parts))
            <==> TargetsBeforeOutput(g, FindTargetNodes(g, modules))
  {
    hide IsPartition, NodeOrder, Key, KeyBefore;
    var targets, order := FindTargetNodes(g, modules), NodeOrder(g, parts);
    if OutputAfterTargets(g, targets, order) {
      forall t, o: nat | t in targets && t < |g| && o < |g| && g[o].op.Output?
        ensures KeyBefore(Key(g, t), Key(g, o))
      {
        var i := InNodeOrder(g, targets, parts, o);
        var j := InNodeOrder(g, targets, parts, t);
        assert order[i] == o && order[j] == t;
      }
    }
    if TargetsBeforeOutput(g, targets) {
      forall i, j | 0 <= i < |order| && 0 <= j < |order| && order[i] < |g| && g[order[i]].op.Output? && order[j] in targets
        ensures j < i
      {
        KeyTotal(Key(g, order[j]), Key(g, order[i]));
      }
    }
  }

  /** The output node is in the last partition exactly when every target's key is before its own. */
  lemma {:induction false} OutputLastIff(g: Graph, modules: set<string>, parts: Partitions)
    requires Traced(g) && IsPartitioned(g, modules, parts)
    ensures OutputInLast(g, parts) <==> TargetsBeforeOutput(g, FindTargetNodes(g, modules))
  {
    hide Traced, InRange, IsPartition, NodeOrder, ExecutionOrder, OutputInLast, OutputAfterTargets, TargetsBeforeOutput;
    ExecutionAscends(g);
    OutputLastInOrder(g, modules, parts);
    InOrderIffKeys(g, modules, parts);
  }

  /** Where depths differ they decide. */
  lemma {:induction false} OutputLastByDepth(g: Graph, modules: set<string>, o: nat)
    requires Traced(g) && o < |g| && g[o].op.Output?
    ensures (forall t: nat :: IsTarget(g, modules, t) ==> Depth(g, t) < Depth(g, o)) ==>
              TargetsBeforeOutput(g, FindTargetNodes(g, modules))
    ensures (exists t: nat :: IsTarget(g, modules, t) && Depth(g, t) > Depth(g, o)) ==>
              !TargetsBeforeOutput(g, FindTargetNodes(g, modules))
  {
    hide Depth, Key, KeyBefore, GraphIsWellFormed, NamesDistinct;
    forall t: nat | IsTarget(g, modules, t) && Depth(g, t) != Depth(g, o)
      ensures KeyBefore(Key(g, t), Key(g, o)) <==> Depth(g, t) < Depth(g, o)
    {
      if Depth(g, t) < Depth(g, o) {
        DepthDecides(g, t, o);
      } else {
        DepthDecides(g, o, t);
      }
    }
  }

  lemma {:induction false} PathDeepens(g: Graph, path: seq<nat>)
    requires Traced(g) && IsPath(g, path) && !IsAttr(g, path[0])
    ensures Depth(g, path[0]) <= Depth(g, path[|path| - 1])
    ensures |path| > 1 ==> Depth(g, path[0]) < Depth(g, path[|path| - 1])
    decreases |path|
  {
    hide NamesDistinct;
    if |path| > 1 {
      PathTail(g, path);
      assert path[0] in g[path[1]].inputs;
      DepthOfInput(g, path[1], g[path[1]].inputs, path[0]);
      PathDeepens(g, path[1..]);
    }
  }

  /** Targets that reach the output node come before it. */
  lemma {:induction false} ReachingComesBefore(g: Graph, modules: set<string>)
    requires Traced(g) && TargetsReachOutput(g, FindTargetNodes(g, modules))
    ensures TargetsBeforeOutput(g, FindTargetNodes(g, modules))
  {
    hide Traced, Key, KeyBefore, Depth;
    forall t, o: nat | t in FindTargetNodes(g, modules) && t < |g| && o < |g| && g[o].op.Output?
      ensures KeyBefore(Key(g, t), Key(g, o))
    {
      assert Reaches(g, t, o);
      var path :| IsPath(g, path) && path[0] == t && path[|path| - 1] == o;
      PathDeepens(g, path);
      DepthDecides(g, t, o);
    }
  }

  // ----- The condition is needed

  /** x is returned as it is, while a target is called on f(x) and its result is not used. */
  function Example(): Graph {
    [Node("x", Placeholder, [], [1, 3]), Node("fx", CallFunction, [0], [2]),
     Node("layer", CallModule("layer"), [1], []), Node("output", Output, [0], [])]
  }

  lemma {:induction false} ExampleEdges(n: nat)
    requires n < 4
    ensures forall i :: i in Example()[n].inputs <==> (n == 1 && i == 0) || (n == 2 && i == 1) || (n == 3 && i == 0)
    ensures forall u :: u in Example()[n].users <==> (n == 0 && (u == 1 || u == 3)) || (n == 1 && u == 2)
    ensures Distinct(Example()[n].inputs) && Distinct(Example()[n].users)
  {
  }

  lemma {:induction false} ExampleNames()
    ensures NamesDistinct(Example())
  {
    var g := Example();
    assert |g[0].name| == 1 && |g[1].name| == 2 && |g[2].name| == 5 && |g[3].name| == 6;
  }

  lemma {:induction false} ExampleOps()
    ensures var g := Example();
            |g| == 4 && g[0].op.Placeholder? && g[1].op.CallFunction? && g[2].op.CallModule? && g[3].op.Output?
            && g[0].inputs == [] && g[3].users == []
  {
  }

  lemma {:induction false} ExampleWellFormed()
    ensures GraphIsWellFormed(Example())
    ensures forall n, i :: 0 <= n < |Example()| && i in Example()[n].inputs ==> i < n
  {
    ExampleOps();
    forall n: nat | n < 4
      ensures forall i :: i in Example()[n].inputs <==> (n == 1 && i == 0) || (n == 2 && i == 1) || (n == 3 && i == 0)
      ensures forall u :: u in Example()[n].users <==> (n == 0 && (u == 1 || u == 3)) || (n == 1 && u == 2)
      ensures Distinct(Example()[n].inputs) && Distinct(Example()[n].users)
    {
      ExampleEdges(n);
    }
    hide Example, Distinct;
  }

  lemma {:induction false} ExampleTraced()
    ensures Traced(Example())
  {
    ExampleNames();
    ExampleOps();
    ExampleWellFormed();
    hide Example, NamesDistinct, GraphIsWellFormed;
  }

  lemma {:induction false} ExampleDepths()
    ensures Depth(Example(), 2) == 2 && Depth(Example(), 3) == 1
  {
    var g := Example();
    assert [0][..0] == [] && [1][..0] == [];
    assert Depth(g, 0) == 0;
    assert Depth(g, 1) == 1;
  }

  /** A graph that tracing can yield: its target does not reach its output, which is never in the last partition. */
  lemma {:induction false} UnreachedTargetFails()
    ensures Traced(Example())
    ensures forall parts :: IsPartitioned(Example(), {"layer"}, parts) ==> !OutputInLast(Example(), parts)
  {
    ExampleTraced();
    ExampleDepths();
    ExampleOps();
    var g := Example();
    assert IsTarget(g, {"layer"}, 2) by {
      assert g[2].op.key == "layer";
    }
    hide *;
    OutputLastByDepth(g, {"layer"}, 3);
    forall parts | IsPartitioned(g, {"layer"}, parts)
      ensures !OutputInLast(g, parts)
    {
      OutputLastIff(g, {"layer"}, parts);
    }
  }
}
