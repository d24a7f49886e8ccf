/** Which values the cache holds between subgraphs. */
module Liveness {
  import opened FxGraph
  import opened TopologicalPartition
  import opened Subgraphs
  import opened GraphExecution

  // ----- The partition of each node

  /** The partition of each node, or -1 for an attribute read that nothing uses. */
  type Index = seq<int>

  ghost predicate IndexOk(g: Graph, parts: Partitions, idx: Index) {
    && |idx| == |g|
    && (forall n :: 0 <= n < |g| ==> -1 <= idx[n] < |parts|)
    && (forall n, p :: 0 <= n < |g| && 0 <= p < |parts| ==> (n in parts[p] <==> idx[n] == p))
    && (forall n, i :: 0 <= n < |g| && i in g[n].inputs ==> i < |g| && n in g[i].users && (idx[n] >= 0 ==> 0 <= idx[i] <= idx[n]))
    && (forall n, u :: 0 <= n < |g| && u in g[n].users ==> u < |g| && n in g[u].inputs && idx[u] >= 0)
  }

  ghost function PartIndex(parts: Partitions, n: nat): int {
    if p :| 0 <= p < |parts| && n in parts[p] then p else -1
  }

  lemma {:induction false} PartIndexUnique(g: Graph, parts: Partitions, n: nat, p: nat)
    requires Once(parts) && p < |parts|
    ensures n in parts[p] <==> PartIndex(parts, n) == p
  {
    if n in parts[p] {
      var q := PartIndex(parts, n);
      assert n in parts[q];
      var k :| 0 <= k < |parts[p]| && parts[p][k] == n;
      var j :| 0 <= j < |parts[q]| && parts[q][j] == n;
      assert At(parts, p, k) && At(parts, q, j);
    }
  }

  lemma {:induction false} EdgeInOrder(g: Graph, targets: set<nat>, parts: Partitions, n: nat, i: nat)
    requires Traced(g) && IsPartition(g, targets, parts) && n < |g| && i in g[n].inputs
    ensures i < |g| && n in g[i].users && 0 <= PartIndex(parts, i) && 0 <= PartIndex(parts, n)
    ensures PartIndex(parts, i) <= PartIndex(parts, n)
  {
    assert i < |g| && n in g[i].users;
    assert Holds(parts, n) && Holds(parts, i);
    var p, q := PartIndex(parts, n), PartIndex(parts, i);
    var k :| 0 <= k < |parts[p]| && parts[p][k] == n;
    var j :| 0 <= j < |parts[q]| && parts[q][j] == i;
    assert At(parts, p, k) && At(parts, q, j);
    assert Before(q, j, p, k);
  }

  ghost function IndexOf(g: Graph, parts: Partitions): (idx: Index)
    ensures |idx| == |g| && forall n :: 0 <= n < |g| ==> idx[n] == PartIndex(parts, n)
  {
    seq(|g|, n requires 0 <= n < |g| => PartIndex(parts, n))
  }

  lemma {:induction false} IndexFits(g: Graph, targets: set<nat>, parts: Partitions)
    requires Traced(g) && IsPartition(g, targets, parts)
    ensures IndexOk(g, parts, IndexOf(g, parts))
  {
    var idx := IndexOf(g, parts);
    forall n, p | 0 <= n < |g| && 0 <= p < |parts|
      ensures n in parts[p] <==> idx[n] == p
    {
      PartIndexUnique(g, parts, n, p);
    }
    forall n, i | 0 <= n < |g| && i in g[n].inputs
      ensures i < |g| && n in g[i].users && (idx[n] >= 0 ==> 0 <= idx[i] <= idx[n])
    {
      EdgeInOrder(g, targets, parts, n, i);
    }
    forall n, u | 0 <= n < |g| && u in g[n].users
      ensures u < |g| && n in g[u].inputs && idx[u] >= 0
    {
      EdgeInOrder(g, targets, parts, u, n);
    }
  }

  // ----- Needed, returned and kept nodes

  ghost predicate UsedIn(g: Graph, idx: Index, n: nat, i: int)
    requires n < |g| == |idx|
  {
    exists u :: u in g[n].users && u < |idx| && idx[u] == i
  }

  ghost predicate UsedFrom(g: Graph, idx: Index, n: nat, i: int)
    requires n < |g| == |idx|
  {
    exists u :: u in g[n].users && u < |idx| && idx[u] >= i
  }

  /** Subgraph i takes the value of node n as an argument. */
  ghost predicate Needs(g: Graph, idx: Index, n: nat, i: int)
    requires n < |g| == |idx|
  {
    (g[n].op.Placeholder? && idx[n] == i) || (0 <= idx[n] < i && UsedIn(g, idx, n, i))
  }

  /** Node n is defined in subgraph i and used in a later one. */
  ghost predicate Leaves(g: Graph, idx: Index, n: nat, i: int)
    requires n < |g| == |idx|
  {
    idx[n] == i && UsedFrom(g, idx, n, i + 1)
  }

  /** Defined before subgraph i and used from it on, or a placeholder whose partition is still to come. */
  ghost predicate Kept(g: Graph, idx: Index, n: nat, i: int)
    requires n < |g| == |idx|
  {
    (g[n].op.Placeholder? && idx[n] >= i) || (0 <= idx[n] < i && UsedFrom(g, idx, n, i))
  }

  /** No subgraph after i takes node n. */
  ghost predicate NeededLast(g: Graph, parts: Partitions, idx: Index, n: nat, i: int)
    requires n < |g| == |idx|
  {
    Needs(g, idx, n, i) && forall j :: i < j < |parts| ==> !Needs(g, idx, n, j)
  }

  /** Running subgraph i keeps exactly what was kept or is returned, and is not needed for the last time. */
  lemma {:induction false} KeptNext(g: Graph, parts: Partitions, idx: Index, n: nat, i: nat)
    requires IndexOk(g, parts, idx) && n < |g| && i < |parts|
    ensures Kept(g, idx, n, i + 1) <==> (Kept(g, idx, n, i) || Leaves(g, idx, n, i)) && !NeededLast(g, parts, idx, n, i)
  {
    if UsedFrom(g, idx, n, i + 1) {
      var u :| u in g[n].users && u < |idx| && idx[u] >= i + 1;
      assert idx[u] > i && 0 <= idx[n] <= idx[u];
      assert UsedIn(g, idx, n, idx[u]);
      assert UsedFrom(g, idx, n, i);
      if idx[n] <= i {
        assert Needs(g, idx, n, idx[u]);
      }
    } else {
      forall j | i < j < |parts|
        ensures !UsedIn(g, idx, n, j)
      {
      }
      assert UsedFrom(g, idx, n, i) ==> UsedIn(g, idx, n, i);
    }
  }

  lemma {:induction false} NeededIsKept(g: Graph, parts: Partitions, idx: Index, n: nat, i: nat)
    requires IndexOk(g, parts, idx) && n < |g| && i < |parts| && Needs(g, idx, n, i)
    ensures Kept(g, idx, n, i)
  {
    if UsedIn(g, idx, n, i) {
      var u :| u in g[n].users && u < |idx| && idx[u] == i;
      assert UsedFrom(g, idx, n, i);
    }
  }

  // ----- Names

  lemma {:induction false} ExternalIsUsed(g: Graph, parts: Partitions, idx: Index, i: nat, n: nat)
    requires IndexOk(g, parts, idx) && i < |parts| && InRange(g, parts) && n < |g|
    ensures IsExternal(g, parts[i], n) <==> 0 <= idx[n] < i && UsedIn(g, idx, n, i)
  {
    if IsExternal(g, parts[i], n) {
      var u :| u in parts[i] && n in g[u].inputs;
      assert idx[u] == i && u in g[n].users;
    }
    if 0 <= idx[n] < i && UsedIn(g, idx, n, i) {
      var u :| u in g[n].users && u < |idx| && idx[u] == i;
      assert u in parts[i] && n in g[u].inputs;
    }
  }

  lemma {:induction false} InputNameOf(g: Graph, parts: Partitions, idx: Index, i: nat, n: nat)
    requires NamesDistinct(g) && IndexOk(g, parts, idx) && i < |parts| && InRange(g, parts) && n < |g|
    ensures g[n].name in InputNames(g, parts[i]) <==> Needs(g, idx, n, i)
  {
    ExternalIsUsed(g, parts, idx, i, n);
    var body := parts[i];
    if g[n].name in InputNames(g, body) {
      if m :| m in Externals(g, body) && g[m].name == g[n].name {
        assert m == n;
      } else {
        var m :| m in body && g[m].op.Placeholder? && g[m].name == g[n].name;
        assert m == n;
      }
    }
    if Needs(g, idx, n, i) {
      assert (n in body && g[n].op.Placeholder?) || n in Externals(g, body);
    }
  }

  lemma {:induction false} InputNameHasNode(g: Graph, parts: Partitions, idx: Index, i: nat, k: string) returns (n: nat)
    requires IndexOk(g, parts, idx) && i < |parts| && InRange(g, parts) && k in InputNames(g, parts[i])
    ensures n < |g| && g[n].name == k
  {
    if m :| m in Externals(g, parts[i]) && g[m].name == k {
      n := m;
    } else {
      n :| n in parts[i] && g[n].op.Placeholder? && g[n].name == k;
    }
  }

  lemma {:induction false} ReturnedLeaves(g: Graph, parts: Partitions, idx: Index, i: nat, n: nat)
    requires IndexOk(g, parts, idx) && i < |parts| && InRange(g, parts) && n < |g|
    ensures n in ReturnedNodes(g, parts[i], parts[i]) <==> Leaves(g, idx, n, i)
  {
    if n in parts[i] {
      if LeavesBody(g, parts[i], n) {
        var u :| u in g[n].users && u !in parts[i];
        assert u < |g| && n in g[u].inputs;
        assert idx[n] <= idx[u] && idx[u] != i;
        assert UsedFrom(g, idx, n, i + 1);
      }
      if UsedFrom(g, idx, n, i + 1) {
        var u :| u in g[n].users && u < |idx| && idx[u] >= i + 1;
        assert u !in parts[i];
      }
    }
  }

  // ----- What the cache holds

  /** A batch key that is not an input of the model. */
  ghost predicate ExtraKey(g: Graph, batch: Values, k: string) {
    k in batch && forall n :: 0 <= n < |g| && g[n].op.Placeholder? ==> g[n].name != k
  }

  /** The batch supplies every placeholder, and no node is named like one of its other keys. */
  ghost predicate BatchOk(g: Graph, batch: Values) {
    && HasPlaceholders(g, batch)
    && forall k, n :: ExtraKey(g, batch, k) && 0 <= n < |g| ==> g[n].name != k
  }

  /**
    Between subgraphs: the cache of a batch holds the batch's extra keys and, under their names, the values of exactly the
    kept nodes.
    */
  ghost predicate Live(g: Graph, idx: Index, batch: Values, want: seq<Data>, i: nat, contents: Values)
    requires |want| == |g| == |idx|
  {
    && (forall k :: k in contents ==> KnownKey(g, batch, k))
    && (forall k :: ExtraKey(g, batch, k) ==> k in contents && contents[k] == batch[k])
    && (forall n :: 0 <= n < |g| ==> LiveNode(g, idx, want, i, contents, n))
  }

  ghost predicate KnownKey(g: Graph, batch: Values, k: string) {
    ExtraKey(g, batch, k) || exists n :: 0 <= n < |g| && g[n].name == k
  }

  ghost predicate LiveNode(g: Graph, idx: Index, want: seq<Data>, i: nat, contents: Values, n: nat)
    requires n < |want| == |g| == |idx|
  {
    && (g[n].name in contents <==> Kept(g, idx, n, i))
    && (g[n].name in contents ==> contents[g[n].name] == want[n])
  }

  lemma {:induction false} LiveAtStart(g: Graph, sem: Semantics, model: Model, parts: Partitions, idx: Index,
                                       batch: Values)
    requires Traced(g) && IndexOk(g, parts, idx) && BatchOk(g, batch)
    requires forall n :: 0 <= n < |g| && g[n].op.Placeholder? ==> idx[n] >= 0
    ensures Live(g, idx, batch, EvalAll(g, sem, model, batch), 0, batch)
  {
    forall n: nat | n < |g|
      ensures LiveNode(g, idx, EvalAll(g, sem, model, batch), 0, batch, n)
    {
      if g[n].name in batch {
        InputIsPlaceholder(g, batch, n);
      }
    }
  }

  /** A node named like a key of the batch is a placeholder. */
  lemma {:induction false} InputIsPlaceholder(g: Graph, batch: Values, n: nat)
    requires NamesDistinct(g) && BatchOk(g, batch) && n < |g| && g[n].name in batch
    ensures g[n].op.Placeholder?
  {
    assert !ExtraKey(g, batch, g[n].name);
    var m :| 0 <= m < |g| && g[m].op.Placeholder? && g[m].name == g[n].name;
    assert m == n;
  }

  lemma {:induction false} ExternalIsNeeded(g: Graph, parts: Partitions, idx: Index, i: nat, n: nat)
    requires IndexOk(g, parts, idx) && i < |parts| && InRange(g, parts) && IsExternal(g, parts[i], n)
    ensures n < |g| && Needs(g, idx, n, i)
  {
    ExternalIsUsed(g, parts, idx, i, n);
  }

  lemma {:induction false} PlaceholderIsNeeded(g: Graph, parts: Partitions, idx: Index, i: nat, n: nat)
    requires IndexOk(g, parts, idx) && i < |parts| && InRange(g, parts) && n in parts[i] && g[n].op.Placeholder?
    ensures Needs(g, idx, n, i)
  {
  }

  /** The arguments fetched for subgraph i are all there, and are the values of their nodes. */
  lemma {:induction false} FetchedAgree(g: Graph, parts: Partitions, idx: Index, batch: Values, want: seq<Data>, i: nat,
                     contents: Values, inputs: Values)
    requires NamesDistinct(g) && IndexOk(g, parts, idx) && i < |parts| && InRange(g, parts)
             && ExecutableBody(g, parts[i])
    requires |want| == |g| && Live(g, idx, batch, want, i, contents)
    requires inputs.Keys == contents.Keys * InputNames(g, parts[i])
    requires forall k :: k in inputs ==>
               inputs[k] == contents[k]
    ensures inputs.Keys == InputNames(g, parts[i])
    ensures ArgumentsAgree(g, want, parts[i], inputs)
  {
    assert |idx| == |g|;
    hide NamesDistinct, IndexOk, Kept, Needs;
    forall n: nat | n < |g| && Needs(g, idx, n, i)
      ensures g[n].name in inputs && inputs[g[n].name] == want[n]
    {
      NeededIsKept(g, parts, idx, n, i);
      InputNameOf(g, parts, idx, i, n);
      assert LiveNode(g, idx, want, i, contents, n);
    }
    forall k | k in InputNames(g, parts[i])
      ensures k in inputs
    {
      var n := InputNameHasNode(g, parts, idx, i, k);
      InputNameOf(g, parts, idx, i, n);
    }
    forall n | n in Externals(g, parts[i])
      ensures n < |g| && Needs(g, idx, n, i)
    {
      ExternalIsNeeded(g, parts, idx, i, n);
    }
    forall n | n in parts[i] && g[n].op.Placeholder?
      ensures Needs(g, idx, n, i)
    {
      PlaceholderIsNeeded(g, parts, idx, i, n);
    }
  }

  /** The names consumed by subgraph i: those no later subgraph takes. */
  ghost predicate ConsumedNames(g: Graph, parts: Partitions, i: nat, names: set<string>)
    requires i < |parts| && InRange(g, parts)
  {
    forall k :: k in names <==>
      k in InputNames(g, parts[i]) && forall j :: i < j < |parts| ==> k !in InputNames(g, parts[j])
  }

  lemma {:induction false} ConsumedIsLastNeed(g: Graph, parts: Partitions, idx: Index, i: nat, names: set<string>,
                                              n: nat)
    requires NamesDistinct(g) && IndexOk(g, parts, idx) && i < |parts| && InRange(g, parts) && n < |g|
    requires ConsumedNames(g, parts, i, names)
    ensures g[n].name in names <==> NeededLast(g, parts, idx, n, i)
  {
    InputNameOf(g, parts, idx, i, n);
    forall j | i < j < |parts|
      ensures g[n].name in InputNames(g, parts[j]) <==> Needs(g, idx, n, j)
    {
      InputNameOf(g, parts, idx, j, n);
    }
  }

  lemma {:induction false} ReturnedName(g: Graph, parts: Partitions, idx: Index, want: seq<Data>, i: nat,
                     values: Values, n: nat)
    requires NamesDistinct(g) && IndexOk(g, parts, idx) && i < |parts| && InRange(g, parts) && n < |g|
    requires |want| == |g| && NamesValues(g, want, ReturnedNodes(g, parts[i], parts[i]), values)
    ensures g[n].name in values <==> Leaves(g, idx, n, i)
    ensures g[n].name in values ==> values[g[n].name] == want[n]
  {
    ReturnedLeaves(g, parts, idx, i, n);
    if g[n].name in values {
      var m :| m in ReturnedNodes(g, parts[i], parts[i]) && g[m].name == g[n].name;
      assert m == n;
    }
  }

  /**
    Exact liveness: updating with what subgraph i returned and deleting what it consumed moves the cache from exactly what
    is live before subgraph i to exactly what is live after it; and everything deleted is there.
    */
  lemma {:induction false} LiveNext(g: Graph, parts: Partitions, idx: Index, batch: Values, want: seq<Data>, i: nat,
                 contents: Values, values: Values, consumed: set<string>)
    requires NamesDistinct(g) && IndexOk(g, parts, idx) && i < |parts| && InRange(g, parts)
    requires |want| == |g| == |idx| && BatchOk(g, batch) && Live(g, idx, batch, want, i, contents)
    requires NamesValues(g, want, ReturnedNodes(g, parts[i], parts[i]), values)
    requires ConsumedNames(g, parts, i, consumed)
    ensures consumed <= (contents + values).Keys
    ensures Live(g, idx, batch, want, i + 1, contents + values - consumed)
  {
    hide NamesDistinct, IndexOk, LiveNode, ConsumedNames, BatchOk, NamesValues, KnownKey;
    var after := contents + values - consumed;
    forall k | k in consumed
      ensures k in contents
    {
      ConsumedIsThere(g, parts, idx, batch, want, i, contents, consumed, k);
    }
    var next: nat := i + 1;
    forall n | 0 <= n < |g|
      ensures LiveNode(g, idx, want, next, after, n)
    {
      LiveNodeNext(g, parts, idx, want, i, contents, values, consumed, n);
    }
    forall k | ExtraKey(g, batch, k)
      ensures k in after && after[k] == batch[k]
    {
      ExtraStays(g, parts, idx, batch, want, i, values, consumed, k);
    }
    forall k | k in values
      ensures KnownKey(g, batch, k)
    {
      ReturnedIsKnown(g, parts, batch, want, i, values, k);
    }
  }

  lemma {:induction false} ReturnedIsKnown(g: Graph, parts: Partitions, batch: Values, want: seq<Data>, i: nat,
                                           values: Values, k: string)
    requires i < |parts| && InRange(g, parts) && |want| == |g|
    requires NamesValues(g, want, ReturnedNodes(g, parts[i], parts[i]), values) && k in values
    ensures KnownKey(g, batch, k)
  {
    var n :| n in ReturnedNodes(g, parts[i], parts[i]) && g[n].name == k;
  }

  lemma {:induction false} LiveNodeNext(g: Graph, parts: Partitions, idx: Index, want: seq<Data>, i: nat,
                     contents: Values, values: Values, consumed: set<string>, n: nat)
    requires NamesDistinct(g) && IndexOk(g, parts, idx) && i < |parts| && InRange(g, parts) && n < |g|
    requires |want| == |g|
    requires LiveNode(g, idx, want, i, contents, n)
    requires NamesValues(g, want, ReturnedNodes(g, parts[i], parts[i]), values)
    requires ConsumedNames(g, parts, i, consumed)
    ensures LiveNode(g, idx, want, i + 1, contents + values - consumed, n)
  {
    ReturnedName(g, parts, idx, want, i, values, n);
    ConsumedIsLastNeed(g, parts, idx, i, consumed, n);
    KeptNext(g, parts, idx, n, i);
  }

  lemma {:induction false} ConsumedIsThere(g: Graph, parts: Partitions, idx: Index, batch: Values, want: seq<Data>,
                                           i: nat,
                        contents: Values, consumed: set<string>, k: string)
    requires NamesDistinct(g) && IndexOk(g, parts, idx) && i < |parts| && InRange(g, parts) && |want| == |g|
    requires Live(g, idx, batch, want, i, contents) && ConsumedNames(g, parts, i, consumed) && k in consumed
    ensures k in contents
  {
    var n := InputNameHasNode(g, parts, idx, i, k);
    InputNameOf(g, parts, idx, i, n);
    NeededIsKept(g, parts, idx, n, i);
    assert LiveNode(g, idx, want, i, contents, n);
  }

  lemma {:induction false} ExtraStays(g: Graph, parts: Partitions, idx: Index, batch: Values, want: seq<Data>, i: nat,
                   values: Values, consumed: set<string>, k: string)
    requires NamesDistinct(g) && IndexOk(g, parts, idx) && i < |parts| && InRange(g, parts) && BatchOk(g, batch)
    requires |want| == |g| && NamesValues(g, want, ReturnedNodes(g, parts[i], parts[i]), values)
    requires ConsumedNames(g, parts, i, consumed) && ExtraKey(g, batch, k)
    ensures k !in values && k !in consumed
  {
    if k in consumed {
      var n := InputNameHasNode(g, parts, idx, i, k);
    }
  }

  // ----- Compressing a subgraph

  /** Only what the nodes of partition i read may have changed. */
  ghost predicate ChangesOnly(g: Graph, parts: Partitions, i: nat, before: Model, after: Model) {
    forall p, n :: 0 <= p < |parts| && p != i && n in parts[p] && n < |g| ==>
      ParametersOf(g, before, n) == ParametersOf(g, after, n)
  }

  lemma {:induction false} EvalUnchanged(g: Graph, sem: Semantics, before: Model, after: Model, parts: Partitions,
                                         idx: Index,
                                         batch: Values, i: nat, n: nat)
    requires Traced(g) && IndexOk(g, parts, idx) && HasPlaceholders(g, batch)
    requires ChangesOnly(g, parts, i, before, after)
    requires n < |g| && (g[n].op.Placeholder? || 0 <= idx[n] < i)
    ensures Eval(g, sem, before, batch, n) == Eval(g, sem, after, batch, n)
    decreases n
  {
    if !g[n].op.Placeholder? {
      assert n in parts[idx[n]];
      InputsEarlier(g, n);
      forall k | 0 <= k < |g[n].inputs|
        ensures Eval(g, sem, before, batch, g[n].inputs[k]) == Eval(g, sem, after, batch, g[n].inputs[k])
      {
        assert g[n].inputs[k] in g[n].inputs;
        EvalUnchanged(g, sem, before, after, parts, idx, batch, i, g[n].inputs[k]);
      }
      assert EvalInputs(g, sem, before, batch, n) == EvalInputs(g, sem, after, batch, n);
    }
  }

  /** What was computed before subgraph i stays right when subgraph i is compressed. */
  lemma {:induction false} LiveAfterCompression(g: Graph, sem: Semantics, before: Model, after: Model,
                                                parts: Partitions, idx: Index,
                             batch: Values, i: nat, contents: Values)
    requires Traced(g) && IndexOk(g, parts, idx) && HasPlaceholders(g, batch)
    requires ChangesOnly(g, parts, i, before, after)
    requires Live(g, idx, batch, EvalAll(g, sem, before, batch), i, contents)
    ensures Live(g, idx, batch, EvalAll(g, sem, after, batch), i, contents)
  {
    forall n: nat | n < |g|
      ensures LiveNode(g, idx, EvalAll(g, sem, after, batch), i, contents, n)
    {
      assert LiveNode(g, idx, EvalAll(g, sem, before, batch), i, contents, n);
      if Kept(g, idx, n, i) {
        EvalUnchanged(g, sem, before, after, parts, idx, batch, i, n);
      }
    }
  }
}
