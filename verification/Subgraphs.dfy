/** Turning partitions into subgraphs with named inputs and outputs, and finding out when each name is last used. */
module Subgraphs {
  import opened Collections
  import opened FxGraph
  import opened TopologicalPartition

  /** What a subgraph returns: a dictionary of the values other partitions use, or what the model itself returns. */
  datatype Returned = Names(nodes: seq<nat>) | ModelOutput

  class Subgraph {
    /** The nodes copied into the subgraph, in order. */
    const body: seq<nat>
    /** The nodes outside whose values are passed in through placeholders. */
    const externals: set<nat>
    const returned: Returned
    const inputNames: set<string>
    var consumedNames: set<string>

    constructor (body: seq<nat>, externals: set<nat>, returned: Returned, inputNames: set<string>)
      ensures this.body == body && this.externals == externals && this.returned == returned
      ensures this.inputNames == inputNames && consumedNames == {}
    {
      this.body, this.externals, this.returned := body, externals, returned;
      this.inputNames, this.consumedNames := inputNames, {};
    }
  }

  // ----- What a partition exchanges with the others

  ghost predicate IsExternal(g: Graph, body: seq<nat>, i: nat)
    requires forall n :: n in body ==> n < |g|
  {
    i !in body && exists n :: n in body && i in g[n].inputs
  }

  function Externals(g: Graph, body: seq<nat>): (e: set<nat>)
    requires forall n :: n in body ==> n < |g|
    ensures forall i :: i in e <==> IsExternal(g, body, i)
  {
    set n, i | n in body && i in g[n].inputs && i !in body :: i
  }

  predicate LeavesBody(g: Graph, body: seq<nat>, n: nat)
    requires n < |g|
  {
    exists u :: u in g[n].users && u !in body
  }

  function ReturnedNodes(g: Graph, nodes: seq<nat>, body: seq<nat>): (r: seq<nat>)
    requires forall n :: n in nodes ==> n < |g|
    ensures forall n :: n in r <==> n in nodes && LeavesBody(g, body, n)
  {
    if nodes == [] then []
    else
      var front, last := nodes[..|nodes| - 1], nodes[|nodes| - 1];
      assert nodes == front + [last] && last in nodes && forall n :: n in front ==> n in nodes;
      if LeavesBody(g, body, last) then ReturnedNodes(g, front, body) + [last] else ReturnedNodes(g, front, body)
  }

  /** The nodes returned are those used outside the body, in order: at are their positions. */
  ghost predicate ReturnsAt(g: Graph, nodes: seq<nat>, body: seq<nat>, at: seq<nat>, returned: seq<nat>)
    requires forall i :: 0 <= i < |nodes| ==> nodes[i] < |g|
  {
    Picks(nodes, at, returned) && forall i :: 0 <= i < |nodes| ==> (i in at <==> LeavesBody(g, body, nodes[i]))
  }

  lemma {:induction false} ReturnsOneMore(g: Graph, nodes: seq<nat>, body: seq<nat>, at: seq<nat>, returned: seq<nat>)
    requires nodes != [] && (forall i :: 0 <= i < |nodes| ==> nodes[i] < |g|)
    requires ReturnsAt(g, nodes[..|nodes| - 1], body, at, returned)
    ensures var n := |nodes| - 1;
            if LeavesBody(g, body, nodes[n]) then ReturnsAt(g, nodes, body, at + [n], returned + [nodes[n]])
            else ReturnsAt(g, nodes, body, at, returned)
  {
    hide LeavesBody, Picks;
    var n := |nodes| - 1;
    PicksNext(nodes, at, returned);
    forall i | 0 <= i < n
      ensures i in at <==> LeavesBody(g, body, nodes[i])
    {
      assert nodes[..n][i] == nodes[i];
    }
  }

  lemma {:induction false} ReturnedNext(g: Graph, nodes: seq<nat>, body: seq<nat>)
    requires nodes != [] && (forall i :: 0 <= i < |nodes| ==> nodes[i] < |g|)
    ensures var n := |nodes| - 1;
            ReturnedNodes(g, nodes, body)
            == if LeavesBody(g, body, nodes[n]) then ReturnedNodes(g, nodes[..n], body) + [nodes[n]]
               else ReturnedNodes(g, nodes[..n], body)
  {
    hide LeavesBody;
  }

  lemma {:induction false} ReturnsNext(g: Graph, nodes: seq<nat>, body: seq<nat>, at: seq<nat>) returns (next: seq<nat>)
    requires nodes != [] && (forall i :: 0 <= i < |nodes| ==> nodes[i] < |g|)
    requires ReturnsAt(g, nodes[..|nodes| - 1], body, at, ReturnedNodes(g, nodes[..|nodes| - 1], body))
    ensures ReturnsAt(g, nodes, body, next, ReturnedNodes(g, nodes, body))
  {
    hide LeavesBody, ReturnedNodes, ReturnsAt;
    var n := |nodes| - 1;
    ReturnedNext(g, nodes, body);
    ReturnsOneMore(g, nodes, body, at, ReturnedNodes(g, nodes[..n], body));
    next := if LeavesBody(g, body, nodes[n]) then at + [n] else at;
  }

  lemma {:induction false} NothingReturned(g: Graph, body: seq<nat>)
    ensures ReturnsAt(g, [], body, [], ReturnedNodes(g, [], body))
  {
  }

  /** Values are returned in the order of the nodes that compute them. */
  lemma {:induction false} ReturnedInOrder(g: Graph, nodes: seq<nat>, body: seq<nat>) returns (at: seq<nat>)
    requires forall i :: 0 <= i < |nodes| ==> nodes[i] < |g|
    ensures ReturnsAt(g, nodes, body, at, ReturnedNodes(g, nodes, body))
    decreases |nodes|
  {
    hide LeavesBody, ReturnedNodes, ReturnsAt;
    if nodes == [] {
      NothingReturned(g, body);
      at := [];
    } else {
      at := ReturnedInOrder(g, nodes[..|nodes| - 1], body);
      at := ReturnsNext(g, nodes, body, at);
    }
  }

  predicate HasOutput(g: Graph, body: seq<nat>)
    requires forall n :: n in body ==> n < |g|
  {
    exists n :: n in body && g[n].op.Output?
  }

  function ReturnedBy(g: Graph, body: seq<nat>): Returned
    requires forall n :: n in body ==> n < |g|
  {
    if HasOutput(g, body) then ModelOutput else Names(ReturnedNodes(g, body, body))
  }

  /** The argument names of the subgraph: new placeholders and the placeholders it copied. */
  function InputNames(g: Graph, body: seq<nat>): (names: set<string>)
    requires forall n :: n in body ==> n < |g|
    requires forall n, i :: n in body && i in g[n].inputs ==> i < |g|
  {
    (set i | i in Externals(g, body) :: g[i].name) + (set n | n in body && g[n].op.Placeholder? :: g[n].name)
  }

  ghost predicate InRange(g: Graph, parts: Partitions) {
    && (forall p, n :: 0 <= p < |parts| && n in parts[p] ==> n < |g|)
    && (forall n, i :: 0 <= n < |g| && i in g[n].inputs ==> i < |g|)
  }

  lemma {:induction false} PartsInRange(g: Graph, parts: Partitions)
    requires Traced(g) && InGraph(g, parts)
    ensures InRange(g, parts)
  {
    forall p, n | 0 <= p < |parts| && n in parts[p]
      ensures n < |g|
    {
      var k :| 0 <= k < |parts[p]| && parts[p][k] == n;
      assert At(parts, p, k);
    }
  }

  lemma {:induction false} PartitionInRange(g: Graph, targets: set<nat>, parts: Partitions)
    requires Traced(g) && IsPartition(g, targets, parts)
    ensures InRange(g, parts)
    ensures forall p, n :: 0 <= p < |parts| && n in parts[p] ==> n < |g|
    ensures forall n, i :: 0 <= n < |g| && i in g[n].inputs ==> i < |g|
  {
    PartsInRange(g, parts);
  }

  /** Subgraph p is partition p with its interface. */
  ghost predicate Represents(g: Graph, body: seq<nat>, s: Subgraph)
    requires forall n :: n in body ==> n < |g|
    requires forall n, i :: n in body && i in g[n].inputs ==> i < |g|
  {
    && s.body == body
    && s.externals == Externals(g, body)
    && s.returned == ReturnedBy(g, body)
    && s.inputNames == InputNames(g, body)
  }

  method PartitionGraph(g: Graph, targets: set<nat>, parts: Partitions) returns (subgraphs: seq<Subgraph>)
    requires Traced(g) && IsPartition(g, targets, parts)
    ensures InRange(g, parts) && |subgraphs| == |parts|
    ensures forall p :: 0 <= p < |parts| ==> fresh(subgraphs[p]) && subgraphs[p].consumedNames == {}
    ensures forall p :: 0 <= p < |parts| ==> Represents(g, parts[p], subgraphs[p])
    ensures forall p, q :: 0 <= p < q < |parts| ==> subgraphs[p] != subgraphs[q]
  {
    hide Traced, IsPartition, Represents, InRange;
    PartitionInRange(g, targets, parts);
    subgraphs := [];
    for p := 0 to |parts|
      invariant |subgraphs| == p
      invariant forall q :: 0 <= q < p ==> fresh(subgraphs[q]) && subgraphs[q].consumedNames == {}
      invariant forall q :: 0 <= q < p ==> Represents(g, parts[q], subgraphs[q])
      invariant forall q, r :: 0 <= q < r < p ==> subgraphs[q] != subgraphs[r]
    {
      var s := MakeSubgraph(g, targets, parts, p);
      subgraphs := subgraphs + [s];
    }
  }

  method MakeSubgraph(g: Graph, targets: set<nat>, parts: Partitions, p: nat) returns (s: Subgraph)
    requires Traced(g) && IsPartition(g, targets, parts) && InRange(g, parts) && p < |parts|
    ensures fresh(s) && s.consumedNames == {} && Represents(g, parts[p], s)
  {
    var externals := Externals(g, parts[p]);
    var nodeMap := CopyNodes(g, targets, parts, p, externals);
    s := new Subgraph(parts[p], externals, ReturnedBy(g, parts[p]), InputNames(g, parts[p]));
  }

  lemma {:induction false} InputsCopied(g: Graph, targets: set<nat>, parts: Partitions, p: nat, k: nat)
    requires Traced(g) && IsPartition(g, targets, parts) && InRange(g, parts) && p < |parts| && k < |parts[p]|
    ensures forall i :: i in g[parts[p][k]].inputs ==> i in Externals(g, parts[p]) || i in parts[p][..k]
  {
    var node := parts[p][k];
    forall i | i in g[node].inputs
      ensures i in Externals(g, parts[p]) || i in parts[p][..k]
    {
      if i in parts[p] {
        var j :| 0 <= j < |parts[p]| && parts[p][j] == i;
        assert At(parts, p, j) && At(parts, p, k);
        assert parts[p][..k][j] == i;
      } else {
        assert node in parts[p];
        assert IsExternal(g, parts[p], i);
      }
    }
  }

  lemma {:induction false} NodesInGraph(g: Graph, parts: Partitions, p: nat)
    requires InRange(g, parts) && p < |parts|
    ensures forall j :: 0 <= j < |parts[p]| ==> parts[p][j] < |g|
  {
    forall j | 0 <= j < |parts[p]|
      ensures parts[p][j] < |g|
    {
      assert parts[p][j] in parts[p];
    }
  }

  /** Copying the nodes of a partition in order finds every input in node_map already. */
  method CopyNodes(g: Graph, targets: set<nat>, parts: Partitions, p: nat, newInputNodes: set<nat>)
    returns (nodeMap: set<nat>)
    requires Traced(g) && IsPartition(g, targets, parts) && InRange(g, parts) && p < |parts|
    requires newInputNodes == Externals(g, parts[p])
    ensures forall n :: n in nodeMap <==> n in newInputNodes || n in parts[p]
    ensures forall k, i :: 0 <= k < |parts[p]| && i in g[parts[p][k]].inputs ==> i in newInputNodes || i in parts[p][..k]
  {
    hide Traced, IsPartition;
    NodesInGraph(g, parts, p);
    nodeMap := newInputNodes;
    for k := 0 to |parts[p]|
      invariant nodeMap == newInputNodes + set n | n in parts[p][..k]
      invariant forall j, i :: 0 <= j < k && i in g[parts[p][j]].inputs ==> i in newInputNodes || i in parts[p][..j]
    {
      var node := parts[p][k];
      InputsCopied(g, targets, parts, p, k);
      nodeMap := nodeMap + {node};
      assert parts[p][..k + 1] == parts[p][..k] + [node];
    }
    assert parts[p][..|parts[p]|] == parts[p];
  }

  // ----- Last uses

  /** The last subgraph that takes the name is the k-th. */
  ghost predicate LastUse(inputNames: seq<set<string>>, k: nat, name: string)
    requires k < |inputNames|
  {
    name in inputNames[k] && forall j :: k < j < |inputNames| ==> name !in inputNames[j]
  }

  ghost predicate ConsumedAt(inputNames: seq<set<string>>, k: nat, names: set<string>)
    requires k < |inputNames|
  {
    forall n :: n in names <==> LastUse(inputNames, k, n)
  }

  method AllInputNames(subgraphs: seq<Subgraph>) returns (all: set<string>)
    ensures forall n :: n in all <==> exists k :: 0 <= k < |subgraphs| && n in subgraphs[k].inputNames
  {
    all := {};
    for i := 0 to |subgraphs|
      invariant forall n :: n in all <==> exists k :: 0 <= k < i && n in subgraphs[k].inputNames
    {
      all := all + subgraphs[i].inputNames;
    }
  }

  method TraceConsumedNames(subgraphs: seq<Subgraph>, ghost inputNames: seq<set<string>>)
    requires |inputNames| == |subgraphs|
    requires forall k :: 0 <= k < |subgraphs| ==>
               inputNames[k] == subgraphs[k].inputNames
    requires forall k :: 0 <= k < |subgraphs| ==> subgraphs[k].consumedNames == {}
    requires forall j, k :: 0 <= j < k < |subgraphs| ==> subgraphs[j] != subgraphs[k]
    modifies subgraphs
    ensures forall k :: 0 <= k < |subgraphs| ==> ConsumedAt(inputNames, k, subgraphs[k].consumedNames)
  {
    var all := AllInputNames(subgraphs);
    var rest := all;
    while rest != {}
      invariant rest <= all
      invariant forall k, n :: 0 <= k < |subgraphs| ==>
                  (n in subgraphs[k].consumedNames <==> n in all && n !in rest && LastUse(inputNames, k, n))
      decreases rest
    {
      var name :| name in rest;
      var i := |subgraphs| - 1;
      var k0 :| 0 <= k0 < |subgraphs| && name in subgraphs[k0].inputNames;
      while name !in subgraphs[i].inputNames
        invariant k0 <= i < |subgraphs|
        decreases i
        invariant forall j :: i < j < |subgraphs| ==> name !in inputNames[j]
      {
        i := i - 1;
      }
      subgraphs[i].consumedNames := subgraphs[i].consumedNames + {name};
      assert LastUse(inputNames, i, name);
      forall k | 0 <= k < |subgraphs| && k != i
        ensures !LastUse(inputNames, k, name)
      {
        if k < i {
          assert name in inputNames[i];
        }
      }
      rest := rest - {name};
    }
    forall k | 0 <= k < |subgraphs|
      ensures ConsumedAt(inputNames, k, subgraphs[k].consumedNames)
    {
      forall n
        ensures n in subgraphs[k].consumedNames <==> LastUse(inputNames, k, n)
      {
        assert LastUse(inputNames, k, n) ==> n in subgraphs[k].inputNames;
      }
    }
  }
}
