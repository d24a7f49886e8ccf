/** The traced graph: nodes in trace order, which is an order they can be executed in. */
module FxGraph {
  import opened Collections

  datatype Op =
    | Placeholder
    | GetAttr(key: string)
    | CallFunction
    | CallModule(key: string)
    | Output

  /** A node is known by its position in the graph; inputs is all_input_nodes, users the keys of node.users. */
  datatype Node = Node(name: string, op: Op, inputs: seq<nat>, users: seq<nat>)

  type Graph = seq<Node>

  /** A user lists its input and an input its user, each once. */
  ghost predicate GraphIsWellFormed(g: Graph) {
    forall n :: 0 <= n < |g| ==>
      && (forall u :: u in g[n].users ==> u < |g| && n in g[u].inputs)
      && (forall i :: i in g[n].inputs ==> i < |g| && n in g[i].users)
      && Distinct(g[n].users) && Distinct(g[n].inputs)
  }

  ghost predicate NamesDistinct(g: Graph) {
    forall n, m :: 0 <= n < |g| && 0 <= m < |g| && g[n].name == g[m].name ==> n == m
  }

  ghost predicate OneOutput(g: Graph) {
    forall n, m :: 0 <= n < |g| && 0 <= m < |g| && g[n].op.Output? && g[m].op.Output? ==> n == m
  }

  /**
    What tracing a model yields, besides well-formedness: nodes are listed in execution order and named apart; attributes
    and placeholders have no inputs; the one output node has no users.
    */
  ghost predicate Traced(g: Graph) {
    && GraphIsWellFormed(g)
    && (forall n, i :: 0 <= n < |g| && i in g[n].inputs ==> i < n)
    && NamesDistinct(g)
    && (forall n :: 0 <= n < |g| && (g[n].op.GetAttr? || g[n].op.Placeholder?) ==> g[n].inputs == [])
    && (exists n :: 0 <= n < |g| && g[n].op.Output?)
    && OneOutput(g)
    && (forall n :: 0 <= n < |g| && g[n].op.Output? ==> g[n].users == [])
  }

  predicate IsTarget(g: Graph, targets: set<string>, n: nat) {
    n < |g| && g[n].op.CallModule? && g[n].op.key in targets
  }

  /** The nodes that call a target module. */
  function FindTargetNodes(g: Graph, targets: set<string>): (t: set<nat>)
    ensures forall n :: n in t <==> IsTarget(g, targets, n)
  {
    set n: nat | 0 <= n < |g| && IsTarget(g, targets, n)
  }

  predicate IsAttr(g: Graph, n: nat) {
    n < |g| && g[n].op.GetAttr?
  }
}
