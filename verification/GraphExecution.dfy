/** Evaluating the whole graph, and executing one subgraph of it. */
module GraphExecution {
  import opened FxGraph
  import opened TopologicalPartition
  import opened Subgraphs
  import Cache = IntermediatesCache

  type Data = Cache.Value<Cache.Tensor>
  type Values = map<string, Data>

  type Weights = seq<real>
  type Model = map<string, Weights>

  datatype Parameters = NoParameters | Parameters(weights: Weights)

  /** What a node computes from the values of its inputs and the parameters of the module it calls or reads. */
  type Semantics = (nat, seq<Data>, Parameters) -> Data

  function ParametersOf(g: Graph, model: Model, n: nat): Parameters
    requires n < |g|
  {
    match g[n].op
    case GetAttr(key) => if key in model then Parameters(model[key]) else NoParameters
    case CallModule(key) => if key in model then Parameters(model[key]) else NoParameters
    case _ => NoParameters
  }

  ghost predicate HasPlaceholders(g: Graph, batch: Values) {
    forall n :: 0 <= n < |g| && g[n].op.Placeholder? ==> g[n].name in batch
  }

  /** The value of node n when the whole model runs on a batch. */
  ghost function Eval(g: Graph, sem: Semantics, model: Model, batch: Values, n: nat): Data
    requires Traced(g) && HasPlaceholders(g, batch) && n < |g|
    decreases n
  {
    if g[n].op.Placeholder? then batch[g[n].name]
    else sem(n, EvalInputs(g, sem, model, batch, n), ParametersOf(g, model, n))
  }

  ghost function EvalInputs(g: Graph, sem: Semantics, model: Model, batch: Values, n: nat): (args: seq<Data>)
    requires Traced(g) && HasPlaceholders(g, batch) && n < |g|
    ensures |args| == |g[n].inputs|
    ensures forall k :: 0 <= k < |args| ==> g[n].inputs[k] < n && args[k] == Eval(g, sem, model, batch, g[n].inputs[k])
    decreases n, 0
  {
    InputsEarlier(g, n);
    seq(|g[n].inputs|, k requires 0 <= k < |g[n].inputs| => Eval(g, sem, model, batch, g[n].inputs[k]))
  }

  lemma {:induction false} InputsEarlier(g: Graph, n: nat)
    requires Traced(g) && n < |g|
    ensures forall k :: 0 <= k < |g[n].inputs| ==> g[n].inputs[k] < n
  {
    forall k | 0 <= k < |g[n].inputs|
      ensures g[n].inputs[k] < n
    {
      assert g[n].inputs[k] in g[n].inputs;
    }
  }

  /** How a subgraph's forward function can end. */
  datatype Outcome = Returns(values: Values) | ReturnsModelOutput(value: Data) | MissingArgument

  /** A body whose nodes come after those of their inputs that it contains. */
  ghost predicate ExecutableBody(g: Graph, body: seq<nat>) {
    && (forall n :: n in body ==> n < |g|)
    && (forall n, i :: n in body && i in g[n].inputs ==> i < |g|)
    && (forall k :: 0 <= k < |body| ==> ReadyAt(g, body, k))
  }

  ghost predicate ReadyAt(g: Graph, body: seq<nat>, k: nat)
    requires k < |body|
  {
    body[k] < |g| && forall i :: i in g[body[k]].inputs && i in body ==> i in body[..k]
  }

  lemma {:induction false} PartIsExecutable(g: Graph, targets: set<nat>, parts: Partitions, p: nat)
    requires Traced(g) && IsPartition(g, targets, parts) && p < |parts|
    ensures ExecutableBody(g, parts[p])
  {
    PartsInRange(g, parts);
    forall k | 0 <= k < |parts[p]|
      ensures ReadyAt(g, parts[p], k)
    {
      assert At(parts, p, k);
      forall i | i in g[parts[p][k]].inputs && i in parts[p]
        ensures i in parts[p][..k]
      {
        var j :| 0 <= j < |parts[p]| && parts[p][j] == i;
        assert At(parts, p, j);
        assert parts[p][..k][j] == i;
      }
    }
  }

  /** The argument of every placeholder of the subgraph is the wanted value of its node. */
  ghost predicate ArgumentsAgree(g: Graph, want: seq<Data>, body: seq<nat>, inputs: Values)
    requires |want| == |g| && ExecutableBody(g, body)
  {
    && (forall i :: i in Externals(g, body) ==> i < |g| && g[i].name in inputs && inputs[g[i].name] == want[i])
    && (forall n :: n in body && g[n].op.Placeholder? ==> g[n].name in inputs && inputs[g[n].name] == want[n])
  }

  /** A dictionary holding the wanted value of each listed node under its name. */
  ghost predicate NamesValues(g: Graph, want: seq<Data>, nodes: seq<nat>, values: Values)
    requires |want| == |g| && forall n :: n in nodes ==> n < |g|
  {
    && (forall n :: n in nodes ==> g[n].name in values && values[g[n].name] == want[n])
    && (forall k :: k in values ==> exists n :: n in nodes && g[n].name == k)
  }

  /** What the subgraph should return. */
  ghost predicate OutcomeCorrect(g: Graph, want: seq<Data>, body: seq<nat>, outcome: Outcome)
    requires |want| == |g| && ExecutableBody(g, body)
  {
    match ReturnedBy(g, body)
    case ModelOutput =>
      outcome.ReturnsModelOutput? && forall n :: n in body && g[n].op.Output? ==> outcome.value == want[n]
    case Names(nodes) =>
      outcome.Returns? && NamesValues(g, want, nodes, outcome.values)
  }

  /** The values of all nodes. */
  ghost function EvalAll(g: Graph, sem: Semantics, model: Model, batch: Values): (values: seq<Data>)
    requires Traced(g) && HasPlaceholders(g, batch)
    ensures |values| == |g| && forall n :: 0 <= n < |g| ==> values[n] == Eval(g, sem, model, batch, n)
  {
    seq(|g|, n requires 0 <= n < |g| => Eval(g, sem, model, batch, n))
  }

  function ValuesAt(values: seq<Data>, nodes: seq<nat>): (args: seq<Data>)
    requires forall k :: 0 <= k < |nodes| ==> nodes[k] < |values|
    ensures |args| == |nodes| && forall k :: 0 <= k < |nodes| ==> args[k] == values[nodes[k]]
  {
    seq(|nodes|, k requires 0 <= k < |nodes| => values[nodes[k]])
  }

  lemma {:induction false} EvalAllAt(g: Graph, sem: Semantics, model: Model, batch: Values, n: nat)
    requires Traced(g) && HasPlaceholders(g, batch) && n < |g|
    ensures forall k :: 0 <= k < |g[n].inputs| ==> g[n].inputs[k] < |g|
    ensures !g[n].op.Placeholder? ==>
              EvalAll(g, sem, model, batch)[n]
              == sem(n, ValuesAt(EvalAll(g, sem, model, batch), g[n].inputs), ParametersOf(g, model, n))
  {
    InputsEarlier(g, n);
    assert EvalInputs(g, sem, model, batch, n) == ValuesAt(EvalAll(g, sem, model, batch), g[n].inputs);
  }

  /** What node n computes from the environment; the arguments hold the value of a placeholder. */
  function NodeValue(g: Graph, sem: Semantics, model: Model, n: nat, inputs: Values, env: map<nat, Data>): Data
    requires n < |g| && (g[n].op.Placeholder? ==> g[n].name in inputs)
    requires forall k :: 0 <= k < |g[n].inputs| ==> g[n].inputs[k] in env
  {
    if g[n].op.Placeholder? then inputs[g[n].name]
    else
      var ins := g[n].inputs;
      sem(n, seq(|ins|, k requires 0 <= k < |ins| => env[ins[k]]), ParametersOf(g, model, n))
  }

  ghost predicate HasArguments(g: Graph, body: seq<nat>, inputs: Values) {
    ExecutableBody(g, body) && InputNames(g, body) <= inputs.Keys
  }

  /** The nodes with a value before the k-th node of the body runs: outside nodes and those run so far. */
  ghost predicate Reached(g: Graph, body: seq<nat>, k: nat, env: map<nat, Data>)
    requires k <= |body| && forall n :: n in body ==> n < |g|
  {
    forall n :: n in env <==> n in Externals(g, body) || n in body[..k]
  }

  /** The environment that the forward function starts from. */
  function StartEnv(g: Graph, body: seq<nat>, inputs: Values): (env: map<nat, Data>)
    requires HasArguments(g, body, inputs)
    ensures Reached(g, body, 0, env)
  {
    NamesOfExternals(g, body, inputs);
    map i | i in Externals(g, body) :: inputs[g[i].name]
  }

  function EnvNext(g: Graph, sem: Semantics, model: Model, body: seq<nat>, inputs: Values, k: nat, env: map<nat, Data>)
    : (next: map<nat, Data>)
    requires HasArguments(g, body, inputs) && k < |body| && Reached(g, body, k, env)
    ensures Reached(g, body, k + 1, next)
  {
    InputsReady(g, body, inputs, k);
    NextReached(body, k);
    env[body[k] := NodeValue(g, sem, model, body[k], inputs, env)]
  }

  lemma {:induction false} NextReached(body: seq<nat>, k: nat)
    requires k < |body|
    ensures body[..k + 1] == body[..k] + [body[k]]
  {
  }

  /** The environment once the first k nodes of the body have run. */
  function EnvAfter(g: Graph, sem: Semantics, model: Model, body: seq<nat>, inputs: Values, k: nat): (env: map<nat, Data>)
    requires HasArguments(g, body, inputs) && k <= |body|
    ensures Reached(g, body, k, env)
    decreases k
  {
    if k == 0 then StartEnv(g, body, inputs)
    else EnvNext(g, sem, model, body, inputs, k - 1, EnvAfter(g, sem, model, body, inputs, k - 1))
  }

  lemma {:induction false} InputsReady(g: Graph, body: seq<nat>, inputs: Values, k: nat)
    requires HasArguments(g, body, inputs) && k < |body|
    ensures body[k] in body && body[k] < |g|
    ensures g[body[k]].op.Placeholder? ==> g[body[k]].name in inputs
    ensures forall j :: 0 <= j < |g[body[k]].inputs| ==>
              g[body[k]].inputs[j] in Externals(g, body) || g[body[k]].inputs[j] in body[..k]
  {
    var n := body[k];
    assert ReadyAt(g, body, k);
    assert n in body;
    assert g[n].op.Placeholder? ==> g[n].name in InputNames(g, body);
    forall j | 0 <= j < |g[n].inputs|
      ensures g[n].inputs[j] in Externals(g, body) || g[n].inputs[j] in body[..k]
    {
      var i := g[n].inputs[j];
      assert i in g[n].inputs;
      assert i !in body ==> IsExternal(g, body, i);
    }
  }

  /** Runs the nodes of the body in order. */
  method Execute(g: Graph, sem: Semantics, model: Model, body: seq<nat>, inputs: Values) returns (env: map<nat, Data>)
    requires HasArguments(g, body, inputs)
    ensures env == EnvAfter(g, sem, model, body, inputs, |body|)
  {
    hide ExecutableBody, InputNames, NodeValue, Reached, StartEnv;
    env := StartEnv(g, body, inputs);
    for k := 0 to |body|
      invariant env == EnvAfter(g, sem, model, body, inputs, k)
    {
      env := EnvNext(g, sem, model, body, inputs, k, env);
    }
  }

  lemma {:induction false} NamesOfExternals(g: Graph, body: seq<nat>, inputs: Values)
    requires HasArguments(g, body, inputs)
    ensures forall i :: i in Externals(g, body) ==> i < |g| && g[i].name in inputs
  {
    forall i | i in Externals(g, body)
      ensures i < |g| && g[i].name in inputs
    {
      assert g[i].name in InputNames(g, body);
    }
  }

  /** The values in env are those wanted. */
  ghost predicate EnvRight(want: seq<Data>, env: map<nat, Data>) {
    forall n :: n in env ==> n < |want| && env[n] == want[n]
  }

  lemma {:induction false} NodeValueRight(g: Graph, sem: Semantics, model: Model, batch: Values, n: nat, inputs: Values,
                                          env: map<nat, Data>)
    requires Traced(g) && HasPlaceholders(g, batch) && n < |g| && EnvRight(EvalAll(g, sem, model, batch), env)
    requires g[n].op.Placeholder? ==> g[n].name in inputs && inputs[g[n].name] == EvalAll(g, sem, model, batch)[n]
    requires forall k :: 0 <= k < |g[n].inputs| ==> g[n].inputs[k] in env
    ensures NodeValue(g, sem, model, n, inputs, env) == EvalAll(g, sem, model, batch)[n]
  {
    hide Traced, HasPlaceholders, EvalAll;
    EvalAllAt(g, sem, model, batch, n);
    var want, ins := EvalAll(g, sem, model, batch), g[n].inputs;
    assert seq(|ins|, k requires 0 <= k < |ins| => env[ins[k]]) == ValuesAt(want, ins);
  }

  lemma {:induction false} StartEnvRight(g: Graph, want: seq<Data>, body: seq<nat>, inputs: Values)
    requires HasArguments(g, body, inputs) && |want| == |g| && ArgumentsAgree(g, want, body, inputs)
    ensures EnvRight(want, StartEnv(g, body, inputs))
  {
  }

  lemma {:induction false} EnvNextRight(g: Graph, sem: Semantics, model: Model, batch: Values, body: seq<nat>, inputs: Values,
                                        k: nat, env: map<nat, Data>)
    requires Traced(g) && HasPlaceholders(g, batch) && HasArguments(g, body, inputs) && k < |body| && Reached(g, body, k, env)
    requires ArgumentsAgree(g, EvalAll(g, sem, model, batch), body, inputs) && EnvRight(EvalAll(g, sem, model, batch), env)
    ensures EnvRight(EvalAll(g, sem, model, batch), EnvNext(g, sem, model, body, inputs, k, env))
  {
    hide Traced, HasPlaceholders, EvalAll, InputNames, NodeValue, ExecutableBody, Externals, ArgumentsAgree, Reached,
      HasArguments;
    ArgumentRight(g, EvalAll(g, sem, model, batch), body, inputs, k);
    InputsReached(g, body, inputs, k, env);
    NodeValueRight(g, sem, model, batch, body[k], inputs, env);
  }

  lemma {:induction false} ArgumentRight(g: Graph, want: seq<Data>, body: seq<nat>, inputs: Values, k: nat)
    requires HasArguments(g, body, inputs) && |want| == |g| && ArgumentsAgree(g, want, body, inputs) && k < |body|
    ensures body[k] < |g|
    ensures g[body[k]].op.Placeholder? ==> g[body[k]].name in inputs && inputs[g[body[k]].name] == want[body[k]]
  {
    hide Externals;
    assert body[k] in body;
  }

  lemma {:induction false} InputsReached(g: Graph, body: seq<nat>, inputs: Values, k: nat, env: map<nat, Data>)
    requires HasArguments(g, body, inputs) && k < |body| && Reached(g, body, k, env)
    ensures body[k] < |g| && forall j :: 0 <= j < |g[body[k]].inputs| ==> g[body[k]].inputs[j] in env
  {
    hide InputNames, Externals;
    InputsReady(g, body, inputs, k);
  }

  /** With the right arguments every node that has run has the value that it has when the whole model runs. */
  lemma {:induction false} EnvAfterRight(g: Graph, sem: Semantics, model: Model, batch: Values, body: seq<nat>, inputs: Values,
                                         k: nat)
    requires Traced(g) && HasPlaceholders(g, batch) && HasArguments(g, body, inputs) && k <= |body|
    requires ArgumentsAgree(g, EvalAll(g, sem, model, batch), body, inputs)
    ensures EnvRight(EvalAll(g, sem, model, batch), EnvAfter(g, sem, model, body, inputs, k))
    decreases k
  {
    hide Traced, HasPlaceholders, EvalAll, InputNames, EnvNext, StartEnv, EnvRight, ArgumentsAgree, Reached;
    if k == 0 {
      StartEnvRight(g, EvalAll(g, sem, model, batch), body, inputs);
    } else {
      EnvAfterRight(g, sem, model, batch, body, inputs, k - 1);
      EnvNextRight(g, sem, model, batch, body, inputs, k - 1, EnvAfter(g, sem, model, body, inputs, k - 1));
    }
  }

  /** What subgraph.forward(model, **inputs) comes to. */
  ghost function OutcomeOf(g: Graph, sem: Semantics, model: Model, body: seq<nat>, inputs: Values): Outcome
    requires Traced(g) && ExecutableBody(g, body)
  {
    if !(InputNames(g, body) <= inputs.Keys) then MissingArgument
    else
      BodyReached(g, sem, model, body, inputs);
      Collect(g, body, EnvAfter(g, sem, model, body, inputs, |body|))
  }

  lemma {:induction false} BodyReached(g: Graph, sem: Semantics, model: Model, body: seq<nat>, inputs: Values)
    requires HasArguments(g, body, inputs)
    ensures forall n :: n in body ==> n < |g| && n in EnvAfter(g, sem, model, body, inputs, |body|)
  {
    assert body[..|body|] == body;
  }

  /** subgraph.forward(model, **inputs) */
  method Forward(g: Graph, sem: Semantics, model: Model, body: seq<nat>, inputs: Values) returns (outcome: Outcome)
    requires Traced(g) && ExecutableBody(g, body)
    ensures outcome == OutcomeOf(g, sem, model, body, inputs)
  {
    if !(InputNames(g, body) <= inputs.Keys) {
      return MissingArgument;
    }
    hide Traced, InputNames;
    var env := Execute(g, sem, model, body, inputs);
    BodyReached(g, sem, model, body, inputs);
    TracedNames(g);
    outcome := Collect(g, body, env);
  }

  lemma {:induction false} TracedNames(g: Graph)
    requires Traced(g)
    ensures NamesDistinct(g) && OneOutput(g)
  {
  }

  /**
    The forward function fails exactly when an argument is missing. With the right arguments it returns the values that the
    named nodes have when the whole model runs, or the model's output.
    */
  lemma {:induction false} ForwardCorrect(g: Graph, sem: Semantics, model: Model, body: seq<nat>, inputs: Values, batch: Values)
    requires Traced(g) && ExecutableBody(g, body) && HasPlaceholders(g, batch)
    ensures OutcomeOf(g, sem, model, body, inputs).MissingArgument? <==> !(InputNames(g, body) <= inputs.Keys)
    ensures OutcomeOf(g, sem, model, body, inputs).ReturnsModelOutput? ==> HasOutput(g, body)
    ensures ArgumentsAgree(g, EvalAll(g, sem, model, batch), body, inputs) && InputNames(g, body) <= inputs.Keys ==>
              OutcomeCorrect(g, EvalAll(g, sem, model, batch), body, OutcomeOf(g, sem, model, body, inputs))
  {
    hide Traced, HasPlaceholders, EvalAll, InputNames, ArgumentsAgree, OutcomeCorrect, EnvAfter, EnvRight;
    if InputNames(g, body) <= inputs.Keys {
      BodyReached(g, sem, model, body, inputs);
      TracedNames(g);
      if ArgumentsAgree(g, EvalAll(g, sem, model, batch), body, inputs) {
        EnvAfterRight(g, sem, model, batch, body, inputs, |body|);
        CollectCorrect(g, EvalAll(g, sem, model, batch), body, EnvAfter(g, sem, model, body, inputs, |body|));
      }
    }
  }

  /** The dictionary of returned values, or the value of the output node if the body has it. */
  function Collect(g: Graph, body: seq<nat>, env: map<nat, Data>): (outcome: Outcome)
    requires NamesDistinct(g) && OneOutput(g) && forall n :: n in body ==> n < |g| && n in env
    ensures outcome.ReturnsModelOutput? <==> HasOutput(g, body)
    ensures !outcome.MissingArgument?
  {
    match ReturnedBy(g, body)
    case ModelOutput =>
      assert exists n :: n in body && g[n].op.Output?;
      var n :| n in body && g[n].op.Output?;
      ReturnsModelOutput(env[n])
    case Names(nodes) => Returns(CollectNames(g, nodes, env))
  }

  lemma {:induction false} CollectCorrect(g: Graph, want: seq<Data>, body: seq<nat>, env: map<nat, Data>)
    requires NamesDistinct(g) && |want| == |g| && ExecutableBody(g, body) && OneOutput(g) && EnvRight(want, env)
    requires forall n :: n in body ==> n < |g| && n in env
    ensures OutcomeCorrect(g, want, body, Collect(g, body, env))
  {
  }

  /** {node.name: value} for the listed nodes */
  function CollectNames(g: Graph, nodes: seq<nat>, env: map<nat, Data>): (values: Values)
    requires NamesDistinct(g) && forall n :: n in nodes ==> n < |g| && n in env
    ensures forall n :: n in nodes ==> g[n].name in values && values[g[n].name] == env[n]
    ensures forall k :: k in values ==> exists n :: n in nodes && g[n].name == k
  {
    map n | n in nodes :: g[n].name := env[n]
  }
}
