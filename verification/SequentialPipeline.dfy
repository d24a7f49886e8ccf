/**
  The sequential calibration pipeline: every subgraph runs over every batch twice, once to calibrate and, after it has been
  compressed, once more to propagate its outputs through the cache.
  */
module SequentialPipeline {
  import opened Collections
  import opened FxGraph
  import opened TopologicalPartition
  import opened Subgraphs
  import opened GraphExecution
  import opened Liveness
  import opened OutputPartition
  import Cache = IntermediatesCache

  /**
    What the modifiers do at the end of a calibration epoch, given the subgraph's position, the model and the arguments each
    batch was calibrated with.
    */
  type Compressor = (nat, Model, seq<Values>) -> Model

  /**
    outputs: what the last subgraph returned for each batch. models: the model before each subgraph, and the final one.
    seen: the arguments that each batch was calibrated with, subgraph by subgraph.
    */
  datatype Result = Completed(outputs: seq<Outcome>, models: seq<Model>, seen: seq<seq<Values>>) | Failed

  ghost predicate CompressesLocally(g: Graph, parts: Partitions, compress: Compressor) {
    forall i, m, seen :: 0 <= i < |parts| ==> ChangesOnly(g, parts, i, m, compress(i, m, seen))
  }

  /** The graph, its partition and the batches that a run is about. */
  datatype Setting = Setting(g: Graph, sem: Semantics, parts: Partitions, batches: seq<Values>)
  {
    ghost predicate Valid() {
      && Traced(g) && NamesDistinct(g)
      && (exists targets :: IsPartition(g, targets, parts))
      && InRange(g, parts)
      && IndexOk(g, parts, IndexOf(g, parts))
      && (forall p :: 0 <= p < |parts| ==> ExecutableBody(g, parts[p]))
      && (forall b :: 0 <= b < |batches| ==> BatchOk(g, batches[b]) && HasPlaceholders(g, batches[b]))
    }

    /** The values of all nodes when the whole model runs on batch b. */
    ghost function Want(model: Model, b: nat): (want: seq<Data>)
      requires Valid() && b < |batches|
      ensures |want| == |g|
    {
      EvalAll(g, sem, model, batches[b])
    }

    /** What the cache should hold for batch b before subgraph i. */
    ghost predicate LiveBefore(model: Model, i: nat, b: nat, contents: Values)
      requires Valid() && b < |batches|
    {
      Live(g, IndexOf(g, parts), batches[b], Want(model, b), i, contents)
    }

    ghost predicate Agree(model: Model, i: nat, b: nat, inputs: Values)
      requires Valid() && b < |batches| && i < |parts|
    {
      inputs.Keys == InputNames(g, parts[i]) && ArgumentsAgree(g, Want(model, b), parts[i], inputs)
    }

    /** The argument names of subgraph i. */
    ghost function Names(i: nat): set<string>
      requires Valid() && i < |parts|
    {
      InputNames(g, parts[i])
    }

    /** What subgraph i is given on a batch. */
    ghost function Inputs(i: nat, contents: Values): Values
      requires Valid() && i < |parts|
    {
      Cache.Restrict(contents, Names(i))
    }

    ghost function OutcomeFrom(model: Model, i: nat, contents: Values): Outcome
      requires Valid() && i < |parts|
    {
      OutcomeOf(g, sem, model, parts[i], Inputs(i, contents))
    }

    ghost predicate Correct(model: Model, i: nat, b: nat, outcome: Outcome)
      requires Valid() && b < |batches| && i < |parts|
    {
      OutcomeCorrect(g, Want(model, b), parts[i], outcome)
    }
  }

  /** output.items(), if what the subgraph returned has any. */
  function AsDictionary(outcome: Outcome): (d: Option<Values>)
    ensures outcome.Returns? ==> d == Some(outcome.values)
  {
    match outcome
    case Returns(values) => Some(values)
    case ReturnsModelOutput(Dict(keys, items)) => if |keys| == |items| then Some(FromItems(keys, items)) else None
    case _ => None
  }

  function FromItems(keys: seq<string>, items: seq<Data>): Values
    requires |keys| == |items|
  {
    if keys == [] then map[] else FromItems(keys[..|keys| - 1], items[..|keys| - 1])[keys[|keys| - 1] := items[|keys| - 1]]
  }

  // ----- The two passes over a subgraph

  /** The first pass over a subgraph: what each batch's calibration hooks see. */
  method CalibrationPass(S: Setting, model: Model, i: nat, s: Subgraph, activations: Cache.IntermediatesCache)
    returns (ok: bool, seen: seq<Values>)
    requires S.Valid() && i < |S.parts| && Represents(S.g, S.parts[i], s)
    requires |activations.batchIntermediates| == |S.batches|
    ensures ok <==> forall b :: 0 <= b < |S.batches| ==> S.Names(i) <= activations.Contents(b).Keys
    ensures ok ==> |seen| == |S.batches|
    ensures ok ==> forall b :: 0 <= b < |seen| ==> seen[b] == S.Inputs(i, activations.Contents(b))
    ensures (forall b :: 0 <= b < |S.batches| ==> S.LiveBefore(model, i, b, activations.Contents(b))) ==>
              ok && forall b :: 0 <= b < |S.batches| ==> S.Agree(model, i, b, seen[b])
  {
    hide Traced, Setting.Names, Cache.OnloadAll, Setting.Valid, Setting.LiveBefore, Setting.Agree, Setting.Inputs,
      Setting.OutcomeFrom, ExecutableBody, Represents, OutcomeOf;
    ghost var contents := activations.Snapshot();
    CalibratesWell(S, model, i, contents);
    seen := [];
    for b := 0 to |S.batches|
      invariant Calibrated(S, i, contents, seen, b)
    {
      var inputs := activations.Fetch(b, s.inputNames);
      assert contents[b] == activations.Contents(b);
      PartExecutable(S, model, i, s, contents[b]);
      var outcome := Forward(S.g, S.sem, model, s.body, inputs);
      if outcome.MissingArgument? {
        ArgumentsFetched(S, model, i, b, contents[b]);
        assert !(S.Names(i) <= activations.Contents(b).Keys) && !S.LiveBefore(model, i, b, activations.Contents(b));
        return false, seen;
      }
      CalibratedNext(S, i, contents, seen, b);
      seen := seen + [inputs];
    }
    ok := true;
  }

  /** The first n batches have been seen, and had all their arguments. */
  ghost predicate Calibrated(S: Setting, i: nat, contents: seq<Values>, seen: seq<Values>, n: nat)
    requires S.Valid() && i < |S.parts| && n <= |contents|
  {
    && |seen| == n
    && (forall c :: 0 <= c < n ==> seen[c] == S.Inputs(i, contents[c]))
    && (forall c :: 0 <= c < n ==> S.Names(i) <= contents[c].Keys)
  }

  lemma {:induction false} CalibratedNext(S: Setting, i: nat, contents: seq<Values>, seen: seq<Values>, n: nat)
    requires S.Valid() && i < |S.parts| && n < |contents|
    requires Calibrated(S, i, contents, seen, n) && S.Names(i) <= contents[n].Keys
    ensures Calibrated(S, i, contents, seen + [S.Inputs(i, contents[n])], n + 1)
  {
    hide Setting.Valid, Setting.Names, Setting.Inputs;
  }

  /** On live batches the arguments are right. */
  lemma {:induction false} CalibratesWell(S: Setting, model: Model, i: nat, contents: seq<Values>)
    requires S.Valid() && i < |S.parts| && |contents| == |S.batches|
    ensures (forall b :: 0 <= b < |S.batches| ==> S.LiveBefore(model, i, b, contents[b])) ==>
              forall b :: 0 <= b < |S.batches| ==> S.Agree(model, i, b, S.Inputs(i, contents[b]))
  {
    hide Setting.Valid, Setting.LiveBefore, Setting.Agree, Setting.Names;
    forall b | 0 <= b < |S.batches| && S.LiveBefore(model, i, b, contents[b])
      ensures S.Agree(model, i, b, S.Inputs(i, contents[b]))
    {
      ArgumentsFetched(S, model, i, b, contents[b]);
    }
  }

  lemma {:induction false} PartExecutable(S: Setting, model: Model, i: nat, s: Subgraph, contents: Values)
    requires S.Valid() && i < |S.parts| && Represents(S.g, S.parts[i], s)
    ensures Traced(S.g) && s.body == S.parts[i] && ExecutableBody(S.g, s.body)
    ensures s.inputNames == S.Names(i)
    ensures Cache.Restrict(contents, s.inputNames) == S.Inputs(i, contents)
    ensures OutcomeOf(S.g, S.sem, model, s.body, S.Inputs(i, contents)) == S.OutcomeFrom(model, i, contents)
    ensures S.OutcomeFrom(model, i, contents).MissingArgument? <==> !(S.Names(i) <= contents.Keys)
  {
    ForwardFails(S, model, i, contents);
  }

  lemma {:induction false} ForwardFails(S: Setting, model: Model, i: nat, contents: Values)
    requires S.Valid() && i < |S.parts|
    ensures S.OutcomeFrom(model, i, contents).MissingArgument? <==> !(S.Names(i) <= contents.Keys)
    ensures S.OutcomeFrom(model, i, contents).ReturnsModelOutput? ==> HasOutput(S.g, S.parts[i])
  {
    hide Collect, EnvAfter;
    assert S.Inputs(i, contents).Keys == contents.Keys * S.Names(i);
  }

  lemma {:induction false} ArgumentsFetched(S: Setting, model: Model, i: nat, b: nat, contents: Values)
    requires S.Valid() && i < |S.parts| && b < |S.batches|
    ensures S.LiveBefore(model, i, b, contents) ==>
              S.Agree(model, i, b, S.Inputs(i, contents)) && S.Names(i) <= contents.Keys
  {
    hide Traced, NamesDistinct, BatchOk, IsPartition, IndexOk, Live, ArgumentsAgree, ExecutableBody;
    if S.LiveBefore(model, i, b, contents) {
      var inputs := S.Inputs(i, contents);
      assert inputs.Keys == contents.Keys * S.Names(i);
      FetchedAgree(S.g, S.parts, IndexOf(S.g, S.parts), S.batches[b], S.Want(model, b), i, contents, inputs);
    }
  }

  lemma {:induction false} OutcomeRight(S: Setting, model: Model, i: nat, b: nat, contents: Values)
    requires S.Valid() && i < |S.parts| && b < |S.batches| && S.LiveBefore(model, i, b, contents)
    ensures S.Correct(model, i, b, S.OutcomeFrom(model, i, contents))
  {
    ArgumentsFetched(S, model, i, b, contents);
    hide Traced, NamesDistinct, BatchOk, IsPartition, IndexOk, Live, ArgumentsAgree, ExecutableBody, OutcomeCorrect, OutcomeOf;
    ForwardCorrect(S.g, S.sem, model, S.parts[i], S.Inputs(i, contents), S.batches[b]);
  }

  /** What one batch of the second pass leaves in the cache, and returns. */
  datatype Propagated = Propagated(cache: Cache.Intermediates, outcome: Outcome)

  /** What becomes of a batch when the subgraph returns the outcome. */
  function Written(outcome: Outcome, isLast: bool, consumed: set<string>, offload: Option<Cache.Device>,
                   m: Cache.Intermediates): Option<Propagated>
  {
    if outcome.MissingArgument? then None
    else if isLast then Some(Propagated(m, outcome))
    else
      match AsDictionary(outcome)
      case None => None
      case Some(values) =>
        if consumed <= m.Keys + values.Keys then Some(Propagated(m + Cache.OffloadAll(values, offload, None) - consumed, outcome))
        else None
  }

  /**
    One batch of the second pass: run the compressed subgraph and, unless it is the last, update the batch and delete what is
    used up. Nothing if the source raises.
    */
  ghost function Propagate(S: Setting, model: Model, i: nat, consumed: set<string>, offload: Option<Cache.Device>,
                           m: Cache.Intermediates): Option<Propagated>
    requires S.Valid() && i < |S.parts|
  {
    Written(S.OutcomeFrom(model, i, Cache.OnloadAll(m)), i == |S.parts| - 1, consumed, offload, m)
  }

  /** On a live batch it succeeds, returns the right values and leaves the batch live for the next subgraph. */
  ghost predicate PropagatesWell(S: Setting, model: Model, i: nat, b: nat, consumed: set<string>,
                                 offload: Option<Cache.Device>, m: Cache.Intermediates)
    requires S.Valid() && i < |S.parts| && b < |S.batches|
  {
    var p := Propagate(S, model, i, consumed, offload, m);
    && (p.Some? && p.value.outcome.ReturnsModelOutput? ==> HasOutput(S.g, S.parts[i]))
    && (S.LiveBefore(model, i, b, Cache.OnloadAll(m)) && (i < |S.parts| - 1 ==> !HasOutput(S.g, S.parts[i])) ==>
          && p.Some? && S.Correct(model, i, b, p.value.outcome)
          && (i < |S.parts| - 1 ==> S.LiveBefore(model, i + 1, b, Cache.OnloadAll(p.value.cache))))
  }

  lemma {:induction false} PropagateLive(S: Setting, model: Model, i: nat, b: nat, consumed: set<string>,
                                         offload: Option<Cache.Device>, m: Cache.Intermediates)
    requires S.Valid() && i < |S.parts| && b < |S.batches| && ConsumedNames(S.g, S.parts, i, consumed)
    ensures PropagatesWell(S, model, i, b, consumed, offload, m)
  {
    hide Setting.Valid, Setting.LiveBefore, Setting.Correct, Setting.OutcomeFrom, ConsumedNames, Cache.OnloadAll,
      Cache.OffloadAll, HasOutput, Setting.Names, Propagate;
    var contents := Cache.OnloadAll(m);
    PropagateOutcome(S, model, i, consumed, offload, m);
    if S.LiveBefore(model, i, b, contents) {
      ArgumentsFetched(S, model, i, b, contents);
      OutcomeRight(S, model, i, b, contents);
      CachePropagated(S, model, i, b, contents, S.OutcomeFrom(model, i, contents), consumed);
      PropagateReturns(S, model, i, consumed, offload, m);
    }
  }

  lemma {:induction false} PropagateOutcome(S: Setting, model: Model, i: nat, consumed: set<string>,
                                            offload: Option<Cache.Device>, m: Cache.Intermediates)
    requires S.Valid() && i < |S.parts|
    ensures var outcome, p := S.OutcomeFrom(model, i, Cache.OnloadAll(m)), Propagate(S, model, i, consumed, offload, m);
            && (outcome.MissingArgument? <==> !(S.Names(i) <= Cache.OnloadAll(m).Keys))
            && (p.Some? ==> p.value.outcome == outcome && (outcome.ReturnsModelOutput? ==> HasOutput(S.g, S.parts[i])))
            && (i == |S.parts| - 1 && !outcome.MissingArgument? ==> p == Some(Propagated(m, outcome)))
  {
    hide Setting.Valid, Setting.OutcomeFrom, Cache.OnloadAll, Cache.OffloadAll, HasOutput, Setting.Names;
    ForwardFails(S, model, i, Cache.OnloadAll(m));
  }

  lemma {:induction false} PropagateReturns(S: Setting, model: Model, i: nat, consumed: set<string>,
                                            offload: Option<Cache.Device>, m: Cache.Intermediates)
    requires S.Valid() && i < |S.parts|
    ensures var outcome, contents := S.OutcomeFrom(model, i, Cache.OnloadAll(m)), Cache.OnloadAll(m);
            i < |S.parts| - 1 && outcome.Returns? && consumed <= (contents + outcome.values).Keys ==>
              var p := Propagate(S, model, i, consumed, offload, m);
              p.Some? && Cache.OnloadAll(p.value.cache) == contents + outcome.values - consumed
  {
    hide Setting.Valid, Setting.OutcomeFrom, Cache.OnloadAll, Cache.OffloadAll;
    var outcome := S.OutcomeFrom(model, i, Cache.OnloadAll(m));
    if outcome.Returns? {
      OnloadPropagated(m, outcome.values, offload, consumed);
    }
  }

  lemma {:induction false} PropagateAllLive(S: Setting, model: Model, i: nat, consumed: set<string>,
                                            offload: Option<Cache.Device>, start: seq<Cache.Intermediates>,
                                            want: seq<Option<Propagated>>)
    requires S.Valid() && i < |S.parts| && ConsumedNames(S.g, S.parts, i, consumed)
    requires |start| == |want| == |S.batches|
    requires forall b :: 0 <= b < |S.batches| ==> want[b] == Propagate(S, model, i, consumed, offload, start[b])
    ensures !HasOutput(S.g, S.parts[i]) ==>
              forall b :: 0 <= b < |S.batches| && want[b].Some? ==> !want[b].value.outcome.ReturnsModelOutput?
    ensures (forall b :: 0 <= b < |S.batches| ==> S.LiveBefore(model, i, b, Cache.OnloadAll(start[b])))
            && (i < |S.parts| - 1 ==> !HasOutput(S.g, S.parts[i])) ==>
              forall b :: 0 <= b < |S.batches| ==>
                && want[b].Some? && S.Correct(model, i, b, want[b].value.outcome)
                && (i < |S.parts| - 1 ==> S.LiveBefore(model, i + 1, b, Cache.OnloadAll(want[b].value.cache)))
  {
    hide Setting.Valid, Setting.LiveBefore, Setting.Correct, Propagate, ConsumedNames, HasOutput, Cache.OnloadAll;
    forall b | 0 <= b < |S.batches|
      ensures PropagatesWell(S, model, i, b, consumed, offload, start[b])
    {
      PropagateLive(S, model, i, b, consumed, offload, start[b]);
    }
  }

  lemma {:induction false} OnloadPropagated(m: Cache.Intermediates, values: Values, offload: Option<Cache.Device>,
                                            consumed: set<string>)
    ensures Cache.OnloadAll(m + Cache.OffloadAll(values, offload, None) - consumed) == Cache.OnloadAll(m) + values - consumed
    ensures (Cache.OnloadAll(m) + values).Keys == m.Keys + values.Keys
  {
    hide Cache.Onload, Cache.Offload;
    Cache.AllRoundTrip(values, offload, None);
    var onloaded := Cache.OnloadAll(Cache.OffloadAll(values, offload, None));
    assert forall k :: k in values ==> onloaded[k] == values[k];
  }

  method PropagateBatch(S: Setting, model: Model, i: nat, b: nat, s: Subgraph, activations: Cache.IntermediatesCache)
    returns (ok: bool, outcome: Outcome)
    requires S.Valid() && i < |S.parts| && b < |S.batches| && Represents(S.g, S.parts[i], s)
    requires |activations.batchIntermediates| == |S.batches|
    modifies activations
    ensures |activations.batchIntermediates| == |S.batches|
    ensures var p := Propagate(S, model, i, s.consumedNames, activations.offloadDevice, old(activations.batchIntermediates)[b]);
            && (ok <==> p.Some?)
            && (ok ==> outcome == p.value.outcome
                       && activations.batchIntermediates == old(activations.batchIntermediates)[b := p.value.cache])
  {
    hide Traced, Setting.Valid, Setting.Names, Cache.OnloadAll, Cache.OffloadAll, Setting.Inputs, Setting.OutcomeFrom,
      ExecutableBody, Represents, OutcomeOf;
    PartExecutable(S, model, i, s, activations.Contents(b));
    var inputs := activations.Fetch(b, s.inputNames);
    outcome := Forward(S.g, S.sem, model, s.body, inputs);
    if outcome.MissingArgument? {
      return false, outcome;
    }
    if i < |S.parts| - 1 {
      var values := AsDictionary(outcome);
      if values.None? {
        return false, outcome;
      }
      OnloadKeys(activations.batchIntermediates[b]);
      activations.Update(b, values.value);
      var deleted := activations.Delete(b, s.consumedNames);
      return deleted, outcome;
    }
    ok := true;
  }

  lemma {:induction false} OnloadKeys(m: Cache.Intermediates)
    ensures Cache.OnloadAll(m).Keys == m.Keys
  {
  }

  lemma {:induction false} CachePropagated(S: Setting, model: Model, i: nat, b: nat, contents: Values,
                                           outcome: Outcome, consumed: set<string>)
    requires S.Valid() && i < |S.parts| && b < |S.batches|
    requires ConsumedNames(S.g, S.parts, i, consumed)
    ensures S.LiveBefore(model, i, b, contents) && !HasOutput(S.g, S.parts[i]) && S.Correct(model, i, b, outcome) ==>
              && outcome.Returns?
              && consumed <= (contents + outcome.values).Keys
              && S.LiveBefore(model, i + 1, b, contents + outcome.values - consumed)
  {
    hide Traced, NamesDistinct, BatchOk, IsPartition, IndexOk, Live, NamesValues;
    if S.LiveBefore(model, i, b, contents) && !HasOutput(S.g, S.parts[i]) && S.Correct(model, i, b, outcome) {
      LiveNext(S.g, S.parts, IndexOf(S.g, S.parts), S.batches[b], S.Want(model, b), i, contents, outcome.values, consumed);
    }
  }

  /** The second pass over a subgraph. */
  method PropagationPass(S: Setting, model: Model, i: nat, s: Subgraph, activations: Cache.IntermediatesCache)
    returns (ok: bool, outputs: seq<Outcome>)
    requires S.Valid() && i < |S.parts| && Represents(S.g, S.parts[i], s)
    requires ConsumedNames(S.g, S.parts, i, s.consumedNames)
    requires |activations.batchIntermediates| == |S.batches|
    modifies activations
    ensures |activations.batchIntermediates| == |S.batches|
    ensures ok <==>
            forall b :: 0 <= b < |S.batches| ==>
              Propagate(S, model, i, s.consumedNames, activations.offloadDevice, old(activations.batchIntermediates)[b]).Some?
    ensures ok ==>
              |outputs| == |S.batches| && forall b :: 0 <= b < |S.batches| ==>
                Some(Propagated(activations.batchIntermediates[b], outputs[b]))
                == Propagate(S, model, i, s.consumedNames, activations.offloadDevice, old(activations.batchIntermediates)[b])
    ensures ok && !HasOutput(S.g, S.parts[i]) ==> forall b :: 0 <= b < |outputs| ==> !outputs[b].ReturnsModelOutput?
    ensures (forall b :: 0 <= b < |S.batches| ==> S.LiveBefore(model, i, b, old(activations.Contents(b))))
            && (i < |S.parts| - 1 ==> !HasOutput(S.g, S.parts[i])) ==>
              && ok && (forall b :: 0 <= b < |S.batches| ==> S.Correct(model, i, b, outputs[b]))
              && (i < |S.parts| - 1 ==>
                    forall b :: 0 <= b < |S.batches| ==> S.LiveBefore(model, i + 1, b, activations.Contents(b)))
  {
    hide Setting.Valid, Setting.LiveBefore, Setting.Correct, Propagate, ConsumedNames, Represents, HasOutput, Cache.OnloadAll;
    ghost var start := activations.batchIntermediates;
    assert forall b :: 0 <= b < |S.batches| ==> activations.Contents(b) == Cache.OnloadAll(start[b]);
    ghost var consumed, offload := s.consumedNames, activations.offloadDevice;
    ghost var want := seq(|S.batches|, b requires 0 <= b < |S.batches| => Propagate(S, model, i, consumed, offload, start[b]));
    PropagateAllLive(S, model, i, consumed, offload, start, want);
    outputs := [];
    for b := 0 to |S.batches|
      invariant |activations.batchIntermediates| == |S.batches| && |outputs| == b
      invariant forall c :: b <= c < |S.batches| ==> activations.batchIntermediates[c] == start[c]
      invariant forall c :: 0 <= c < b ==> want[c] == Some(Propagated(activations.batchIntermediates[c], outputs[c]))
    {
      var done, outcome := PropagateBatch(S, model, i, b, s, activations);
      if !done {
        return false, outputs;
      }
      outputs := outputs + [outcome];
    }
    ok := true;
  }

  // ----- The whole run

  /** The output node is in one partition only. */
  lemma {:induction false} OutputOnlyInLast(g: Graph, parts: Partitions, i: nat)
    requires OneOutput(g) && Once(parts) && InRange(g, parts) && i < |parts| - 1 && OutputInLast(g, parts)
    ensures !HasOutput(g, parts[i])
  {
    var last := |parts| - 1;
    var m :| m in parts[last] && g[m].op.Output?;
    var j :| 0 <= j < |parts[last]| && parts[last][j] == m;
    forall n | n in parts[i]
      ensures n != m
    {
      var k :| 0 <= k < |parts[i]| && parts[i][k] == n;
      assert At(parts, i, k) && At(parts, last, j);
    }
  }

  lemma {:induction false} ConsumedAsNames(g: Graph, parts: Partitions, names: seq<set<string>>, i: nat,
                                           consumed: set<string>)
    requires InRange(g, parts) && |names| == |parts|
    requires forall p :: 0 <= p < |parts| ==>
               names[p] == InputNames(g, parts[p])
    requires i < |parts| && ConsumedAt(names, i, consumed)
    ensures ConsumedNames(g, parts, i, consumed)
  {
    forall k
      ensures k in consumed <==>
              k in InputNames(g, parts[i]) && forall j :: i < j < |parts| ==> k !in InputNames(g, parts[j])
    {
      assert k in consumed <==> LastUse(names, i, k);
    }
  }

  /** Moving a batch between devices keeps its keys. */
  lemma {:induction false} MovedBatchOk(g: Graph, batch: Values, device: Cache.Device)
    requires BatchOk(g, batch)
    ensures BatchOk(g, Cache.AllMovedTo(batch, Some(device)))
  {
    var moved := Cache.AllMovedTo(batch, Some(device));
    assert forall k :: k in moved <==> k in batch;
    forall k, n | ExtraKey(g, moved, k) && 0 <= n < |g|
      ensures g[n].name != k
    {
      assert ExtraKey(g, batch, k);
    }
  }

  function Moved(batches: seq<Values>, device: Cache.Device): (moved: seq<Values>)
  {
    seq(|batches|, b requires 0 <= b < |batches| => Cache.AllMovedTo(batches[b], Some(device)))
  }

  lemma {:induction false} SettingValid(g: Graph, sem: Semantics, targets: set<nat>, parts: Partitions,
                                        batches: seq<Values>,
                                        device: Cache.Device)
    requires Traced(g) && IsPartition(g, targets, parts) && forall b :: 0 <= b < |batches| ==> BatchOk(g, batches[b])
    ensures Setting(g, sem, parts, Moved(batches, device)).Valid()
  {
    hide ExecutableBody, IndexOk;
    PartsInRange(g, parts);
    IndexFits(g, targets, parts);
    forall p | 0 <= p < |parts|
      ensures ExecutableBody(g, parts[p])
    {
      PartIsExecutable(g, targets, parts, p);
    }
    forall b | 0 <= b < |batches|
      ensures BatchOk(g, Moved(batches, device)[b])
    {
      MovedBatchOk(g, batches[b], device);
    }
  }

  lemma {:induction false} StillLive(S: Setting, before: Model, after: Model, i: nat, b: nat, contents: Values)
    requires S.Valid() && b < |S.batches| && ChangesOnly(S.g, S.parts, i, before, after)
    requires S.LiveBefore(before, i, b, contents)
    ensures S.LiveBefore(after, i, b, contents)
  {
    hide Traced, NamesDistinct, BatchOk, IsPartition, IndexOk, Live, ExecutableBody, ChangesOnly;
    LiveAfterCompression(S.g, S.sem, before, after, S.parts, IndexOf(S.g, S.parts), S.batches[b], i, contents);
  }

  /** Calibrate, compress and propagate one subgraph. */
  method Epoch(S: Setting, model: Model, i: nat, s: Subgraph, activations: Cache.IntermediatesCache,
               compress: Compressor)
    returns (ok: bool, seen: seq<Values>, next: Model, outputs: seq<Outcome>)
    requires S.Valid() && i < |S.parts| && Represents(S.g, S.parts[i], s)
    requires ConsumedNames(S.g, S.parts, i, s.consumedNames)
    requires |activations.batchIntermediates| == |S.batches|
    modifies activations
    ensures |activations.batchIntermediates| == |S.batches|
    ensures ok ==> |outputs| == |seen| == |S.batches| && next == compress(i, model, seen)
    ensures ok && !HasOutput(S.g, S.parts[i]) ==> forall b :: 0 <= b < |outputs| ==> !outputs[b].ReturnsModelOutput?
    ensures CompressesLocally(S.g, S.parts, compress) && (i < |S.parts| - 1 ==> !HasOutput(S.g, S.parts[i]))
            && (forall b :: 0 <= b < |S.batches| ==> S.LiveBefore(model, i, b, old(activations.Contents(b)))) ==>
              && ok
              && (forall b :: 0 <= b < |S.batches| ==> S.Agree(model, i, b, seen[b]) && S.Correct(next, i, b, outputs[b]))
              && (i < |S.parts| - 1 ==>
                    forall b :: 0 <= b < |S.batches| ==> S.LiveBefore(next, i + 1, b, activations.Contents(b)))
  {
    hide Traced, NamesDistinct, BatchOk, IsPartition, IndexOk, Live, ArgumentsAgree, ExecutableBody, OutcomeCorrect,
      Cache.OnloadAll, Represents, ConsumedNames, ChangesOnly;
    next, outputs := model, [];
    ok, seen := CalibrationPass(S, model, i, s, activations);
    if !ok {
      return;
    }
    next := compress(i, model, seen);
    if CompressesLocally(S.g, S.parts, compress) {
      assert ChangesOnly(S.g, S.parts, i, model, next);
      forall b | 0 <= b < |S.batches| && S.LiveBefore(model, i, b, activations.Contents(b))
        ensures S.LiveBefore(next, i, b, activations.Contents(b))
      {
        StillLive(S, model, next, i, b, activations.Contents(b));
      }
    }
    ok, outputs := PropagationPass(S, next, i, s, activations);
  }

  /** What is true of a run after the subgraphs before the i-th. */
  ghost predicate Progress(S: Setting, compress: Compressor, models: seq<Model>, seen: seq<seq<Values>>, i: nat)
    requires S.Valid() && i <= |S.parts|
  {
    && |models| == i + 1 && |seen| == i
    && (forall j :: 0 <= j < i ==> |seen[j]| == |S.batches| && CompressedNext(compress, models, seen, j))
  }

  ghost predicate CompressedNext(compress: Compressor, models: seq<Model>, seen: seq<seq<Values>>, j: nat)
    requires j < |seen| && j + 1 < |models|
  {
    models[j + 1] == compress(j, models[j], seen[j])
  }

  /** Every batch was calibrated with the arguments that the model, with the earlier subgraphs compressed, produces. */
  ghost predicate SawRightArguments(S: Setting, models: seq<Model>, seen: seq<seq<Values>>)
    requires S.Valid() && |seen| <= |S.parts| && |seen| <= |models|
  {
    forall j, b :: 0 <= j < |seen| && 0 <= b < |seen[j]| && b < |S.batches| ==> S.Agree(models[j], j, b, seen[j][b])
  }

  /** held[i][b] is what the cache held for batch b when subgraph i started. */
  ghost predicate HeldExactly(S: Setting, models: seq<Model>, held: seq<seq<Values>>)
    requires S.Valid() && |held| <= |models|
  {
    forall i :: 0 <= i < |held| ==> HoldsLive(S, models[i], i, held[i])
  }

  ghost predicate HoldsLive(S: Setting, model: Model, i: nat, contents: seq<Values>)
    requires S.Valid()
  {
    |contents| == |S.batches| && forall b :: 0 <= b < |S.batches| ==> S.LiveBefore(model, i, b, contents[b])
  }

  ghost predicate AllCorrect(S: Setting, model: Model, i: nat, outputs: seq<Outcome>)
    requires S.Valid() && i < |S.parts|
  {
    |outputs| == |S.batches| && forall b :: 0 <= b < |S.batches| ==> S.Correct(model, i, b, outputs[b])
  }

  method RunSubgraphs(S: Setting, subgraphs: seq<Subgraph>, activations: Cache.IntermediatesCache, model: Model,
                      compress: Compressor)
    returns (result: Result, ghost held: seq<seq<Values>>)
    requires S.Valid() && |subgraphs| == |S.parts| > 0 && |activations.batchIntermediates| == |S.batches|
    requires forall i :: 0 <= i < |S.parts| ==>
               Represents(S.g, S.parts[i], subgraphs[i]) && ConsumedNames(S.g, S.parts, i, subgraphs[i].consumedNames)
    requires forall b :: 0 <= b < |S.batches| ==> S.LiveBefore(model, 0, b, activations.Contents(b))
    requires OutputInLast(S.g, S.parts) ==> forall i :: 0 <= i < |S.parts| - 1 ==> !HasOutput(S.g, S.parts[i])
    modifies activations
    ensures result.Completed? ==>
              && |result.outputs| == |S.batches| && Progress(S, compress, result.models, result.seen, |S.parts|)
              && result.models[0] == model
    ensures CompressesLocally(S.g, S.parts, compress) && OutputInLast(S.g, S.parts) ==>
              && result.Completed? && |held| == |S.parts|
              && SawRightArguments(S, result.models, result.seen) && HeldExactly(S, result.models, held)
              && AllCorrect(S, result.models[|S.parts|], |S.parts| - 1, result.outputs)
    ensures result.Completed? && !OutputInLast(S.g, S.parts) ==>
              forall b :: 0 <= b < |S.batches| ==> !result.outputs[b].ReturnsModelOutput?
  {
    hide Traced, NamesDistinct, BatchOk, IsPartition, IndexOk, Live, ArgumentsAgree, ExecutableBody, OutcomeCorrect,
      Cache.OnloadAll, Represents, ConsumedNames, ChangesOnly, CompressesLocally;
    ghost var good := CompressesLocally(S.g, S.parts, compress) && OutputInLast(S.g, S.parts);
    var models, seen: seq<seq<Values>>, outputs: seq<Outcome> := [model], [], [];
    held := [];
    for i := 0 to |subgraphs|
      invariant |activations.batchIntermediates| == |S.batches|
      invariant Progress(S, compress, models, seen, i) && models[0] == model
      invariant i > 0 ==> |outputs| == |S.batches|
      invariant i == |S.parts| && !OutputInLast(S.g, S.parts) ==>
                  forall b :: 0 <= b < |S.batches| ==> !outputs[b].ReturnsModelOutput?
      invariant |held| == i && (good ==> SawRightArguments(S, models, seen) && HeldExactly(S, models, held))
      invariant good && i < |S.parts| ==>
                  forall b :: 0 <= b < |S.batches| ==> S.LiveBefore(models[i], i, b, activations.Contents(b))
      invariant good && i == |S.parts| ==> AllCorrect(S, models[i], i - 1, outputs)
    {
      ghost var contents := activations.Snapshot();
      assert good ==> HoldsLive(S, models[i], i, contents);
      var ok, saw, next, outcomes := Epoch(S, models[i], i, subgraphs[i], activations, compress);
      if !ok {
        return Failed, held;
      }
      models, seen, outputs, held := models + [next], seen + [saw], outcomes, held + [contents];
    }
    result := Completed(outputs, models, seen);
  }

  lemma {:induction false} StartsLive(S: Setting, model: Model, b: nat)
    requires S.Valid() && b < |S.batches|
    ensures S.LiveBefore(model, 0, b, S.batches[b])
  {
    hide NamesDistinct, IndexOk, Live, ExecutableBody, BatchOk;
    var idx := IndexOf(S.g, S.parts);
    forall n | 0 <= n < |S.g| && S.g[n].op.Placeholder?
      ensures idx[n] >= 0
    {
      PlaceholderPlaced(S.g, S.parts, n);
    }
    LiveAtStart(S.g, S.sem, model, S.parts, idx, S.batches[b]);
  }

  lemma {:induction false} PlaceholderPlaced(g: Graph, parts: Partitions, n: nat)
    requires n < |g| && g[n].op.Placeholder? && exists targets :: IsPartition(g, targets, parts)
    ensures PartIndex(parts, n) >= 0
  {
    assert !UnusedAttr(g, n);
    assert Holds(parts, n);
  }

  /** The output the pipeline ends with for batch b: that of the whole model, evaluated at once. */
  ghost predicate IsModelOutput(S: Setting, model: Model, b: nat, outcome: Outcome)
    requires S.Valid() && b < |S.batches|
  {
    outcome.ReturnsModelOutput? && forall n :: 0 <= n < |S.g| && S.g[n].op.Output? ==> outcome.value == S.Want(model, b)[n]
  }

  lemma {:induction false} LastIsModelOutput(S: Setting, model: Model, b: nat, outcome: Outcome)
    requires S.Valid() && b < |S.batches| && |S.parts| > 0 && OutputInLast(S.g, S.parts)
    requires S.Correct(model, |S.parts| - 1, b, outcome)
    ensures IsModelOutput(S, model, b, outcome)
  {
    hide NamesDistinct, IndexOk, BatchOk, IsPartition, ExecutableBody;
    var m :| m in S.parts[|S.parts| - 1] && S.g[m].op.Output?;
    assert OneOutput(S.g);
  }

  lemma {:induction false} OutputInOnePart(S: Setting, i: nat)
    requires S.Valid() && 0 <= i < |S.parts| - 1 && OutputInLast(S.g, S.parts)
    ensures !HasOutput(S.g, S.parts[i])
  {
    hide NamesDistinct, IndexOk, BatchOk, ExecutableBody;
    OutputOnlyInLast(S.g, S.parts, i);
  }

  lemma {:induction false} NamesRepresented(g: Graph, parts: Partitions, subgraphs: seq<Subgraph>,
                                            names: seq<set<string>>)
    requires InRange(g, parts) && |subgraphs| == |parts| == |names|
    requires forall p :: 0 <= p < |parts| ==>
               Represents(g, parts[p], subgraphs[p]) && names[p] == subgraphs[p].inputNames
    ensures forall p :: 0 <= p < |parts| ==> names[p] == InputNames(g, parts[p])
  {
  }

  /**
    Runs the whole pipeline on a data loader. When every compression changes only modules of its own subgraph and the output
    node is in the last partition, every batch ends with the output of the final model on it, although no subgraph was run
    with modules compressed after it; when the output node is in an earlier partition, no batch does.
    */
  method Run(g: Graph, sem: Semantics, targets: set<string>, dataloader: seq<Values>, onload: Cache.Device,
             offload: Option<Cache.Device>, model: Model, compress: Compressor)
    returns (result: Result, S: Setting, ghost held: seq<seq<Values>>)
    requires Traced(g) && forall b :: 0 <= b < |dataloader| ==> BatchOk(g, dataloader[b])
    ensures S.Valid() && S.g == g && S.sem == sem && S.batches == Moved(dataloader, onload)
    ensures IsPartitioned(g, targets, S.parts) && |S.parts| > 0
    ensures dataloader == [] ==> result.Failed?
    ensures result.Completed? ==>
              && |result.outputs| == |dataloader| && Progress(S, compress, result.models, result.seen, |S.parts|)
              && result.models[0] == model
    ensures dataloader != [] && CompressesLocally(g, S.parts, compress) && TargetsBeforeOutput(g, FindTargetNodes(g, targets)) ==>
              && result.Completed? && |held| == |S.parts|
              && SawRightArguments(S, result.models, result.seen) && HeldExactly(S, result.models, held)
              && forall b :: 0 <= b < |dataloader| ==>
                   IsModelOutput(S, result.models[|S.parts|], b, result.outputs[b])
    ensures result.Completed? && !TargetsBeforeOutput(g, FindTargetNodes(g, targets)) ==>
              forall b :: 0 <= b < |dataloader| ==> !IsModelOutput(S, result.models[|S.parts|], b, result.outputs[b])
  {
    hide Traced, NamesDistinct, BatchOk, IndexOk, Live, ArgumentsAgree, ExecutableBody, OutcomeCorrect,
      Cache.OnloadAll, Represents, ConsumedNames, ChangesOnly, CompressesLocally, InRange, ExecutionOrder, NodeOrder,
      OutputInLast, TargetsBeforeOutput;
    var parts := TopologicalPartition.TopologicalPartition(g, targets);
    SettingValid(g, sem, FindTargetNodes(g, targets), parts, dataloader, onload);
    OutputLastIff(g, targets, parts);
    S := Setting(g, sem, parts, Moved(dataloader, onload));
    held := [];
    if dataloader == [] {
      return Failed, S, held;
    }
    var subgraphs := PartitionGraph(g, FindTargetNodes(g, targets), parts);
    ghost var names := seq(|parts|, p requires 0 <= p < |parts| => subgraphs[p].inputNames);
    NamesRepresented(g, parts, subgraphs, names);
    TraceConsumedNames(subgraphs, names);
    forall i | 0 <= i < |parts|
      ensures ConsumedNames(g, parts, i, subgraphs[i].consumedNames)
    {
      ConsumedAsNames(g, parts, names, i, subgraphs[i].consumedNames);
    }
    var activations := new Cache.IntermediatesCache.FromDataloader(dataloader, Some(onload), offload);
    forall b | 0 <= b < |S.batches|
      ensures S.LiveBefore(model, 0, b, activations.Contents(b))
    {
      StartsLive(S, model, b);
    }
    if OutputInLast(g, parts) {
      forall i | 0 <= i < |parts| - 1
        ensures !HasOutput(g, parts[i])
      {
        OutputInOnePart(S, i);
      }
    }
    result, held := RunSubgraphs(S, subgraphs, activations, model, compress);
    if CompressesLocally(g, S.parts, compress) && OutputInLast(g, S.parts) {
      forall b | 0 <= b < |dataloader|
        ensures IsModelOutput(S, result.models[|S.parts|], b, result.outputs[b])
      {
        LastIsModelOutput(S, result.models[|S.parts|], b, result.outputs[b]);
      }
    }
  }
}
