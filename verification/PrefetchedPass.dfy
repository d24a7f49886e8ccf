/**
  The two passes over a subgraph with prefetching: for every interleaving of the threads they are what they are without it.
  */
module PrefetchedPass {
  import opened Collections
  import opened FxGraph
  import opened GraphExecution
  import opened SequentialPipeline
  import Cache = IntermediatesCache
  import Prefetch

  /** The order in which keys and names are iterated over. */
  ghost predicate Lists(order: set<string> -> seq<string>) {
    forall keys: set<string> :: Distinct(order(keys)) && forall n :: n in order(keys) <==> n in keys
  }

  /** What the main thread writes after it was given the inputs of a batch, in the calibration pass. */
  ghost function CalibrationWrites(S: Setting, model: Model, i: nat, inputs: Values): seq<Prefetch.Write>
    requires S.Valid() && i < |S.parts|
  {
    if OutcomeOf(S.g, S.sem, model, S.parts[i], inputs).MissingArgument? then [Prefetch.Raise] else []
  }

  /** The writes that a subgraph's outcome leads to in the second pass. */
  ghost function Writes(outcome: Outcome, isLast: bool, consumed: set<string>, offload: Option<Cache.Device>,
                        order: set<string> -> seq<string>): seq<Prefetch.Write>
    requires Lists(order)
  {
    if outcome.MissingArgument? then [Prefetch.Raise]
    else if isLast then []
    else
      match AsDictionary(outcome)
      case None => [Prefetch.Raise]
      case Some(values) =>
        Prefetch.Puts(Cache.OffloadAll(values, offload, None), order(values.Keys)) + Prefetch.Removes(order(consumed))
  }

  /** The same in the second pass. */
  ghost function PropagationWrites(S: Setting, model: Model, i: nat, consumed: set<string>, offload: Option<Cache.Device>,
                                   order: set<string> -> seq<string>, inputs: Values): seq<Prefetch.Write>
    requires S.Valid() && i < |S.parts| && Lists(order)
  {
    Writes(OutcomeOf(S.g, S.sem, model, S.parts[i], inputs), i == |S.parts| - 1, consumed, offload, order)
  }

  ghost function CalibrationSetting(S: Setting, model: Model, i: nat, start: seq<Cache.Intermediates>): Prefetch.Setting
    requires S.Valid() && i < |S.parts|
  {
    Prefetch.Setting(start, S.Names(i), (b, inputs) => CalibrationWrites(S, model, i, inputs))
  }

  ghost function PropagationSetting(S: Setting, model: Model, i: nat, consumed: set<string>, offload: Option<Cache.Device>,
                                    order: set<string> -> seq<string>, start: seq<Cache.Intermediates>): Prefetch.Setting
    requires S.Valid() && i < |S.parts| && Lists(order)
  {
    Prefetch.Setting(start, S.Names(i), (b, inputs) => PropagationWrites(S, model, i, consumed, offload, order, inputs))
  }

  lemma {:induction false} FetchedInputs(S: Setting, i: nat, m: Cache.Intermediates)
    requires S.Valid() && i < |S.parts|
    ensures Prefetch.FetchFrom(m, S.Names(i)) == S.Inputs(i, Cache.OnloadAll(m))
  {
    hide Setting.Valid, Setting.Names, Cache.Onload;
  }

  /** Writing key by key, in any order, is what the second pass does to a batch. */
  lemma {:induction false} WritesAll(outcome: Outcome, isLast: bool, consumed: set<string>, offload: Option<Cache.Device>,
                                     order: set<string> -> seq<string>, m: Cache.Intermediates)
    requires Lists(order)
    ensures var written := Prefetch.WriteAll(m, Writes(outcome, isLast, consumed, offload, order));
            var p := Written(outcome, isLast, consumed, offload, m);
            && (written.ok <==> p.Some?)
            && (written.ok ==> written.intermediates == p.value.cache)
  {
    hide Lists, Cache.OffloadAll, Prefetch.Puts, Prefetch.Removes;
    var values := AsDictionary(outcome);
    if values.Some? {
      OffloadedKeys(values.value, offload);
      ListsAll(order, values.value.Keys);
      ListsAll(order, consumed);
      Prefetch.UpdateThenDelete(m, Cache.OffloadAll(values.value, offload, None), order(values.value.Keys), order(consumed));
    }
  }

  lemma {:induction false} WritesPropagate(S: Setting, model: Model, i: nat, consumed: set<string>,
                                           offload: Option<Cache.Device>, order: set<string> -> seq<string>,
                                           m: Cache.Intermediates)
    requires S.Valid() && i < |S.parts| && Lists(order)
    ensures var inputs := Prefetch.FetchFrom(m, S.Names(i));
            var written := Prefetch.WriteAll(m, PropagationWrites(S, model, i, consumed, offload, order, inputs));
            var p := Propagate(S, model, i, consumed, offload, m);
            && (written.ok <==> p.Some?)
            && (written.ok ==> written.intermediates == p.value.cache)
  {
    hide Setting.Valid, Setting.Names, Prefetch.FetchFrom, OutcomeOf, Cache.OnloadAll, Setting.Inputs, Writes, Written,
      Prefetch.WriteAll, Lists;
    FetchedInputs(S, i, m);
    WritesAll(S.OutcomeFrom(model, i, Cache.OnloadAll(m)), i == |S.parts| - 1, consumed, offload, order, m);
  }

  lemma {:induction false} OffloadedKeys(values: Values, offload: Option<Cache.Device>)
    ensures Cache.OffloadAll(values, offload, None).Keys == values.Keys
  {
  }

  lemma {:induction false} ListsAll(order: set<string> -> seq<string>, keys: set<string>)
    requires Lists(order)
    ensures (set k | k in order(keys)) == keys && forall k :: k in order(keys) <==> k in keys
    ensures forall i, j :: 0 <= i < j < |order(keys)| ==> order(keys)[i] != order(keys)[j]
  {
  }

  ghost predicate InputsGiven(S: Setting, i: nat, start: seq<Cache.Intermediates>, given: seq<Prefetch.Yielded>)
    requires S.Valid() && i < |S.parts| && |given| <= |start|
  {
    forall b :: 0 <= b < |given| ==> given[b] == Prefetch.Yielded(b, S.Inputs(i, Cache.OnloadAll(start[b])))
  }

  lemma {:induction false} CalibrationWritten(S: Setting, model: Model, i: nat, m: Cache.Intermediates)
    requires S.Valid() && i < |S.parts|
    ensures var inputs := Prefetch.FetchFrom(m, S.Names(i));
            Prefetch.WriteAll(m, CalibrationWrites(S, model, i, inputs))
            == Prefetch.Written(m, S.Names(i) <= Cache.OnloadAll(m).Keys)
  {
    hide Setting.Valid, Setting.Names, Prefetch.FetchFrom, OutcomeOf, Cache.OnloadAll, Setting.Inputs;
    FetchedInputs(S, i, m);
    ForwardFails(S, model, i, Cache.OnloadAll(m));
  }

  lemma {:induction false} NothingGiven(S: Setting, i: nat, start: seq<Cache.Intermediates>)
    requires S.Valid() && i < |S.parts|
    ensures InputsGiven(S, i, start, [])
  {
  }

  lemma {:induction false} InputsGivenNext(S: Setting, i: nat, start: seq<Cache.Intermediates>, given: seq<Prefetch.Yielded>)
    requires S.Valid() && i < |S.parts| && |given| < |start| && InputsGiven(S, i, start, given)
    ensures InputsGiven(S, i, start, given + [Prefetch.Yielded(|given|, Prefetch.FetchFrom(start[|given|], S.Names(i)))])
  {
    FetchedInputs(S, i, start[|given|]);
    hide Setting.Valid, Setting.Names, Prefetch.FetchFrom, Cache.OnloadAll, Setting.Inputs;
  }

  lemma {:induction false} SequentialCalibration(S: Setting, model: Model, i: nat, start: seq<Cache.Intermediates>, n: nat)
    requires S.Valid() && i < |S.parts| && n <= |start|
    ensures var loop := Prefetch.Sequentially(CalibrationSetting(S, model, i, start), n);
            && (loop.ok <==> forall b :: 0 <= b < n ==> S.Names(i) <= Cache.OnloadAll(start[b]).Keys)
            && (loop.ok ==> loop.cache == start && |loop.given| == n && InputsGiven(S, i, start, loop.given))
    decreases n
  {
    hide Setting.Valid, Setting.Names, Prefetch.FetchFrom, Cache.OnloadAll, InputsGiven, CalibrationWrites, Prefetch.WriteAll;
    var P := CalibrationSetting(S, model, i, start);
    if n == 0 {
      NothingGiven(S, i, start);
    } else {
      SequentialCalibration(S, model, i, start, n - 1);
      CalibrationWritten(S, model, i, start[n - 1]);
      var inputs := Prefetch.FetchFrom(start[n - 1], P.names);
      Prefetch.SequentiallyNext(P, n, Prefetch.WriteAll(start[n - 1], P.consumer(n - 1, inputs)));
      hide Prefetch.Sequentially;
      var before := Prefetch.Sequentially(P, n - 1);
      if before.ok {
        InputsGivenNext(S, i, start, before.given);
      }
    }
  }

  lemma {:induction false} SequentialPropagation(S: Setting, model: Model, i: nat, consumed: set<string>,
                                                 offload: Option<Cache.Device>, order: set<string> -> seq<string>,
                                                 start: seq<Cache.Intermediates>, n: nat)
    requires S.Valid() && i < |S.parts| && Lists(order) && n <= |start|
    ensures var loop := Prefetch.Sequentially(PropagationSetting(S, model, i, consumed, offload, order, start), n);
            && (loop.ok <==> forall b :: 0 <= b < n ==> Propagate(S, model, i, consumed, offload, start[b]).Some?)
            && (loop.ok ==>
                  && |loop.given| == n && InputsGiven(S, i, start, loop.given)
                  && forall b :: 0 <= b < n ==> loop.cache[b] == Propagate(S, model, i, consumed, offload, start[b]).value.cache)
    decreases n
  {
    hide Setting.Valid, Setting.Names, Prefetch.FetchFrom, Cache.OnloadAll, InputsGiven, PropagationWrites, Propagate,
      Prefetch.WriteAll, Lists;
    var P := PropagationSetting(S, model, i, consumed, offload, order, start);
    if n == 0 {
      NothingGiven(S, i, start);
    } else {
      SequentialPropagation(S, model, i, consumed, offload, order, start, n - 1);
      WritesPropagate(S, model, i, consumed, offload, order, start[n - 1]);
      var inputs := Prefetch.FetchFrom(start[n - 1], P.names);
      Prefetch.SequentiallyNext(P, n, Prefetch.WriteAll(start[n - 1], P.consumer(n - 1, inputs)));
      hide Prefetch.Sequentially;
      var before := Prefetch.Sequentially(P, n - 1);
      if before.ok {
        InputsGivenNext(S, i, start, before.given);
      }
    }
  }

  /** A calibration pass that prefetches gives every batch the inputs it has without, and raises exactly when it does without. */
  lemma {:induction false} PrefetchedCalibration(S: Setting, model: Model, i: nat, start: seq<Cache.Intermediates>,
                                                 run: seq<Prefetch.State>)
    requires S.Valid() && i < |S.parts| && Prefetch.IsRun(CalibrationSetting(S, model, i, start), run)
    requires run[|run| - 1].main.Finished? || run[|run| - 1].main.Failed?
    ensures var last := run[|run| - 1];
            && (last.main.Finished? <==> forall b :: 0 <= b < |start| ==> S.Names(i) <= Cache.OnloadAll(start[b]).Keys)
            && (last.main.Finished? ==>
                  last.cache == start && |last.given| == |start| && InputsGiven(S, i, start, last.given))
  {
    hide Setting.Valid, Setting.Names, Cache.OnloadAll, Setting.Inputs, Prefetch.IsRun, InputsGiven;
    Prefetch.PrefetchingIsSequential(CalibrationSetting(S, model, i, start), run);
    SequentialCalibration(S, model, i, start, |start|);
  }

  /**
    A second pass that prefetches gives every batch the inputs it has without, leaves the cache that the pass without leaves,
    and raises exactly when that does.
    */
  lemma {:induction false} PrefetchedPropagation(S: Setting, model: Model, i: nat, consumed: set<string>,
                                                 offload: Option<Cache.Device>, order: set<string> -> seq<string>,
                                                 start: seq<Cache.Intermediates>, run: seq<Prefetch.State>)
    requires S.Valid() && i < |S.parts| && Lists(order)
    requires Prefetch.IsRun(PropagationSetting(S, model, i, consumed, offload, order, start), run)
    requires run[|run| - 1].main.Finished? || run[|run| - 1].main.Failed?
    ensures var last := run[|run| - 1];
            && (last.main.Finished? <==>
                  forall b :: 0 <= b < |start| ==> Propagate(S, model, i, consumed, offload, start[b]).Some?)
            && (last.main.Finished? ==>
                  && |last.given| == |last.cache| == |start| && InputsGiven(S, i, start, last.given)
                  && forall b :: 0 <= b < |start| ==>
                       last.cache[b] == Propagate(S, model, i, consumed, offload, start[b]).value.cache)
  {
    hide Setting.Valid, Setting.Names, Cache.OnloadAll, Setting.Inputs, Prefetch.IsRun, InputsGiven, Propagate, Lists;
    Prefetch.PrefetchingIsSequential(PropagationSetting(S, model, i, consumed, offload, order, start), run);
    SequentialPropagation(S, model, i, consumed, offload, order, start, |start|);
  }
}
