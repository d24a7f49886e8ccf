/**
  Prefetching the next batch in a background thread while the main thread runs the current one and writes to the cache. The
  steps of the two threads interleave freely; the background thread reads one key at a time.
  */
module Prefetch {
  import opened Cache = IntermediatesCache

  /** Raise: the main thread ends with an exception, as when the forward function misses an argument. */
  datatype Write = Put(key: string, value: Intermediate<Tensor>) | Remove(key: string) | Raise

  /** Consumer: what the main thread writes to a batch after it was given the batch's inputs. */
  type Consumer = (nat, Values) -> seq<Write>

  datatype Yielded = Yielded(batch: nat, inputs: Values)

  datatype Setting = Setting(start: seq<Intermediates>, names: set<string>, consumer: Consumer)

  // ----- The loop without prefetching

  datatype Written = Written(intermediates: Intermediates, ok: bool)

  /** Writes one after the other; removing a missing key fails, and nothing after it is written. */
  function WriteAll(m: Intermediates, writes: seq<Write>): Written
    decreases |writes|
  {
    if writes == [] then Written(m, true)
    else match writes[0]
      case Put(key, value) => WriteAll(m[key := value], writes[1..])
      case Remove(key) => if key in m then WriteAll(m - {key}, writes[1..]) else Written(m, false)
      case Raise => Written(m, false)
  }

  datatype Loop = Loop(given: seq<Yielded>, cache: seq<Intermediates>, ok: bool)

  function FetchFrom(m: Intermediates, names: set<string>): Values {
    OnloadAll(Restrict(m, names))
  }

  /** The first n batches, one at a time, unless a write fails. */
  ghost function Sequentially(S: Setting, n: nat): (loop: Loop)
    requires n <= |S.start|
    ensures |loop.cache| == |S.start| && forall c :: n <= c < |S.start| ==> loop.cache[c] == S.start[c]
    ensures loop.ok ==> |loop.given| == n
  {
    if n == 0 then Loop([], S.start, true)
    else
      var before, b := Sequentially(S, n - 1), n - 1;
      if !before.ok then before
      else
        var inputs := FetchFrom(S.start[b], S.names);
        var written := WriteAll(S.start[b], S.consumer(b, inputs));
        Loop(before.given + [Yielded(b, inputs)], before.cache[b := written.intermediates], written.ok)
  }

  lemma {:induction false} SequentiallyNext(S: Setting, n: nat, written: Written)
    requires 0 < n <= |S.start|
    requires written == WriteAll(S.start[n - 1], S.consumer(n - 1, FetchFrom(S.start[n - 1], S.names)))
    ensures var before := Sequentially(S, n - 1);
            Sequentially(S, n) ==
            if !before.ok then before
            else Loop(before.given + [Yielded(n - 1, FetchFrom(S.start[n - 1], S.names))],
                      before.cache[n - 1 := written.intermediates], written.ok)
  {
  }

  // ----- The two threads

  datatype Main =
    | AtTop(b: nat)
    | Got(b: nat, inputs: Values)
    | Consuming(b: nat, todo: seq<Write>)
    | Finished
    | Failed

  /** The background thread, and the result it holds for the main thread to collect. */
  datatype Worker =
    | Idle
    | Submitted(batch: nat)
    | Reading(batch: nat, rest: set<string>, got: Values)
    | Ready(batch: nat, got: Values)

  datatype State = State(main: Main, worker: Worker, cache: seq<Intermediates>, given: seq<Yielded>)

  datatype Action = MainStep | WorkerStarts | WorkerReads(key: string) | WorkerEnds

  ghost predicate Init(S: Setting, s: State) {
    s == State(AtTop(0), Idle, S.start, [])
  }

  ghost predicate Enabled(S: Setting, s: State, a: Action) {
    match a
    case MainStep =>
      (match s.main
       case AtTop(b) => b >= |s.cache| || s.worker.Idle? || s.worker.Ready?
       case Got(_, _) => true
       case Consuming(b, _) => b < |s.cache|
       case Finished => false
       case Failed => false)
    case WorkerStarts => s.worker.Submitted? && s.worker.batch < |s.cache|
    case WorkerReads(key) => s.worker.Reading? && key in s.worker.rest
    case WorkerEnds => s.worker.Reading? && s.worker.rest == {}
  }

  ghost predicate CanRead(s: State, key: string) {
    s.worker.Reading? && s.worker.batch < |s.cache| && key in s.cache[s.worker.batch]
  }

  ghost function Apply(S: Setting, s: State, a: Action): State
    requires Enabled(S, s, a) && (a.WorkerReads? ==> CanRead(s, a.key))
  {
    match a
    case MainStep => MainNext(S, s)
    case WorkerStarts => s.(worker := Reading(s.worker.batch, s.cache[s.worker.batch].Keys, map[]))
    case WorkerReads(key) =>
      var w := s.worker;
      s.(worker := Reading(w.batch, w.rest - {key},
                           if key in S.names then w.got[key := Onload(s.cache[w.batch][key])] else w.got))
    case WorkerEnds => s.(worker := Ready(s.worker.batch, s.worker.got))
  }

  ghost function MainNext(S: Setting, s: State): State
    requires Enabled(S, s, MainStep)
  {
    match s.main
    case AtTop(b) =>
      if b >= |s.cache| then s.(main := Finished)
      else if s.worker.Ready? then s.(main := Got(b, s.worker.got), worker := Idle)
      else s.(main := Got(b, FetchFrom(s.cache[b], S.names)))
    case Got(b, inputs) =>
      s.(main := Consuming(b, S.consumer(b, inputs)), given := s.given + [Yielded(b, inputs)],
         worker := if b + 1 < |s.cache| then Submitted(b + 1) else Idle)
    case Consuming(b, todo) =>
      if todo == [] then s.(main := AtTop(b + 1))
      else match todo[0]
        case Put(key, value) => s.(main := Consuming(b, todo[1..]), cache := s.cache[b := s.cache[b][key := value]])
        case Remove(key) =>
          if key in s.cache[b] then s.(main := Consuming(b, todo[1..]), cache := s.cache[b := s.cache[b] - {key}])
          else s.(main := Failed)
        case Raise => s.(main := Failed)
  }

  // ----- The invariant

  /** The background thread works on a batch that is still as it was at the start, and has read what it no longer has to. */
  ghost predicate WorkerOk(S: Setting, s: State)
    requires |s.cache| == |S.start|
  {
    match s.worker
    case Idle => true
    case Submitted(b) => Untouched(S, s, b)
    case Reading(b, rest, got) =>
      Untouched(S, s, b) && rest <= S.start[b].Keys && got == FetchFrom(S.start[b] - rest, S.names)
    case Ready(b, got) => Untouched(S, s, b) && got == FetchFrom(S.start[b], S.names)
  }

  ghost predicate Untouched(S: Setting, s: State, b: nat)
    requires |s.cache| == |S.start|
  {
    b < |S.start| && s.cache[b] == S.start[b]
  }

  /** From the second batch on, the next batch is the background thread's. */
  ghost predicate WorksOn(S: Setting, worker: Worker, next: nat) {
    if worker.Idle? then next == 0 || next >= |S.start| else worker.batch == next
  }

  ghost predicate Inv(S: Setting, s: State) {
    && |s.cache| == |S.start|
    && WorkerOk(S, s)
    && match s.main
       case AtTop(b) =>
         b <= |S.start| && AsSequentially(S, s, b) && Sequentially(S, b).ok && WorksOn(S, s.worker, b)
       case Got(b, inputs) =>
         b < |S.start| && AsSequentially(S, s, b) && Sequentially(S, b).ok && s.worker.Idle?
         && inputs == FetchFrom(S.start[b], S.names)
       case Consuming(b, todo) => WritesLeft(S, s, b, todo) && WorksOn(S, s.worker, b + 1)
       case Finished => AsSequentially(S, s, |S.start|) && Sequentially(S, |S.start|).ok && s.worker.Idle?
       case Failed => AsSequentially(S, s, |S.start|) && !Sequentially(S, |S.start|).ok
  }

  /** Batch b was yielded; what is left to write leads to what writing everything at once leads to. */
  ghost predicate WritesLeft(S: Setting, s: State, b: nat, todo: seq<Write>) {
    && b < |S.start| == |s.cache|
    && Sequentially(S, b).ok
    && s.given == Sequentially(S, b + 1).given
    && s.cache == Sequentially(S, b + 1).cache[b := s.cache[b]]
    && WriteAll(s.cache[b], todo) == Written(Sequentially(S, b + 1).cache[b], Sequentially(S, b + 1).ok)
  }

  ghost predicate AsSequentially(S: Setting, s: State, n: nat)
    requires n <= |S.start|
  {
    s.given == Sequentially(S, n).given && s.cache == Sequentially(S, n).cache
  }

  lemma {:induction false} InitOk(S: Setting, s: State)
    requires Init(S, s)
    ensures Inv(S, s)
  {
  }

  /** The background thread only ever reads keys that are there. */
  lemma {:induction false} ReadsFindTheirKey(S: Setting, s: State, key: string)
    requires Inv(S, s) && Enabled(S, s, WorkerReads(key))
    ensures CanRead(s, key)
  {
    hide Restrict, OnloadAll, FetchFrom;
  }

  lemma {:induction false} ReadOne(S: Setting, b: nat, rest: set<string>, key: string)
    requires b < |S.start| && rest <= S.start[b].Keys && key in rest
    ensures FetchFrom(S.start[b] - (rest - {key}), S.names)
            == if key in S.names then FetchFrom(S.start[b] - rest, S.names)[key := Onload(S.start[b][key])]
               else FetchFrom(S.start[b] - rest, S.names)
  {
  }

  lemma {:induction false} WorkerStepKeepsInv(S: Setting, s: State, a: Action)
    requires Inv(S, s) && Enabled(S, s, a) && !a.MainStep?
    ensures a.WorkerReads? ==> CanRead(s, a.key)
    ensures Inv(S, Apply(S, s, a))
  {
    hide Restrict, OnloadAll, FetchFrom, Sequentially, WriteAll;
    match a
    case WorkerReads(key) =>
      var b, rest := s.worker.batch, s.worker.rest;
      ReadOne(S, b, rest, key);
    case WorkerStarts =>
      NothingRead(S, s.worker.batch);
    case WorkerEnds =>
      assert S.start[s.worker.batch] - {} == S.start[s.worker.batch];
  }

  lemma {:induction false} NothingRead(S: Setting, b: nat)
    requires b < |S.start|
    ensures FetchFrom(S.start[b] - S.start[b].Keys, S.names) == map[]
  {
  }

  /** A failure stays one, with the same given and cache. */
  lemma {:induction false} FailureStays(S: Setting, n: nat, k: nat)
    requires n <= k <= |S.start| && !Sequentially(S, n).ok
    ensures Sequentially(S, k) == Sequentially(S, n)
  {
    if n < k {
      FailureStays(S, n, k - 1);
    }
  }

  lemma {:induction false} GotKeepsInv(S: Setting, s: State)
    requires Inv(S, s) && s.main.Got?
    ensures Inv(S, MainNext(S, s))
  {
    hide Restrict, OnloadAll, FetchFrom, WriteAll;
    var b := s.main.b;
    assert s.cache[b] == S.start[b];
  }

  lemma {:induction false} ConsumingKeepsInv(S: Setting, s: State)
    requires Inv(S, s) && s.main.Consuming?
    ensures Inv(S, MainNext(S, s))
  {
    hide Restrict, OnloadAll, FetchFrom, Sequentially;
    var b, todo := s.main.b, s.main.todo;
    if todo != [] && (todo[0].Raise? || (todo[0].Remove? && todo[0].key !in s.cache[b])) {
      FailureStays(S, b + 1, |S.start|);
    }
  }

  lemma {:induction false} MainStepKeepsInv(S: Setting, s: State)
    requires Inv(S, s) && Enabled(S, s, MainStep)
    ensures Inv(S, MainNext(S, s))
  {
    hide Restrict, OnloadAll, FetchFrom, Sequentially, WriteAll, WritesLeft;
    match s.main
    case AtTop(b) =>
      if b < |s.cache| {
        assert s.cache[b] == S.start[b];
      }
    case Got(_, _) => GotKeepsInv(S, s);
    case Consuming(_, _) => ConsumingKeepsInv(S, s);
  }

  lemma {:induction false} StepKeepsInv(S: Setting, s: State, a: Action)
    requires Inv(S, s) && Enabled(S, s, a)
    ensures a.WorkerReads? ==> CanRead(s, a.key)
    ensures Inv(S, Apply(S, s, a))
  {
    hide Inv, MainNext;
    if a.MainStep? {
      MainStepKeepsInv(S, s);
    } else {
      WorkerStepKeepsInv(S, s, a);
    }
  }

  // ----- Whole runs

  ghost predicate Step(S: Setting, s: State, next: State) {
    exists a: Action :: Enabled(S, s, a) && (a.WorkerReads? ==> CanRead(s, a.key)) && next == Apply(S, s, a)
  }

  ghost predicate IsRun(S: Setting, run: seq<State>) {
    && run != [] && Init(S, run[0])
    && forall t :: 0 < t < |run| ==> Step(S, run[t - 1], run[t])
  }

  lemma {:induction false} RunInv(S: Setting, run: seq<State>, t: nat)
    requires IsRun(S, run) && t < |run|
    ensures Inv(S, run[t])
  {
    hide Inv, Init, Enabled, CanRead;
    if t == 0 {
      InitOk(S, run[0]);
    } else {
      RunInv(S, run, t - 1);
      assert Step(S, run[t - 1], run[t]);
      var a :| Enabled(S, run[t - 1], a) && (a.WorkerReads? ==> CanRead(run[t - 1], a.key)) && run[t] == Apply(S, run[t - 1], a);
      StepKeepsInv(S, run[t - 1], a);
    }
  }

  /**
    However the threads interleave, a run that ends has handed out the same batches with the same inputs, left the same cache,
    and failed or not, as fetching the batches one at a time.
    */
  lemma {:induction false} PrefetchingIsSequential(S: Setting, run: seq<State>)
    requires IsRun(S, run) && (run[|run| - 1].main.Finished? || run[|run| - 1].main.Failed?)
    ensures var last := run[|run| - 1];
            Sequentially(S, |S.start|) == Loop(last.given, last.cache, last.main.Finished?)
  {
    RunInv(S, run, |run| - 1);
  }

  /** Until the main thread ends there is always a step to take, so nothing waits forever. */
  lemma {:induction false} NoDeadlock(S: Setting, s: State)
    requires Inv(S, s) && !s.main.Finished? && !s.main.Failed?
    ensures exists a :: Enabled(S, s, a) && (a.WorkerReads? ==> CanRead(s, a.key))
  {
    hide Sequentially, WritesLeft, FetchFrom;
    if s.worker.Submitted? {
      assert Enabled(S, s, WorkerStarts);
    } else if s.worker.Reading? && s.worker.rest == {} {
      assert Enabled(S, s, WorkerEnds);
    } else if s.worker.Reading? {
      var key :| key in s.worker.rest;
      assert Enabled(S, s, WorkerReads(key)) && CanRead(s, key);
    } else {
      assert Enabled(S, s, MainStep) by {
        BatchInRange(S, s);
      }
    }
  }

  lemma {:induction false} BatchInRange(S: Setting, s: State)
    requires Inv(S, s)
    ensures s.main.Consuming? ==> s.main.b < |s.cache|
  {
    hide Sequentially, WriteAll, FetchFrom;
  }

  ghost function BatchesLeft(S: Setting, main: Main): int {
    match main
    case AtTop(b) => |S.start| - b
    case Got(b, _) => |S.start| - b
    case Consuming(b, _) => |S.start| - b
    case _ => -1
  }

  ghost function StageLeft(main: Main): nat {
    match main
    case AtTop(_) => 2
    case Got(_, _) => 1
    case _ => 0
  }

  ghost function WritesToDo(main: Main): nat {
    if main.Consuming? then |main.todo| else 0
  }

  ghost function WorkLeft(worker: Worker): nat {
    match worker
    case Submitted(_) => 2
    case Reading(_, _, _) => 1
    case _ => 0
  }

  ghost function KeysLeft(worker: Worker): nat {
    if worker.Reading? then |worker.rest| else 0
  }

  /** Every step leaves fewer batches, or as many and fewer stages of the batch, or less to write, start or read. */
  ghost predicate Descends(S: Setting, s: State, next: State) {
    var b, b' := BatchesLeft(S, s.main), BatchesLeft(S, next.main);
    var m, m' := StageLeft(s.main), StageLeft(next.main);
    var w, w' := WritesToDo(s.main), WritesToDo(next.main);
    var v, v' := WorkLeft(s.worker), WorkLeft(next.worker);
    var k, k' := KeysLeft(s.worker), KeysLeft(next.worker);
    b' < b || (b' == b && (m' < m || (m' == m && (w' < w || (w' == w && (v' < v || (v' == v && k' < k)))))))
  }

  lemma {:induction false} StepDescends(S: Setting, s: State, a: Action)
    requires Inv(S, s) && Enabled(S, s, a) && (a.WorkerReads? ==> CanRead(s, a.key))
    ensures BatchesLeft(S, s.main) >= -1 && Descends(S, s, Apply(S, s, a))
  {
    hide Sequentially, WriteAll, FetchFrom, AsSequentially, WorkerOk, WorksOn;
  }

  /** No run goes on forever. */
  lemma {:induction false} RunsEnd(S: Setting, run: nat -> State, t: nat)
    requires Inv(S, run(t)) && forall k: nat :: k >= t ==> Step(S, run(k), run(k + 1))
    ensures false
    decreases BatchesLeft(S, run(t).main) + 1, StageLeft(run(t).main), WritesToDo(run(t).main),
              WorkLeft(run(t).worker), KeysLeft(run(t).worker)
  {
    hide Inv, Apply, Enabled;
    var s, next := run(t), run(t + 1);
    assert Step(S, s, next);
    var a :| Enabled(S, s, a) && (a.WorkerReads? ==> CanRead(s, a.key)) && next == Apply(S, s, a);
    StepKeepsInv(S, s, a);
    StepDescends(S, s, a);
    RunsEnd(S, run, t + 1);
  }

  // ----- A consumer that updates and then deletes

  function Puts(values: Intermediates, order: seq<string>): (writes: seq<Write>)
    requires forall k :: k in order ==> k in values
  {
    seq(|order|, i requires 0 <= i < |order| => assert order[i] in order; Put(order[i], values[order[i]]))
  }

  function Removes(order: seq<string>): (writes: seq<Write>) {
    seq(|order|, i requires 0 <= i < |order| => Remove(order[i]))
  }

  ghost function Chosen(values: Intermediates, order: seq<string>): Intermediates {
    map k | k in values && k in order :: values[k]
  }

  lemma {:induction false} PutsThen(m: Intermediates, values: Intermediates, order: seq<string>, rest: seq<Write>)
    requires forall k :: k in order ==> k in values
    ensures WriteAll(m, Puts(values, order) + rest)
            == WriteAll(m + Chosen(values, order), rest)
    decreases |order|
  {
    if order == [] {
      assert Puts(values, order) + rest == rest;
      assert m + Chosen(values, order) == m;
    } else {
      var k, others := order[0], order[1..];
      assert forall j :: j in order <==> j == k || j in others;
      var writes := Puts(values, order) + rest;
      assert writes[1..] == Puts(values, others) + rest;
      PutsThen(m[k := values[k]], values, others, rest);
      assert m[k := values[k]] + Chosen(values, others) == m + Chosen(values, order);
    }
  }

  lemma {:induction false} RemovesAll(m: Intermediates, order: seq<string>)
    requires forall i, j :: 0 <= i < j < |order| ==> order[i] != order[j]
    ensures WriteAll(m, Removes(order)).ok <==> (forall k :: k in order ==> k in m)
    ensures WriteAll(m, Removes(order)).ok ==> WriteAll(m, Removes(order)).intermediates == m - (set k | k in order)
    decreases |order|
  {
    if order != [] {
      var k, others := order[0], order[1..];
      assert forall j :: j in order <==> j == k || j in others;
      assert k !in others;
      assert Removes(order)[1..] == Removes(others);
      RemovesAll(m - {k}, others);
      assert m - {k} - (set j | j in others) == m - (set j | j in order);
    }
  }

  /** Updating and then deleting, key by key and in any order, is what the cache's update and delete do at once. */
  lemma {:induction false} UpdateThenDelete(m: Intermediates, values: Intermediates, order: seq<string>,
                                            consumed: seq<string>)
    requires forall k :: k in order <==> k in values
    requires forall i, j :: 0 <= i < j < |consumed| ==> consumed[i] != consumed[j]
    ensures var written := WriteAll(m, Puts(values, order) + Removes(consumed));
            && (written.ok <==> (set k | k in consumed) <= (m + values).Keys)
            && (written.ok ==> written.intermediates == m + values - (set k | k in consumed))
  {
    PutsThen(m, values, order, Removes(consumed));
    assert Chosen(values, order) == values;
    RemovesAll(m + values, consumed);
  }
}
