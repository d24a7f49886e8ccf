/** What every run of distributed compression comes to. */
module DistributedGptqRuns {
  import opened Collections
  import opened GptqColumns
  import opened GptqHessian
  import opened GptqModifier
  import opened DistributedGptq
  import BinPacking

  // ----- Safety over whole runs

  lemma {:induction false} RunStep(S: Setting, run: seq<State>, i: nat)
    requires S.Valid() && IsRun(S, run) && i + 1 < |run|
    ensures Step(S, run[i], run[i + 1])
  {
  }

  lemma {:induction false} RunInv(S: Setting, run: seq<State>, i: nat)
    requires S.Valid() && IsRun(S, run) && i < |run|
    ensures Inv(S, run[i])
  {
    if i == 0 {
      InitOk(S, run[0]);
    } else {
      RunInv(S, run, i - 1);
      RunStep(S, run, i - 1);
      StepKeepsInv(S, run[i - 1], run[i]);
    }
  }

  /** Collectives match: whatever two ranks have both issued k-th is the same collective. */
  lemma {:induction false} CollectivesMatch(S: Setting, run: seq<State>, i: nat, q: nat, r: nat, k: nat)
    requires S.Valid() && IsRun(S, run) && i < |run|
    requires q < |run[i]| && r < |run[i]| && k < |run[i][q].issued| && k < |run[i][r].issued|
    ensures run[i][q].issued[k].op == run[i][r].issued[k].op
  {
    RunInv(S, run, i);
    assert RankOk(S, q, run[i][q]) && RankOk(S, r, run[i][r]);
  }

  /** A module is compressed by no rank but its owner, at most once. */
  lemma {:induction false} CompressedByOwner(S: Setting, run: seq<State>, i: nat, r: nat, m: ModuleId)
    requires S.Valid() && IsRun(S, run) && i < |run| && r < |run[i]|
    requires m in run[i][r].compressed
    ensures m in S.list && S.owner[m] == r && multiset(run[i][r].compressed)[m] == 1
  {
    RunInv(S, run, i);
    var rank := run[i][r];
    assert RankOk(S, r, rank);
    assert m in S.mine[r];
    BinPacking.OccurrencesAtMostOne(rank.compressed, m);
    assert m in multiset(rank.compressed);
  }

  /** A rank that has finished has compressed each of its own modules exactly once, and no other. */
  lemma {:induction false} CompressedOnce(S: Setting, run: seq<State>, r: nat, m: ModuleId)
    requires S.Valid() && IsRun(S, run) && r < |run[|run| - 1]| && m in S.list
    requires run[|run| - 1][r].pc.Finished?
    ensures multiset(run[|run| - 1][r].compressed)[m] == if S.owner[m] == r then 1 else 0
  {
    FinishedRun(S, run, r);
    MineIfOwner(S, r, m);
    if m in run[|run| - 1][r].compressed {
      CompressedByOwner(S, run, |run| - 1, r, m);
    }
  }

  lemma {:induction false} MineIfOwner(S: Setting, r: nat, m: ModuleId)
    requires S.Valid() && r < S.worldSize && m in S.list
    ensures m in S.mine[r] <==> S.owner[m] == r
  {
  }

  /**
    When every rank has finished, all ranks hold the same parameters: each module compressed from the sums over all
    ranks, on its owner only. No Hessian or sample count is left behind anywhere.
    */
  lemma {:induction false} FinishedRun(S: Setting, run: seq<State>, r: nat)
    requires S.Valid() && IsRun(S, run) && r < |run[|run| - 1]|
    requires run[|run| - 1][r].pc.Finished?
    ensures r < S.worldSize
    ensures var rank := run[|run| - 1][r];
            && rank.hessians == map[] && rank.samples == map[]
            && rank.compressed == S.mine[r]
            && rank.params.Keys == S.params.Keys
            && forall m :: m in S.params ==>
                 rank.params[m] == if m in S.list then S.Final(m) else S.params[m]
  {
    RunInv(S, run, |run| - 1);
    var rank := run[|run| - 1][r];
    assert RankOk(S, r, rank);
    forall m
      ensures m !in rank.hessians && m !in rank.samples
    {
      if m in S.list {
        var j :| 0 <= j < |S.list| && S.list[j] == m;
        assert SumOk(S, r, rank, j);
      }
    }
    forall m | m in S.list
      ensures rank.params[m] == S.Final(m)
    {
      FinishedModule(S, r, rank, m);
    }
  }

  lemma {:induction false} FinishedModule(S: Setting, r: nat, rank: Rank, m: ModuleId)
    requires S.Valid() && r < S.worldSize && RankOk(S, r, rank) && rank.pc.Finished? && m in S.list
    ensures rank.params[m] == S.Final(m)
  {
    hide IssuesOk, SumsOk, Setting.Ops, Received;
    assert ModuleOk(S, r, rank, m);
    FinalKeys(S, m);
    if S.owner[m] == r {
      assert m in S.mine[r];
    } else {
      forall a | a in S.params[m]
        ensures rank.params[m][a] == S.Final(m)[a]
      {
        if a in GPTQ_Q_PARAMS {
          EverythingReceived(S, rank.done, m, a);
        }
      }
    }
  }

  lemma {:induction false} EverythingReceived(S: Setting, done: set<nat>, m: ModuleId, a: string)
    requires S.Valid() && m in S.list && a in S.params[m] && a in GPTQ_Q_PARAMS
    requires AllDone(done, 0, |S.Ops()|)
    ensures Received(S, done, m, a)
  {
    var j :| 0 <= j < |S.list| && S.list[j] == m;
    var i := BroadcastIsListed(S, |S.list|, j, a);
    var k := 2 * |S.list| + i;
    assert S.Ops()[k] == Broadcast(m, a);
    assert k in done;
  }

  // ----- No deadlock, and every run ends

  ghost predicate CanMove(S: Setting, s: State)
    requires S.Valid() && |s| == S.worldSize
  {
    exists r, act :: 0 <= r < |s| && Enabled(S, s, r, act)
  }

  /** Whether rank r has nothing left to do in its phase but wait for its collectives. */
  ghost predicate AtWait(S: Setting, rank: Rank)
    requires S.Valid()
  {
    match rank.pc
    case Reducing(i) => i == 2 * |S.list|
    case Compressing(_) => false
    case Broadcasting(i) => 2 * |S.list| + i == |S.Ops()|
    case Finished => true
  }

  lemma {:induction false} BusyRankMoves(S: Setting, s: State, r: nat)
    requires S.Valid() && Inv(S, s) && r < |s| && !AtWait(S, s[r])
    ensures CanMove(S, s)
  {
    var rank := s[r];
    assert RankOk(S, r, rank);
    match rank.pc
    case Reducing(i) =>
      IssueReduceOk(S, r, rank);
      assert Enabled(S, s, r, IssueNext);
    case Compressing(i) =>
      if i < |S.mine[r]| {
        CompressNextOk(S, r, rank);
        assert Enabled(S, s, r, CompressNext);
      } else {
        assert Enabled(S, s, r, PassWait);
      }
    case Broadcasting(i) =>
      IssueBroadcastOk(S, r, rank);
      assert Enabled(S, s, r, IssueNext);
    case Finished =>
  }

  lemma {:induction false} IssuedAt(S: Setting, s: State, q: nat, k: nat)
    requires S.Valid() && Inv(S, s) && q < |s| && k < |s[q].issued|
    ensures k < |S.Ops()| && S.Ops()[k].m in S.list && IssuedBy(s, q, k, S.Ops()[k])
  {
    assert RankOk(S, q, s[q]);
  }

  /** A rank that waits for collective k can complete it once all ranks have issued it. */
  lemma {:induction false} WaitingRankMoves(S: Setting, s: State, r: nat, k: nat)
    requires S.Valid() && Inv(S, s) && r < |s| && k !in s[r].done
    requires forall q :: 0 <= q < |s| ==> k < |s[q].issued|
    ensures CanMove(S, s)
  {
    IssuedAt(S, s, r, k);
    var op := s[r].issued[k].op;
    forall q | 0 <= q < |s|
      ensures IssuedBy(s, q, k, op)
    {
      IssuedAt(S, s, q, k);
    }
    assert RankOk(S, r, s[r]);
    assert Enabled(S, s, r, Complete(k));
  }

  lemma {:induction false} WaitMoves(S: Setting, s: State, r: nat, lo: nat, hi: nat)
    requires S.Valid() && Inv(S, s) && r < |s|
    requires forall q :: 0 <= q < |s| ==> hi <= |s[q].issued|
    requires AllDone(s[r].done, lo, hi) ==> Enabled(S, s, r, PassWait)
    ensures CanMove(S, s)
  {
    if !AllDone(s[r].done, lo, hi) {
      var k: nat :| lo <= k < hi && k !in s[r].done;
      WaitingRankMoves(S, s, r, k);
    } else {
      assert Enabled(S, s, r, PassWait);
    }
  }

  lemma {:induction false} WaitingRankIssued(S: Setting, s: State, q: nat)
    requires S.Valid() && Inv(S, s) && q < |s| && AtWait(S, s[q])
    ensures 2 * |S.list| <= |S.Ops()|
    ensures |s[q].issued| == if s[q].pc.Reducing? then 2 * |S.list| else |S.Ops()|
  {
    assert RankOk(S, q, s[q]);
  }

  /** As long as some rank has not finished, some rank can act. */
  lemma {:induction false} UnfinishedMoves(S: Setting, s: State, r: nat)
    requires S.Valid() && Inv(S, s) && r < |s| && !s[r].pc.Finished?
    ensures CanMove(S, s)
  {
    if q :| 0 <= q < |s| && !AtWait(S, s[q]) {
      BusyRankMoves(S, s, q);
    } else {
      forall q | 0 <= q < |s|
        ensures 2 * |S.list| <= |s[q].issued| && (!s[q].pc.Reducing? ==> |s[q].issued| == |S.Ops()|)
      {
        WaitingRankIssued(S, s, q);
      }
      if q :| 0 <= q < |s| && s[q].pc.Reducing? {
        WaitMoves(S, s, q, 0, 2 * |S.list|);
      } else {
        WaitMoves(S, s, r, 2 * |S.list|, |S.Ops()|);
      }
    }
  }

  lemma {:induction false} NoDeadlock(S: Setting, run: seq<State>, r: nat)
    requires S.Valid() && IsRun(S, run) && r < |run[|run| - 1]|
    requires !run[|run| - 1][r].pc.Finished?
    ensures |run[|run| - 1]| == S.worldSize && CanMove(S, run[|run| - 1])
  {
    RunInv(S, run, |run| - 1);
    UnfinishedMoves(S, run[|run| - 1], r);
  }

  /** The actions rank r has left. */
  ghost function RankMeasure(S: Setting, r: nat, rank: Rank): int
    requires S.Valid() && r < S.worldSize
  {
    |S.Ops()| - |rank.done| +
    match rank.pc
    case Reducing(i) => 2 * |S.list| - i + |S.mine[r]| + |S.Ops()| + 3
    case Compressing(i) => |S.mine[r]| - i + |S.Ops()| + 2
    case Broadcasting(i) => |S.Ops()| - 2 * |S.list| - i + 1
    case Finished => 0
  }

  ghost function Measure(S: Setting, s: State, ranks: nat): int
    requires S.Valid() && |s| == S.worldSize && ranks <= |s|
  {
    if ranks == 0 then 0 else Measure(S, s, ranks - 1) + RankMeasure(S, ranks - 1, s[ranks - 1])
  }

  lemma {:induction false} DoneBounded(done: set<nat>, n: nat)
    requires forall k :: k in done ==> k < n
    ensures |done| <= n
  {
    if n == 0 {
      assert done == {};
    } else {
      DoneBounded(done - {n - 1}, n - 1);
      assert done <= done - {n - 1} + {n - 1};
      assert |done| <= |done - {n - 1}| + 1 by {
        if n - 1 in done {
        } else {
          assert done - {n - 1} == done;
        }
      }
    }
  }

  lemma {:induction false} RankMeasureNatural(S: Setting, r: nat, rank: Rank)
    requires S.Valid() && r < S.worldSize && RankOk(S, r, rank)
    ensures RankMeasure(S, r, rank) >= 0
  {
    DoneBounded(rank.done, |S.Ops()|);
  }

  lemma {:induction false} ProgressDecreases(S: Setting, r: nat, rank: Rank, next: Rank)
    requires S.Valid() && r < S.worldSize && PcOk(S, r, rank) && next.done == rank.done
    requires match rank.pc
             case Reducing(i) => i <= 2 * |S.list| && (next.pc == Reducing(i + 1) || next.pc == Compressing(0))
             case Compressing(i) => next.pc == Compressing(i + 1) || next.pc == Broadcasting(0)
             case Broadcasting(i) => 2 * |S.list| + i <= |S.Ops()| && (next.pc == Broadcasting(i + 1) || next.pc == Finished)
             case Finished => false
    ensures RankMeasure(S, r, next) < RankMeasure(S, r, rank)
  {
  }

  lemma {:induction false} ActionDecreases(S: Setting, s: State, r: nat, act: Action)
    requires S.Valid() && |s| == S.worldSize && r < |s| && PcOk(S, r, s[r]) && Enabled(S, s, r, act)
    ensures RankMeasure(S, r, Apply(S, s, r, act)) < RankMeasure(S, r, s[r])
  {
    hide Setting.Valid, Setting.Ops, Ready, IssueReduce, IssueBroadcast, CompleteCollective, AllDone;
    var next := Apply(S, s, r, act);
    if act.Complete? {
      OneMoreDone(s[r].done, act.k, next.done);
    } else {
      ProgressDecreases(S, r, s[r], next);
    }
  }

  lemma {:induction false} OneMoreDone(done: set<nat>, k: nat, more: set<nat>)
    requires k !in done && more == done + {k}
    ensures |more| == |done| + 1
  {
  }

  lemma {:induction false} MeasureUpdate(S: Setting, s: State, r: nat, rank: Rank, ranks: nat)
    requires S.Valid() && |s| == S.worldSize && r < |s| && ranks <= |s|
    ensures Measure(S, s[r := rank], ranks)
         == Measure(S, s, ranks) + if r < ranks then RankMeasure(S, r, rank) - RankMeasure(S, r, s[r]) else 0
  {
    if ranks > 0 {
      MeasureUpdate(S, s, r, rank, ranks - 1);
    }
  }

  lemma {:induction false} MeasureNatural(S: Setting, s: State, ranks: nat)
    requires S.Valid() && Inv(S, s) && ranks <= |s|
    ensures Measure(S, s, ranks) >= 0
  {
    if ranks > 0 {
      MeasureNatural(S, s, ranks - 1);
      assert RankOk(S, ranks - 1, s[ranks - 1]);
      RankMeasureNatural(S, ranks - 1, s[ranks - 1]);
    }
  }

  /** No run has more steps than the measure of its first state: together with NoDeadlock, every run ends. */
  lemma {:induction false} RunIsBounded(S: Setting, run: seq<State>, i: nat)
    requires S.Valid() && IsRun(S, run) && i < |run|
    ensures |run[i]| == S.worldSize
    ensures 0 <= Measure(S, run[i], S.worldSize) <= Measure(S, run[0], S.worldSize) - i
  {
    hide Setting.Valid, Enabled, Apply, RankMeasure, Measure, PcOk, IssuesOk, SumsOk, ParamsOk, Step;
    RunInv(S, run, i);
    MeasureNatural(S, run[i], S.worldSize);
    if i > 0 {
      RunIsBounded(S, run, i - 1);
      RunInv(S, run, i - 1);
      var s := run[i - 1];
      RunStep(S, run, i - 1);
      var r, act :| 0 <= r < |s| && Enabled(S, s, r, act) && run[i] == s[r := Apply(S, s, r, act)];
      assert RankOk(S, r, s[r]);
      ActionDecreases(S, s, r, act);
      MeasureUpdate(S, s, r, Apply(S, s, r, act), S.worldSize);
    }
  }

  // ----- Agreement with a single process

  /** The batches of the first ranks, one rank after the other. */
  ghost function Pooled(S: Setting, m: ModuleId, ranks: nat): seq<Input>
    requires S.Valid() && m in S.list && ranks <= S.worldSize
  {
    if ranks == 0 then [] else Pooled(S, m, ranks - 1) + S.calib[ranks - 1][m]
  }

  lemma {:induction false} TotalsArePooled(S: Setting, m: ModuleId, ranks: nat)
    requires S.Valid() && m in S.list && ranks <= S.worldSize
    ensures S.TotalHessian(m, ranks) == HessianMatrix(S.columns(m), Pooled(S, m, ranks))
    ensures S.TotalSamples(m, ranks) == Samples(Pooled(S, m, ranks))
  {
    if ranks > 0 {
      TotalsArePooled(S, m, ranks - 1);
      PooledSum(S.columns(m), Pooled(S, m, ranks - 1), S.calib[ranks - 1][m]);
    }
  }

  lemma {:induction false} PooledSum(n: nat, a: seq<Input>, b: seq<Input>)
    ensures AddMatrix(n, HessianMatrix(n, a), HessianMatrix(n, b)) == HessianMatrix(n, a + b)
    ensures Samples(a + b) == Samples(a) + Samples(b)
  {
    var sum, all := AddMatrix(n, HessianMatrix(n, a), HessianMatrix(n, b)), HessianMatrix(n, a + b);
    forall i, j | 0 <= i < n && 0 <= j < n
      ensures sum[i][j] == all[i][j]
    {
      EntryAppend(a, b, i, j);
    }
    EntryAppend(a, b, 0, 0);
    SameMatrix(sum, all, n, n);
  }

  /**
    The result of distributed compression is the one a single process computes from the pooled batches, in whatever
    order the single process sees them.
    */
  lemma {:induction false} SingleProcessAgrees(S: Setting, m: ModuleId, pooled: map<ModuleId, seq<Input>>)
    requires S.Valid() && m in S.list && m in pooled
    requires multiset(pooled[m]) == multiset(Pooled(S, m, S.worldSize))
    ensures S.Final(m) == Compressed(S.quantize, S.columns, S.params, pooled, m)
  {
    var n, a, b := S.columns(m), pooled[m], Pooled(S, m, S.worldSize);
    TotalsArePooled(S, m, S.worldSize);
    forall i, j | 0 <= i < n && 0 <= j < n
      ensures HessianMatrix(n, a)[i][j] == HessianMatrix(n, b)[i][j]
    {
      EntryOfRearranged(a, b, i, j);
    }
    EntryOfRearranged(a, b, 0, 0);
    SameMatrix(HessianMatrix(n, a), HessianMatrix(n, b), n, n);
  }

  // ----- The plan

  /** The weight that modules are packed by: hessian.shape[0]. */
  function ModuleWeight(columns: ModuleId -> nat): ModuleId -> real {
    (m: ModuleId) => columns(m) as real
  }

  /** What greedy_bin_packing returns for distinct modules is a plan the protocol can run on. */
  lemma {:induction false} PackingIsPlan(items: seq<ModuleId>, columns: ModuleId -> nat, worldSize: nat)
    requires worldSize >= 1 && Distinct(items)
    ensures var list := BinPacking.SortDescending(items, ModuleWeight(columns));
            var a := BinPacking.Greedy(BinPacking.Weights(list, ModuleWeight(columns)), worldSize);
            && Distinct(list) && multiset(list) == multiset(items)
            && (forall m :: m in list ==> m in BinPacking.BinOfItem(list, a) && BinPacking.BinOfItem(list, a)[m] < worldSize)
            && forall r: nat :: r < worldSize ==>
                 && Distinct(BinPacking.ItemsOfBin(list, a, r))
                 && forall m :: m in BinPacking.ItemsOfBin(list, a, r) <==>
                                m in list && BinPacking.BinOfItem(list, a)[m] == r
  {
    var list := BinPacking.SortDescending(items, ModuleWeight(columns));
    var a := BinPacking.Greedy(BinPacking.Weights(list, ModuleWeight(columns)), worldSize);
    BinPacking.SortDescendingSorts(items, ModuleWeight(columns));
    BinPacking.DistinctByMultiset(items, list);
    AssignmentIsPlan(list, a, worldSize);
  }

  lemma {:induction false} AssignmentIsPlan(list: seq<ModuleId>, a: seq<nat>, worldSize: nat)
    requires Distinct(list) && |a| == |list| && forall i :: 0 <= i < |a| ==> a[i] < worldSize
    ensures forall m :: m in list ==> m in BinPacking.BinOfItem(list, a) && BinPacking.BinOfItem(list, a)[m] < worldSize
    ensures forall r: nat :: r < worldSize ==>
              && Distinct(BinPacking.ItemsOfBin(list, a, r))
              && forall m :: m in BinPacking.ItemsOfBin(list, a, r) <==>
                   m in list && BinPacking.BinOfItem(list, a)[m] == r
  {
    forall m | m in list
      ensures m in BinPacking.BinOfItem(list, a) && BinPacking.BinOfItem(list, a)[m] < worldSize
    {
      var i :| 0 <= i < |list| && list[i] == m;
      BinPacking.BinOfItemRecords(list, a, i);
    }
    forall r: nat, m | r < worldSize
      ensures m in BinPacking.ItemsOfBin(list, a, r) <==> m in list && BinPacking.BinOfItem(list, a)[m] == r
    {
      BinPacking.ItemsOfBinMembers(list, a, r, m);
      if m in list {
        var i :| 0 <= i < |list| && list[i] == m;
        BinPacking.BinOfItemRecords(list, a, i);
      }
    }
    forall r: nat | r < worldSize
      ensures Distinct(BinPacking.ItemsOfBin(list, a, r))
    {
      DistinctBin(list, a, r);
    }
  }

  lemma {:induction false} DistinctBin(list: seq<ModuleId>, a: seq<nat>, r: nat)
    requires Distinct(list) && |a| == |list|
    ensures Distinct(BinPacking.ItemsOfBin(list, a, r))
  {
    if list != [] {
      var n := |list| - 1;
      DistinctBin(list[..n], a[..n], r);
      BinPacking.ItemsOfBinMembers(list[..n], a[..n], r, list[n]);
    }
  }
}
