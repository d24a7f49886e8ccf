/**
  Distributed compression: every rank reduces the Hessians to the ranks that own their modules, compresses its own
  modules and broadcasts the results. Each rank runs at its own pace and asynchronous collectives complete in any order.
  */
module DistributedGptq {
  import opened Collections
  import opened GptqColumns
  import opened GptqHessian
  import opened GptqModifier

  const GPTQ_Q_PARAMS: seq<string> := ["weight", "weight_scale", "weight_zero_point", "weight_g_idx"]

  datatype Collective = ReduceHessian(m: ModuleId) | ReduceSamples(m: ModuleId) | Broadcast(m: ModuleId, attr: string)

  /** The tensor a rank hands to a collective. */
  datatype Payload = Hessian(h: Matrix) | Count(n: nat) | Attribute(value: Matrix)

  datatype Issue = Issue(op: Collective, payload: Payload)

  /** Where a rank stands: collectives issued in the current phase, or modules compressed. */
  datatype Pc = Reducing(i: nat) | Compressing(i: nat) | Broadcasting(i: nat) | Finished

  datatype Rank = Rank(pc: Pc, issued: seq<Issue>, done: set<nat>,
                       hessians: map<ModuleId, Matrix>, samples: map<ModuleId, nat>,
                       params: map<ModuleId, Params>, compressed: seq<ModuleId>)

  type State = seq<Rank>

  datatype Action = IssueNext | Complete(k: nat) | PassWait | CompressNext

  /**
    What all ranks agree on, the batches calib[r][m] that rank r calibrated module m with, and the module parameters
    every rank starts from. The plan is what greedy_bin_packing returns on each rank.
    */
  datatype Setting = Setting(worldSize: nat, columns: ModuleId -> nat, quantize: (ModuleId, Matrix, nat) -> Params,
                             params: map<ModuleId, Params>, calib: seq<map<ModuleId, seq<Input>>>,
                             list: seq<ModuleId>, owner: map<ModuleId, nat>, mine: seq<seq<ModuleId>>)
  {
    ghost predicate Valid() {
      && |calib| == worldSize == |mine|
      && Distinct(list)
      && (forall r, m :: 0 <= r < worldSize ==> (m in calib[r] <==> m in list))
      && (forall m :: m in list ==> m in owner && owner[m] < worldSize && m in params)
      && (forall r :: 0 <= r < worldSize ==> Distinct(mine[r]))
      && (forall r, m :: 0 <= r < worldSize ==> (m in mine[r] <==> m in list && owner[m] == r))
      && (forall m, h, n :: m in list ==>
            forall a :: a in quantize(m, h, n) ==> a in params[m] && a in GPTQ_Q_PARAMS)
    }

    /** The attributes of module m that are present, in the order in which they are broadcast. */
    function Attributes(m: ModuleId): seq<string>
      requires m in params
    {
      Present(GPTQ_Q_PARAMS, params[m])
    }

    function ReduceOps(): (ops: seq<Collective>)
      ensures |ops| == 2 * |list|
    {
      seq(2 * |list|, k requires 0 <= k < 2 * |list| =>
        if k % 2 == 0 then ReduceHessian(list[k / 2]) else ReduceSamples(list[k / 2]))
    }

    function BroadcastOps(k: nat): seq<Collective>
      requires k <= |list| && forall m :: m in list ==> m in params
    {
      if k == 0 then [] else BroadcastOps(k - 1) + BroadcastsOf(list[k - 1], Attributes(list[k - 1]))
    }

    /** Every collective that a rank issues, in order. */
    function Ops(): seq<Collective>
      requires forall m :: m in list ==> m in params
    {
      ReduceOps() + BroadcastOps(|list|)
    }

    // ----- What the run should come to

    ghost function OwnHessian(r: nat, m: ModuleId): Matrix
      requires Valid() && r < worldSize && m in list
    {
      HessianMatrix(columns(m), calib[r][m])
    }

    ghost function TotalHessian(m: ModuleId, ranks: nat): Matrix
      requires Valid() && m in list && ranks <= worldSize
    {
      if ranks == 0 then HessianMatrix(columns(m), [])
      else AddMatrix(columns(m), TotalHessian(m, ranks - 1), OwnHessian(ranks - 1, m))
    }

    ghost function TotalSamples(m: ModuleId, ranks: nat): nat
      requires Valid() && m in list && ranks <= worldSize
    {
      if ranks == 0 then 0 else TotalSamples(m, ranks - 1) + Samples(calib[ranks - 1][m])
    }

    /** Module m compressed from the sums over all ranks. */
    ghost function Final(m: ModuleId): Params
      requires Valid() && m in list
    {
      params[m] + quantize(m, TotalHessian(m, worldSize), TotalSamples(m, worldSize))
    }
  }

  function Present(attrs: seq<string>, p: Params): seq<string> {
    if attrs == [] then []
    else Present(attrs[..|attrs| - 1], p) + (if attrs[|attrs| - 1] in p then [attrs[|attrs| - 1]] else [])
  }

  function BroadcastsOf(m: ModuleId, attrs: seq<string>): (ops: seq<Collective>)
    ensures |ops| == |attrs| && forall i :: 0 <= i < |attrs| ==> ops[i] == Broadcast(m, attrs[i])
  {
    seq(|attrs|, i requires 0 <= i < |attrs| => Broadcast(m, attrs[i]))
  }

  function MatrixEntry(a: Matrix, i: nat, j: nat): real {
    if i < |a| && j < |a[i]| then a[i][j] else 0.0
  }

  function AddMatrix(n: nat, a: Matrix, b: Matrix): (c: Matrix)
    ensures Shaped(c, n, n)
    ensures forall i, j :: 0 <= i < n && 0 <= j < n ==> c[i][j] == MatrixEntry(a, i, j) + MatrixEntry(b, i, j)
  {
    seq(n, i requires 0 <= i < n => seq(n, j requires 0 <= j < n => MatrixEntry(a, i, j) + MatrixEntry(b, i, j)))
  }

  // ----- The transition system

  ghost predicate Init(S: Setting, s: State)
    requires S.Valid()
  {
    |s| == S.worldSize && forall r :: 0 <= r < S.worldSize ==> s[r] == InitialRank(S, r)
  }

  ghost function InitialRank(S: Setting, r: nat): Rank
    requires S.Valid() && r < S.worldSize
  {
    Rank(Reducing(0), [], {},
         map m | m in S.list :: S.OwnHessian(r, m), map m | m in S.list :: Samples(S.calib[r][m]), S.params, [])
  }

  ghost predicate AllDone(done: set<nat>, lo: nat, hi: nat) {
    forall k: nat :: lo <= k < hi ==> k in done
  }

  /** Collective k of rank r may complete: the ranks whose tensors it needs have issued it too. */
  ghost predicate Ready(S: Setting, s: State, r: nat, k: nat)
    requires S.Valid() && |s| == S.worldSize && r < |s| && k < |s[r].issued|
  {
    var op := s[r].issued[k].op;
    op.m in S.owner && S.owner[op.m] < |s|
    && if op.Broadcast? then IssuedBy(s, S.owner[op.m], k, op)
       else S.owner[op.m] == r ==> forall q :: 0 <= q < |s| ==> IssuedBy(s, q, k, op)
  }

  ghost predicate IssuedBy(s: State, q: nat, k: nat, op: Collective)
    requires q < |s|
  {
    && k < |s[q].issued| && s[q].issued[k].op == op
    && match op
       case ReduceHessian(_) => s[q].issued[k].payload.Hessian?
       case ReduceSamples(_) => s[q].issued[k].payload.Count?
       case Broadcast(_, _) => s[q].issued[k].payload.Attribute?
  }

  ghost function SumHessians(s: State, n: nat, k: nat, op: Collective, ranks: nat): Matrix
    requires op.ReduceHessian? && ranks <= |s| && forall q :: 0 <= q < |s| ==> IssuedBy(s, q, k, op)
  {
    if ranks == 0 then HessianMatrix(n, [])
    else
      assert IssuedBy(s, ranks - 1, k, op);
      AddMatrix(n, SumHessians(s, n, k, op, ranks - 1), s[ranks - 1].issued[k].payload.h)
  }

  ghost function SumCounts(s: State, k: nat, op: Collective, ranks: nat): nat
    requires op.ReduceSamples? && ranks <= |s| && forall q :: 0 <= q < |s| ==> IssuedBy(s, q, k, op)
  {
    if ranks == 0 then 0
    else
      assert IssuedBy(s, ranks - 1, k, op);
      SumCounts(s, k, op, ranks - 1) + s[ranks - 1].issued[k].payload.n
  }

  ghost predicate Enabled(S: Setting, s: State, r: nat, act: Action)
    requires S.Valid() && |s| == S.worldSize && r < |s|
  {
    var rank, ops := s[r], S.Ops();
    match act
    case IssueNext =>
      (match rank.pc
       case Reducing(i) =>
         && i < 2 * |S.list| && !ops[i].Broadcast?
         && ops[i].m in rank.hessians && ops[i].m in rank.samples && ops[i].m in S.owner
       case Broadcasting(i) =>
         && 2 * |S.list| + i < |ops| && ops[2 * |S.list| + i].Broadcast?
         && ops[2 * |S.list| + i].m in rank.params
         && ops[2 * |S.list| + i].attr in rank.params[ops[2 * |S.list| + i].m]
       case _ => false)
    case Complete(k) =>
      && k < |rank.issued| && k !in rank.done && Ready(S, s, r, k)
      && (rank.issued[k].op.Broadcast? ==> rank.issued[k].op.m in rank.params)
    case PassWait =>
      (match rank.pc
       case Reducing(i) => i == 2 * |S.list| && AllDone(rank.done, 0, 2 * |S.list|)
       case Compressing(i) => i == |S.mine[r]|
       case Broadcasting(i) => 2 * |S.list| + i == |ops| && AllDone(rank.done, 2 * |S.list|, |ops|)
       case Finished => false)
    case CompressNext =>
      && rank.pc.Compressing? && rank.pc.i < |S.mine[r]|
      && var m := S.mine[r][rank.pc.i]; m in rank.hessians && m in rank.samples && m in rank.params
  }

  /** The state of rank r after an enabled action; no action touches another rank. */
  ghost function Apply(S: Setting, s: State, r: nat, act: Action): Rank
    requires S.Valid() && |s| == S.worldSize && r < |s| && Enabled(S, s, r, act)
  {
    match act
    case IssueNext => if s[r].pc.Reducing? then IssueReduce(S, s[r], r, S.Ops()[s[r].pc.i]) else IssueBroadcast(S, s[r])
    case Complete(k) => CompleteCollective(S, s, r, k)
    case PassWait =>
      (match s[r].pc
       case Reducing(_) => s[r].(pc := Compressing(0))
       case Compressing(_) => s[r].(pc := Broadcasting(0))
       case _ => s[r].(pc := Finished))
    case CompressNext => CompressOne(s[r], S.mine[r][s[r].pc.i], S.quantize)
  }

  /** After the sample count of a module is handed over, a rank that does not own the module drops both entries. */
  ghost function IssueReduce(S: Setting, rank: Rank, r: nat, op: Collective): (next: Rank)
    requires S.Valid() && rank.pc.Reducing? && !op.Broadcast?
    requires op.m in rank.hessians && op.m in rank.samples && op.m in S.owner
    ensures next.pc == Reducing(rank.pc.i + 1) && next.done == rank.done
  {
    var payload := if op.ReduceHessian? then Hessian(rank.hessians[op.m]) else Count(rank.samples[op.m]);
    var next := rank.(pc := Reducing(rank.pc.i + 1), issued := rank.issued + [Issue(op, payload)]);
    if op.ReduceSamples? && S.owner[op.m] != r then
      next.(hessians := rank.hessians - {op.m}, samples := rank.samples - {op.m})
    else next
  }

  ghost function IssueBroadcast(S: Setting, rank: Rank): (next: Rank)
    requires S.Valid() && rank.pc.Broadcasting? && 2 * |S.list| + rank.pc.i < |S.Ops()|
    requires var op := S.Ops()[2 * |S.list| + rank.pc.i];
             op.Broadcast? && op.m in rank.params && op.attr in rank.params[op.m]
    ensures next.pc == Broadcasting(rank.pc.i + 1) && next.done == rank.done
  {
    var op := S.Ops()[2 * |S.list| + rank.pc.i];
    rank.(pc := Broadcasting(rank.pc.i + 1),
          issued := rank.issued + [Issue(op, Attribute(rank.params[op.m][op.attr]))])
  }

  /** The owner receives the sum of a reduce; everyone but the owner receives a broadcast. */
  ghost function CompleteCollective(S: Setting, s: State, r: nat, k: nat): (next: Rank)
    requires S.Valid() && |s| == S.worldSize && r < |s| && k < |s[r].issued| && Ready(S, s, r, k)
    requires s[r].issued[k].op.Broadcast? ==> s[r].issued[k].op.m in s[r].params
    ensures next.pc == s[r].pc && next.done == s[r].done + {k}
  {
    var op := s[r].issued[k].op;
    var rank := s[r].(done := s[r].done + {k});
    match op
    case ReduceHessian(m) =>
      if S.owner[m] == r then rank.(hessians := rank.hessians[m := SumHessians(s, S.columns(m), k, op, |s|)]) else rank
    case ReduceSamples(m) =>
      if S.owner[m] == r then rank.(samples := rank.samples[m := SumCounts(s, k, op, |s|)]) else rank
    case Broadcast(m, a) =>
      if S.owner[m] == r then rank
      else rank.(params := rank.params[m := rank.params[m][a := s[S.owner[m]].issued[k].payload.value]])
  }

  ghost function CompressOne(rank: Rank, m: ModuleId, quantize: (ModuleId, Matrix, nat) -> Params): Rank
    requires rank.pc.Compressing? && m in rank.hessians && m in rank.samples && m in rank.params
  {
    rank.(pc := Compressing(rank.pc.i + 1),
          params := rank.params[m := rank.params[m] + quantize(m, rank.hessians[m], rank.samples[m])],
          hessians := rank.hessians - {m}, samples := rank.samples - {m},
          compressed := rank.compressed + [m])
  }

  ghost predicate Step(S: Setting, s: State, s': State)
    requires S.Valid()
  {
    && |s| == S.worldSize
    && exists r, act :: 0 <= r < |s| && Enabled(S, s, r, act) && s' == s[r := Apply(S, s, r, act)]
  }

  ghost predicate IsRun(S: Setting, run: seq<State>)
    requires S.Valid()
  {
    |run| >= 1 && Init(S, run[0]) && forall i :: 0 <= i < |run| - 1 ==> Step(S, run[i], run[i + 1])
  }

  // ----- The order of collectives

  lemma {:induction false} ReduceOpsAt(S: Setting, j: nat)
    requires S.Valid() && j < |S.list|
    ensures 2 * j + 1 < |S.Ops()|
    ensures S.Ops()[2 * j] == ReduceHessian(S.list[j]) && S.Ops()[2 * j + 1] == ReduceSamples(S.list[j])
  {
  }

  lemma {:induction false} PresentMembers(attrs: seq<string>, p: Params, a: string)
    ensures a in Present(attrs, p) <==> a in attrs && a in p
  {
    if attrs != [] {
      PresentMembers(attrs[..|attrs| - 1], p, a);
      assert attrs == attrs[..|attrs| - 1] + [attrs[|attrs| - 1]];
    }
  }

  lemma {:induction false} BroadcastOpsAt(S: Setting, n: nat, i: nat)
    requires S.Valid() && n <= |S.list| && i < |S.BroadcastOps(n)|
    ensures var op := S.BroadcastOps(n)[i];
            op.Broadcast? && op.m in S.list && op.attr in S.params[op.m] && op.attr in GPTQ_Q_PARAMS
  {
    var before := S.BroadcastOps(n - 1);
    var m := S.list[n - 1];
    if i < |before| {
      BroadcastOpsAt(S, n - 1, i);
    } else {
      var a := S.Attributes(m)[i - |before|];
      assert S.BroadcastOps(n)[i] == Broadcast(m, a);
      PresentMembers(GPTQ_Q_PARAMS, S.params[m], a);
    }
  }

  lemma {:induction false} BroadcastIsListed(S: Setting, n: nat, j: nat, a: string) returns (i: nat)
    requires S.Valid() && j < n <= |S.list| && a in S.params[S.list[j]] && a in GPTQ_Q_PARAMS
    ensures i < |S.BroadcastOps(n)| && S.BroadcastOps(n)[i] == Broadcast(S.list[j], a)
  {
    if j == n - 1 {
      PresentMembers(GPTQ_Q_PARAMS, S.params[S.list[j]], a);
      var at :| 0 <= at < |S.Attributes(S.list[j])| && S.Attributes(S.list[j])[at] == a;
      i := |S.BroadcastOps(n - 1)| + at;
    } else {
      i := BroadcastIsListed(S, n - 1, j, a);
    }
  }

  // ----- The invariant, rank by rank

  ghost function IssuedCount(S: Setting, pc: Pc): nat
    requires S.Valid()
  {
    match pc
    case Reducing(i) => i
    case Compressing(_) => 2 * |S.list|
    case Broadcasting(i) => 2 * |S.list| + i
    case Finished => |S.Ops()|
  }

  ghost predicate PcOk(S: Setting, r: nat, rank: Rank)
    requires S.Valid() && r < S.worldSize
  {
    match rank.pc
    case Reducing(i) => i <= 2 * |S.list|
    case Compressing(i) => i <= |S.mine[r]| && AllDone(rank.done, 0, 2 * |S.list|)
    case Broadcasting(i) => 2 * |S.list| + i <= |S.Ops()| && AllDone(rank.done, 0, 2 * |S.list|)
    case Finished => AllDone(rank.done, 0, |S.Ops()|)
  }

  ghost predicate PayloadOk(S: Setting, r: nat, op: Collective, payload: Payload)
    requires S.Valid() && r < S.worldSize
  {
    && op.m in S.list
    && match op
       case ReduceHessian(m) => payload == Hessian(S.OwnHessian(r, m))
       case ReduceSamples(m) => payload == Count(Samples(S.calib[r][m]))
       case Broadcast(m, a) =>
         payload.Attribute? && (S.owner[m] == r ==> a in S.Final(m) && payload.value == S.Final(m)[a])
  }

  /** Every rank issues a prefix of the same list of collectives, with the tensors it calibrated or compressed. */
  ghost predicate IssuesOk(S: Setting, r: nat, rank: Rank)
    requires S.Valid() && r < S.worldSize
  {
    && |rank.issued| == IssuedCount(S, rank.pc) <= |S.Ops()|
    && (forall k :: 0 <= k < |rank.issued| ==>
          rank.issued[k].op == S.Ops()[k] && PayloadOk(S, r, S.Ops()[k], rank.issued[k].payload))
    && (forall k :: k in rank.done ==> k < |rank.issued|)
  }

  /** Whether rank r still keeps the Hessian and the sample count of module list[j]. */
  ghost predicate Keeps(S: Setting, r: nat, pc: Pc, j: nat)
    requires S.Valid() && r < S.worldSize && j < |S.list| && (pc.Compressing? ==> pc.i <= |S.mine[r]|)
  {
    match pc
    case Reducing(i) => S.owner[S.list[j]] == r || i < 2 * j + 2
    case Compressing(i) => S.owner[S.list[j]] == r && S.list[j] !in S.mine[r][..i]
    case _ => false
  }

  ghost predicate SumsOk(S: Setting, r: nat, rank: Rank)
    requires S.Valid() && r < S.worldSize && PcOk(S, r, rank)
  {
    && (forall m :: m in rank.hessians || m in rank.samples ==> m in S.list)
    && (forall j :: 0 <= j < |S.list| ==> SumOk(S, r, rank, j))
  }

  ghost predicate SumOk(S: Setting, r: nat, rank: Rank, j: nat)
    requires S.Valid() && r < S.worldSize && j < |S.list| && PcOk(S, r, rank)
  {
    var m := S.list[j];
    && (m in rank.hessians <==> Keeps(S, r, rank.pc, j))
    && (m in rank.samples <==> Keeps(S, r, rank.pc, j))
    && (m in rank.hessians ==> rank.hessians[m] == HeldHessian(S, r, rank.done, j))
    && (m in rank.samples ==> rank.samples[m] == HeldSamples(S, r, rank.done, j))
  }

  ghost function HeldHessian(S: Setting, r: nat, done: set<nat>, j: nat): Matrix
    requires S.Valid() && r < S.worldSize && j < |S.list|
  {
    var m := S.list[j];
    assert m in S.list && m in S.calib[r];
    if S.owner[m] == r && 2 * j in done then S.TotalHessian(m, S.worldSize) else S.OwnHessian(r, m)
  }

  ghost function HeldSamples(S: Setting, r: nat, done: set<nat>, j: nat): nat
    requires S.Valid() && r < S.worldSize && j < |S.list|
  {
    var m := S.list[j];
    assert m in S.list && m in S.calib[r];
    if S.owner[m] == r && 2 * j + 1 in done then S.TotalSamples(m, S.worldSize) else Samples(S.calib[r][m])
  }

  ghost predicate Received(S: Setting, done: set<nat>, m: ModuleId, a: string)
    requires S.Valid()
  {
    exists k :: k in done && k < |S.Ops()| && S.Ops()[k] == Broadcast(m, a)
  }

  ghost predicate ParamsOk(S: Setting, r: nat, rank: Rank)
    requires S.Valid() && r < S.worldSize && PcOk(S, r, rank)
  {
    && rank.params.Keys == S.params.Keys
    && (forall m :: m in S.params && m !in S.list ==> rank.params[m] == S.params[m])
    && (forall m :: m in S.list ==> ModuleOk(S, r, rank, m))
    && rank.compressed == match rank.pc
                          case Reducing(_) => []
                          case Compressing(i) => S.mine[r][..i]
                          case _ => S.mine[r]
  }

  ghost predicate ModuleOk(S: Setting, r: nat, rank: Rank, m: ModuleId)
    requires S.Valid() && r < S.worldSize && m in S.list && m in rank.params
  {
    if S.owner[m] == r then
      rank.params[m] == if m in rank.compressed then S.Final(m) else S.params[m]
    else
      && rank.params[m].Keys == S.params[m].Keys == S.Final(m).Keys
      && forall a :: a in S.params[m] ==>
           rank.params[m][a] == if Received(S, rank.done, m, a) then S.Final(m)[a] else S.params[m][a]
  }

  ghost predicate RankOk(S: Setting, r: nat, rank: Rank)
    requires S.Valid() && r < S.worldSize
  {
    PcOk(S, r, rank) && IssuesOk(S, r, rank) && SumsOk(S, r, rank) && ParamsOk(S, r, rank)
  }

  ghost predicate Inv(S: Setting, s: State)
    requires S.Valid()
  {
    |s| == S.worldSize && forall r :: 0 <= r < |s| ==> RankOk(S, r, s[r])
  }

  /** What the setting says of one module of the list. */
  lemma {:induction false} Listed(S: Setting, j: nat)
    requires S.Valid() && j < |S.list|
    ensures var m := S.list[j];
            && m in S.list && m in S.owner && S.owner[m] < S.worldSize && m in S.params
            && forall q :: 0 <= q < |S.list| && q != j ==> S.list[q] != m
    ensures forall m :: m in S.list ==> m in S.params && m in S.owner
    ensures |S.calib| == S.worldSize == |S.mine|
  {
  }

  lemma {:induction false} FinalKeys(S: Setting, m: ModuleId)
    requires S.Valid() && m in S.list
    ensures S.Final(m).Keys == S.params[m].Keys
    ensures forall a :: a in S.params[m] && a !in GPTQ_Q_PARAMS ==> S.Final(m)[a] == S.params[m][a]
  {
  }

  lemma {:induction false} InitOk(S: Setting, s: State)
    requires S.Valid() && Init(S, s)
    ensures Inv(S, s)
  {
    forall r | 0 <= r < |s|
      ensures RankOk(S, r, s[r])
    {
      assert PcOk(S, r, s[r]) && IssuesOk(S, r, s[r]);
      hide PcOk, IssuesOk;
      assert SumsOk(S, r, s[r]) by {
        InitSums(S, s, r);
      }
      assert ParamsOk(S, r, s[r]) by {
        InitParams(S, s, r);
      }
    }
  }

  lemma {:induction false} InitSums(S: Setting, s: State, r: nat)
    requires S.Valid() && Init(S, s) && r < |s| && PcOk(S, r, s[r])
    ensures SumsOk(S, r, s[r])
  {
    hide HeldHessian, HeldSamples, Keeps, Setting.OwnHessian;
    forall j | 0 <= j < |S.list|
      ensures SumOk(S, r, s[r], j)
    {
      InitSum(S, s, r, j);
    }
  }

  lemma {:induction false} InitSum(S: Setting, s: State, r: nat, j: nat)
    requires S.Valid() && Init(S, s) && r < |s| && PcOk(S, r, s[r]) && j < |S.list|
    ensures SumOk(S, r, s[r], j)
  {
    hide Setting.TotalHessian, Setting.TotalSamples, Setting.Final;
    assert S.list[j] in S.list;
  }

  lemma {:induction false} InitParams(S: Setting, s: State, r: nat)
    requires S.Valid() && Init(S, s) && r < |s| && PcOk(S, r, s[r])
    ensures ParamsOk(S, r, s[r])
  {
    forall m | m in S.list
      ensures ModuleOk(S, r, s[r], m)
    {
      FinalKeys(S, m);
    }
  }

  // ----- Every step keeps the invariant

  /** Issues keep their record when one is added at the end. */
  lemma {:induction false} IssueAdded(S: Setting, r: nat, rank: Rank, next: Rank, payload: Payload)
    requires S.Valid() && r < S.worldSize && IssuesOk(S, r, rank)
    requires |rank.issued| < |S.Ops()| && PayloadOk(S, r, S.Ops()[|rank.issued|], payload)
    requires next.issued == rank.issued + [Issue(S.Ops()[|rank.issued|], payload)]
    requires next.done == rank.done && IssuedCount(S, next.pc) == |rank.issued| + 1
    ensures IssuesOk(S, r, next)
  {
  }

  lemma {:induction false} ParamsKept(S: Setting, r: nat, rank: Rank, next: Rank)
    requires S.Valid() && r < S.worldSize && PcOk(S, r, rank) && ParamsOk(S, r, rank)
    requires next.params == rank.params && next.done == rank.done && next.compressed == rank.compressed
    requires PcOk(S, r, next) && (rank.pc.Reducing? <==> next.pc.Reducing?)
    requires !rank.pc.Compressing? && !next.pc.Compressing?
    ensures ParamsOk(S, r, next)
  {
    forall p | p in S.list
      ensures ModuleOk(S, r, next, p)
    {
      assert ModuleOk(S, r, rank, p);
    }
  }

  /** A module whose entries an action leaves alone. */
  lemma {:induction false} SumCarried(S: Setting, r: nat, rank: Rank, next: Rank, q: nat)
    requires S.Valid() && r < S.worldSize && q < |S.list| && PcOk(S, r, rank) && PcOk(S, r, next)
    requires SumOk(S, r, rank, q) && next.done == rank.done
    requires Keeps(S, r, rank.pc, q) <==> Keeps(S, r, next.pc, q)
    requires var m := S.list[q];
             && (m in rank.hessians <==> m in next.hessians) && (m in rank.samples <==> m in next.samples)
             && (m in rank.hessians ==> rank.hessians[m] == next.hessians[m])
             && (m in rank.samples ==> rank.samples[m] == next.samples[m])
    ensures SumOk(S, r, next, q)
  {
    hide Setting.Valid, HeldHessian, HeldSamples;
  }

  /** The effect of an action that drops both entries of module list[j]. */
  lemma {:induction false} SumsWithout(S: Setting, r: nat, rank: Rank, next: Rank, j: nat)
    requires S.Valid() && r < S.worldSize && j < |S.list| && PcOk(S, r, rank) && PcOk(S, r, next)
    requires SumsOk(S, r, rank) && next.done == rank.done
    requires next.hessians == rank.hessians - {S.list[j]} && next.samples == rank.samples - {S.list[j]}
    requires !Keeps(S, r, next.pc, j)
    requires forall q :: 0 <= q < |S.list| && q != j ==> (Keeps(S, r, rank.pc, q) <==> Keeps(S, r, next.pc, q))
    ensures SumsOk(S, r, next)
  {
    hide Setting.Valid, HeldHessian, HeldSamples;
    Listed(S, j);
    forall q | 0 <= q < |S.list|
      ensures SumOk(S, r, next, q)
    {
      assert SumOk(S, r, rank, q);
      if q != j {
        assert S.list[q] != S.list[j];
        SumCarried(S, r, rank, next, q);
      }
    }
  }

  /** The effect of an action that drops nothing. */
  lemma {:induction false} SumsKept(S: Setting, r: nat, rank: Rank, next: Rank)
    requires S.Valid() && r < S.worldSize && PcOk(S, r, rank) && PcOk(S, r, next)
    requires SumsOk(S, r, rank) && next.done == rank.done
    requires next.hessians == rank.hessians && next.samples == rank.samples
    requires forall q :: 0 <= q < |S.list| ==> (Keeps(S, r, rank.pc, q) <==> Keeps(S, r, next.pc, q))
    ensures SumsOk(S, r, next)
  {
    hide Setting.Valid, HeldHessian, HeldSamples;
    forall q | 0 <= q < |S.list|
      ensures SumOk(S, r, next, q)
    {
      assert SumOk(S, r, rank, q);
    }
  }

  lemma {:induction false} ReducePayload(S: Setting, r: nat, rank: Rank, j: nat, op: Collective)
    requires S.Valid() && r < S.worldSize && PcOk(S, r, rank) && rank.pc.Reducing?
    requires j < |S.list| && rank.pc.i !in rank.done && SumOk(S, r, rank, j)
    requires (op == ReduceHessian(S.list[j]) && rank.pc.i == 2 * j)
          || (op == ReduceSamples(S.list[j]) && rank.pc.i == 2 * j + 1)
    ensures S.list[j] in rank.hessians && S.list[j] in rank.samples && S.list[j] in S.owner
    ensures PayloadOk(S, r, op, IssueReduce(S, rank, r, op).issued[|rank.issued|].payload)
  {
    hide Setting.TotalHessian, Setting.TotalSamples, Setting.Final;
    assert S.list[j] in S.list;
  }

  lemma {:induction false} IssueReduceSums(S: Setting, r: nat, rank: Rank, j: nat, op: Collective)
    requires S.Valid() && r < S.worldSize && PcOk(S, r, rank) && SumsOk(S, r, rank) && rank.pc.Reducing?
    requires j < |S.list| && rank.pc.i !in rank.done
    requires (op == ReduceHessian(S.list[j]) && rank.pc.i == 2 * j)
          || (op == ReduceSamples(S.list[j]) && rank.pc.i == 2 * j + 1)
    ensures S.list[j] in rank.hessians && S.list[j] in rank.samples
    ensures SumsOk(S, r, IssueReduce(S, rank, r, op))
    ensures PayloadOk(S, r, op, IssueReduce(S, rank, r, op).issued[|rank.issued|].payload)
  {
    assert SumOk(S, r, rank, j);
    ReducePayload(S, r, rank, j, op);
    Listed(S, j);
    hide Setting.Valid, HeldHessian, HeldSamples, Setting.Final, PayloadOk;
    var next := IssueReduce(S, rank, r, op);
    if op.ReduceSamples? && S.owner[S.list[j]] != r {
      SumsWithout(S, r, rank, next, j);
    } else {
      SumsKept(S, r, rank, next);
    }
  }

  lemma {:induction false} IssueReduceOk(S: Setting, r: nat, rank: Rank)
    requires S.Valid() && r < S.worldSize && RankOk(S, r, rank)
    requires rank.pc.Reducing? && rank.pc.i < 2 * |S.list|
    ensures var op := S.Ops()[rank.pc.i];
            !op.Broadcast? && op.m in rank.hessians && op.m in rank.samples && op.m in S.owner
            && RankOk(S, r, IssueReduce(S, rank, r, op))
  {
    var i, op := rank.pc.i, S.Ops()[rank.pc.i];
    ReduceOpsAt(S, i / 2);
    IssueReduceSums(S, r, rank, i / 2, op);
    var next := IssueReduce(S, rank, r, op);
    hide SumsOk, PayloadOk, Setting.Valid, Setting.Ops;
    assert PcOk(S, r, next) && IssuesOk(S, r, next) by {
      hide ParamsOk;
      IssueAdded(S, r, rank, next, next.issued[i].payload);
    }
    assert ParamsOk(S, r, next) by {
      hide IssuesOk;
      ParamsKept(S, r, rank, next);
    }
  }

  lemma {:induction false} IssueBroadcastOk(S: Setting, r: nat, rank: Rank)
    requires S.Valid() && r < S.worldSize && RankOk(S, r, rank)
    requires rank.pc.Broadcasting? && 2 * |S.list| + rank.pc.i < |S.Ops()|
    ensures var op := S.Ops()[2 * |S.list| + rank.pc.i];
            op.Broadcast? && op.m in rank.params && op.attr in rank.params[op.m]
    ensures RankOk(S, r, IssueBroadcast(S, rank))
  {
    hide IssuesOk, SumsOk, ParamsOk, PayloadOk;
    BroadcastPayload(S, r, rank);
    var next := IssueBroadcast(S, rank);
    IssueAdded(S, r, rank, next, next.issued[2 * |S.list| + rank.pc.i].payload);
    ParamsKept(S, r, rank, next);
    SumsKept(S, r, rank, next);
  }

  lemma {:induction false} OwnerHasFinal(S: Setting, r: nat, rank: Rank, m: ModuleId)
    requires S.Valid() && r < S.worldSize && m in S.list && m in rank.params && ModuleOk(S, r, rank, m)
    requires S.owner[m] == r && rank.compressed == S.mine[r]
    ensures rank.params[m] == S.Final(m)
  {
  }

  lemma {:induction false} HasAttribute(S: Setting, r: nat, rank: Rank, m: ModuleId, a: string)
    requires S.Valid() && r < S.worldSize && m in S.list && m in rank.params && ModuleOk(S, r, rank, m)
             && a in S.params[m]
    ensures a in rank.params[m] && a in S.Final(m)
  {
    FinalKeys(S, m);
  }

  lemma {:induction false} IssuedLength(S: Setting, r: nat, rank: Rank)
    requires S.Valid() && r < S.worldSize && IssuesOk(S, r, rank)
    ensures |rank.issued| == IssuedCount(S, rank.pc)
  {
  }

  /** What a rank broadcasts is an attribute of a module it owns, as compression left it, or one it will receive. */
  lemma {:induction false} BroadcastPayload(S: Setting, r: nat, rank: Rank)
    requires S.Valid() && r < S.worldSize && PcOk(S, r, rank) && IssuesOk(S, r, rank) && ParamsOk(S, r, rank)
    requires rank.pc.Broadcasting? && 2 * |S.list| + rank.pc.i < |S.Ops()|
    ensures |rank.issued| == 2 * |S.list| + rank.pc.i
    ensures var op := S.Ops()[|rank.issued|];
            && op.Broadcast? && op.m in rank.params && op.attr in rank.params[op.m]
            && PayloadOk(S, r, op, Attribute(rank.params[op.m][op.attr]))
  {
    hide IssuesOk, ModuleOk, Setting.BroadcastOps;
    var op := S.Ops()[2 * |S.list| + rank.pc.i];
    IssuedLength(S, r, rank);
    BroadcastOpsAt(S, |S.list|, rank.pc.i);
    assert op == S.BroadcastOps(|S.list|)[rank.pc.i];
    HasAttribute(S, r, rank, op.m, op.attr);
    if S.owner[op.m] == r {
      OwnerHasFinal(S, r, rank, op.m);
    }
  }

  lemma {:induction false} PassWaitOk(S: Setting, s: State, r: nat)
    requires S.Valid() && |s| == S.worldSize && r < |s| && RankOk(S, r, s[r])
    requires Enabled(S, s, r, PassWait)
    ensures RankOk(S, r, Apply(S, s, r, PassWait))
  {
    var rank := s[r];
    var next := Apply(S, s, r, PassWait);
    PassWaitIssues(S, s, r, next);
    hide IssuesOk, PcOk, Enabled, HeldHessian, HeldSamples, Setting.Ops;
    assert SumsOk(S, r, next) by {
      hide ParamsOk, SumsOk;
      PassWaitKeeps(S, s, r, next);
      SumsKept(S, r, rank, next);
    }
    assert ParamsOk(S, r, next) by {
      hide SumsOk;
      PassWaitParams(S, r, rank, next);
    }
  }

  lemma {:induction false} PassWaitIssues(S: Setting, s: State, r: nat, next: Rank)
    requires S.Valid() && |s| == S.worldSize && r < |s| && RankOk(S, r, s[r])
    requires Enabled(S, s, r, PassWait) && next == Apply(S, s, r, PassWait)
    ensures PcOk(S, r, next) && IssuesOk(S, r, next)
    ensures next.done == s[r].done && next.hessians == s[r].hessians && next.samples == s[r].samples
    ensures next.params == s[r].params && next.compressed == s[r].compressed
    ensures if s[r].pc.Reducing? then next.pc == Compressing(0)
            else if s[r].pc.Compressing? then s[r].pc.i == |S.mine[r]| && next.pc == Broadcasting(0)
            else s[r].pc.Broadcasting? && next.pc == Finished
  {
    hide SumsOk, ParamsOk, PayloadOk, Setting.Ops;
    assert IssuedCount(S, next.pc) == IssuedCount(S, s[r].pc);
  }

  lemma {:induction false} PassWaitKeeps(S: Setting, s: State, r: nat, next: Rank)
    requires S.Valid() && |s| == S.worldSize && r < |s| && RankOk(S, r, s[r]) && PcOk(S, r, next)
    requires Enabled(S, s, r, PassWait) && next == Apply(S, s, r, PassWait)
    ensures forall q :: 0 <= q < |S.list| ==> (Keeps(S, r, s[r].pc, q) <==> Keeps(S, r, next.pc, q))
  {
    hide SumsOk, ParamsOk, IssuesOk;
    assert S.mine[r][..|S.mine[r]|] == S.mine[r];
    forall q | 0 <= q < |S.list|
      ensures Keeps(S, r, s[r].pc, q) <==> Keeps(S, r, next.pc, q)
    {
      assert S.list[q] in S.list;
    }
  }

  lemma {:induction false} PassWaitParams(S: Setting, r: nat, rank: Rank, next: Rank)
    requires S.Valid() && r < S.worldSize && PcOk(S, r, rank) && PcOk(S, r, next) && ParamsOk(S, r, rank)
    requires next.params == rank.params && next.done == rank.done && next.compressed == rank.compressed
    requires if rank.pc.Reducing? then next.pc == Compressing(0)
             else if rank.pc.Compressing? then rank.pc.i == |S.mine[r]| && next.pc == Broadcasting(0)
             else rank.pc.Broadcasting? && next.pc == Finished
    ensures ParamsOk(S, r, next)
  {
    hide Setting.Ops, Setting.Final, Received;
    assert S.mine[r][..|S.mine[r]|] == S.mine[r] && S.mine[r][..0] == [];
    forall p | p in S.list
      ensures ModuleOk(S, r, next, p)
    {
      assert ModuleOk(S, r, rank, p);
    }
  }

  /** Compressing the i-th module of the rank stops it, and no other, from being kept. */
  lemma {:induction false} KeepsNext(S: Setting, r: nat, i: nat, j: nat)
    requires S.Valid() && r < S.worldSize && i < |S.mine[r]| && j < |S.list| && S.list[j] == S.mine[r][i]
    ensures !Keeps(S, r, Compressing(i + 1), j)
    ensures forall q :: 0 <= q < |S.list| && q != j ==>
              (Keeps(S, r, Compressing(i), q) <==> Keeps(S, r, Compressing(i + 1), q))
  {
    assert S.mine[r][..i + 1] == S.mine[r][..i] + [S.mine[r][i]];
    forall q | 0 <= q < |S.list| && q != j
      ensures S.list[q] != S.list[j]
    {
    }
  }

  lemma {:induction false} CompressNextSums(S: Setting, r: nat, rank: Rank)
    requires S.Valid() && r < S.worldSize && RankOk(S, r, rank)
    requires rank.pc.Compressing? && rank.pc.i < |S.mine[r]|
    ensures var m := S.mine[r][rank.pc.i];
            && m in S.list && S.owner[m] == r && m !in S.mine[r][..rank.pc.i]
            && m in rank.hessians && rank.hessians[m] == S.TotalHessian(m, S.worldSize)
            && m in rank.samples && rank.samples[m] == S.TotalSamples(m, S.worldSize)
            && m in rank.params && SumsOk(S, r, CompressOne(rank, m, S.quantize))
  {
    var i, m := rank.pc.i, S.mine[r][rank.pc.i];
    var j := MineListed(S, r, i);
    HeldWhenCompressing(S, r, rank, j);
    hide Setting.Valid, IssuesOk, HeldHessian, HeldSamples, Setting.TotalHessian, Setting.TotalSamples, SumsOk, ModuleOk,
      Setting.Final, Setting.Ops;
    KeepsNext(S, r, i, j);
    SumsWithout(S, r, rank, CompressOne(rank, m, S.quantize), j);
  }

  lemma {:induction false} MineListed(S: Setting, r: nat, i: nat) returns (j: nat)
    requires S.Valid() && r < S.worldSize && i < |S.mine[r]|
    ensures var m := S.mine[r][i];
            && j < |S.list| && S.list[j] == m && m in S.list && m in S.params && m in S.owner && S.owner[m] == r
            && m !in S.mine[r][..i]
  {
    var m := S.mine[r][i];
    assert m in S.mine[r] && m in S.list;
    PrefixNext(S.mine[r], i);
    j :| 0 <= j < |S.list| && S.list[j] == m;
  }

  lemma {:induction false} HeldWhenCompressing(S: Setting, r: nat, rank: Rank, j: nat)
    requires S.Valid() && r < S.worldSize && RankOk(S, r, rank) && rank.pc.Compressing? && j < |S.list|
    requires S.owner[S.list[j]] == r && S.list[j] !in S.mine[r][..rank.pc.i]
    ensures var m := S.list[j];
            && m in S.list && m in rank.params
            && m in rank.hessians && rank.hessians[m] == S.TotalHessian(m, S.worldSize)
            && m in rank.samples && rank.samples[m] == S.TotalSamples(m, S.worldSize)
  {
    hide IssuesOk, Setting.TotalHessian, Setting.TotalSamples, ModuleOk;
    assert SumOk(S, r, rank, j);
    assert S.list[j] in S.list;
  }

  lemma {:induction false} PrefixNext<T>(s: seq<T>, i: nat)
    requires i < |s| && Distinct(s)
    ensures s[..i + 1] == s[..i] + [s[i]] && s[i] !in s[..i]
  {
  }

  lemma {:induction false} CompressNextOk(S: Setting, r: nat, rank: Rank)
    requires S.Valid() && r < S.worldSize && RankOk(S, r, rank)
    requires rank.pc.Compressing? && rank.pc.i < |S.mine[r]|
    ensures var m := S.mine[r][rank.pc.i];
            m in rank.hessians && m in rank.samples && m in rank.params
            && RankOk(S, r, CompressOne(rank, m, S.quantize))
  {
    hide IssuesOk, SumsOk, ParamsOk, PayloadOk, Setting.TotalHessian, Setting.TotalSamples, Setting.Final;
    var i, m := rank.pc.i, S.mine[r][rank.pc.i];
    CompressNextSums(S, r, rank);
    CompressedIssues(S, r, rank, m);
    PrefixNext(S.mine[r], i);
    hide Setting.Valid;
    CompressedParams(S, r, rank, i, m);
  }

  lemma {:induction false} CompressedIssues(S: Setting, r: nat, rank: Rank, m: ModuleId)
    requires S.Valid() && r < S.worldSize && PcOk(S, r, rank) && IssuesOk(S, r, rank)
    requires rank.pc.Compressing? && rank.pc.i < |S.mine[r]|
    requires m in rank.hessians && m in rank.samples && m in rank.params
    ensures PcOk(S, r, CompressOne(rank, m, S.quantize)) && IssuesOk(S, r, CompressOne(rank, m, S.quantize))
  {
    hide Setting.Valid, PayloadOk, Setting.Ops;
  }

  lemma {:induction false} CompressedParams(S: Setting, r: nat, rank: Rank, i: nat, m: ModuleId)
    requires S.Valid() && r < S.worldSize && PcOk(S, r, rank) && ParamsOk(S, r, rank)
    requires rank.pc == Compressing(i) && i < |S.mine[r]| && m == S.mine[r][i] && m in S.list && S.owner[m] == r
    requires S.mine[r][..i + 1] == S.mine[r][..i] + [m] && m !in S.mine[r][..i] && m in rank.params
    requires m in rank.hessians && rank.hessians[m] == S.TotalHessian(m, S.worldSize)
    requires m in rank.samples && rank.samples[m] == S.TotalSamples(m, S.worldSize)
    requires PcOk(S, r, CompressOne(rank, m, S.quantize))
    ensures ParamsOk(S, r, CompressOne(rank, m, S.quantize))
  {
    var next := CompressOne(rank, m, S.quantize);
    CompressedModule(S, r, rank, m);
    forall p | p in S.list && p != m
      ensures ModuleOk(S, r, next, p)
    {
      assert ModuleOk(S, r, rank, p);
      assert p in next.compressed <==> p in rank.compressed;
    }
  }

  lemma {:induction false} CompressedModule(S: Setting, r: nat, rank: Rank, m: ModuleId)
    requires S.Valid() && r < S.worldSize && PcOk(S, r, rank) && ParamsOk(S, r, rank)
    requires rank.pc.Compressing? && m in S.list && S.owner[m] == r && m !in rank.compressed
    requires m in rank.hessians && rank.hessians[m] == S.TotalHessian(m, S.worldSize)
    requires m in rank.samples && rank.samples[m] == S.TotalSamples(m, S.worldSize)
    ensures ModuleOk(S, r, CompressOne(rank, m, S.quantize), m)
  {
    assert ModuleOk(S, r, rank, m);
  }

  lemma {:induction false} OpKind(S: Setting, k: nat) returns (j: nat)
    requires S.Valid() && k < |S.Ops()|
    ensures S.Ops()[k].m in S.list
    ensures S.Ops()[k].ReduceHessian? ==> j < |S.list| && S.list[j] == S.Ops()[k].m && k == 2 * j
    ensures S.Ops()[k].ReduceSamples? ==> j < |S.list| && S.list[j] == S.Ops()[k].m && k == 2 * j + 1
    ensures S.Ops()[k].Broadcast? ==> k >= 2 * |S.list| && S.Ops()[k].attr in S.params[S.Ops()[k].m]
  {
    j := k / 2;
    if k < 2 * |S.list| {
      ReduceOpsAt(S, j);
    } else {
      BroadcastOpsAt(S, |S.list|, k - 2 * |S.list|);
      assert S.Ops()[k] == S.BroadcastOps(|S.list|)[k - 2 * |S.list|];
    }
  }

  lemma {:induction false} IssuedPayload(S: Setting, s: State, q: nat, k: nat, op: Collective)
    requires S.Valid() && Inv(S, s) && q < |s| && IssuedBy(s, q, k, op)
    ensures k < |S.Ops()| && op == S.Ops()[k] && PayloadOk(S, q, op, s[q].issued[k].payload)
  {
    assert RankOk(S, q, s[q]);
  }

  lemma {:induction false} HessiansAddUp(S: Setting, s: State, k: nat, op: Collective, ranks: nat)
    requires S.Valid() && |s| == S.worldSize && ranks <= |s| && op.ReduceHessian? && op.m in S.list
    requires forall q :: 0 <= q < |s| ==> IssuedBy(s, q, k, op) && PayloadOk(S, q, op, s[q].issued[k].payload)
    ensures SumHessians(s, S.columns(op.m), k, op, ranks) == S.TotalHessian(op.m, ranks)
  {
    if ranks > 0 {
      HessiansAddUp(S, s, k, op, ranks - 1);
      assert IssuedBy(s, ranks - 1, k, op) && PayloadOk(S, ranks - 1, op, s[ranks - 1].issued[k].payload);
    }
  }

  lemma {:induction false} CountsAddUp(S: Setting, s: State, k: nat, op: Collective, ranks: nat)
    requires S.Valid() && |s| == S.worldSize && ranks <= |s| && op.ReduceSamples? && op.m in S.list
    requires forall q :: 0 <= q < |s| ==> IssuedBy(s, q, k, op) && PayloadOk(S, q, op, s[q].issued[k].payload)
    ensures SumCounts(s, k, op, ranks) == S.TotalSamples(op.m, ranks)
  {
    if ranks > 0 {
      CountsAddUp(S, s, k, op, ranks - 1);
      assert IssuedBy(s, ranks - 1, k, op) && PayloadOk(S, ranks - 1, op, s[ranks - 1].issued[k].payload);
    }
  }

  lemma {:induction false} StillReducing(S: Setting, r: nat, rank: Rank, k: nat)
    requires S.Valid() && r < S.worldSize && PcOk(S, r, rank)
    requires k < 2 * |S.list| && k !in rank.done
    ensures rank.pc.Reducing?
  {
  }

  /** Finishing a collective leaves what is recorded about every other collective. */
  lemma {:induction false} DoneAdded(S: Setting, r: nat, rank: Rank, next: Rank, k: nat)
    requires S.Valid() && r < S.worldSize && RankOk(S, r, rank) && k < |rank.issued|
    requires next.done == rank.done + {k} && next.pc == rank.pc && next.issued == rank.issued
    ensures PcOk(S, r, next) && IssuesOk(S, r, next)
  {
    hide Setting.Valid, SumsOk, ParamsOk, PayloadOk, Setting.Ops;
  }

  lemma {:induction false} CompleteReduceSums(S: Setting, r: nat, rank: Rank, next: Rank, k: nat, j: nat)
    requires S.Valid() && r < S.worldSize && PcOk(S, r, rank) && SumsOk(S, r, rank) && PcOk(S, r, next)
    requires j < |S.list| && (k == 2 * j || k == 2 * j + 1) && k !in rank.done
    requires next.done == rank.done + {k} && next.pc == rank.pc
    requires var m := S.list[j];
             && next.hessians == (if S.owner[m] == r && k == 2 * j
                                  then rank.hessians[m := S.TotalHessian(m, S.worldSize)] else rank.hessians)
             && next.samples == (if S.owner[m] == r && k == 2 * j + 1
                                 then rank.samples[m := S.TotalSamples(m, S.worldSize)] else rank.samples)
    ensures SumsOk(S, r, next)
  {
    StillReducing(S, r, rank, k);
    Listed(S, j);
    hide Setting.Valid, HeldHessian, HeldSamples, Setting.TotalHessian, Setting.TotalSamples;
    forall q | 0 <= q < |S.list|
      ensures SumOk(S, r, next, q)
    {
      assert SumOk(S, r, rank, q);
      if q != j {
        assert S.list[q] != S.list[j];
        HeldUnchanged(S, r, rank.done, k, q);
        SumUnchanged(S, r, rank, next, q);
      } else {
        SumCompleted(S, r, rank, next, k, j);
      }
    }
  }

  lemma {:induction false} HeldUnchanged(S: Setting, r: nat, done: set<nat>, k: nat, q: nat)
    requires S.Valid() && r < S.worldSize && q < |S.list| && k != 2 * q && k != 2 * q + 1
    ensures HeldHessian(S, r, done + {k}, q) == HeldHessian(S, r, done, q)
    ensures HeldSamples(S, r, done + {k}, q) == HeldSamples(S, r, done, q)
  {
  }

  lemma {:induction false} SumUnchanged(S: Setting, r: nat, rank: Rank, next: Rank, q: nat)
    requires S.Valid() && r < S.worldSize && q < |S.list| && PcOk(S, r, rank) && PcOk(S, r, next)
    requires SumOk(S, r, rank, q) && next.pc == rank.pc
    requires HeldHessian(S, r, next.done, q) == HeldHessian(S, r, rank.done, q)
    requires HeldSamples(S, r, next.done, q) == HeldSamples(S, r, rank.done, q)
    requires var m := S.list[q];
             && (m in rank.hessians <==> m in next.hessians) && (m in rank.samples <==> m in next.samples)
             && (m in rank.hessians ==> rank.hessians[m] == next.hessians[m])
             && (m in rank.samples ==> rank.samples[m] == next.samples[m])
    ensures SumOk(S, r, next, q)
  {
  }

  lemma {:induction false} SumCompleted(S: Setting, r: nat, rank: Rank, next: Rank, k: nat, j: nat)
    requires S.Valid() && r < S.worldSize && j < |S.list| && PcOk(S, r, rank) && PcOk(S, r, next)
    requires SumOk(S, r, rank, j) && next.pc == rank.pc && rank.pc.Reducing?
    requires (k == 2 * j || k == 2 * j + 1) && next.done == rank.done + {k}
    requires var m := S.list[j];
             && next.hessians == (if S.owner[m] == r && k == 2 * j
                                  then rank.hessians[m := S.TotalHessian(m, S.worldSize)] else rank.hessians)
             && next.samples == (if S.owner[m] == r && k == 2 * j + 1
                                 then rank.samples[m := S.TotalSamples(m, S.worldSize)] else rank.samples)
    ensures SumOk(S, r, next, j)
  {
  }

  lemma {:induction false} ReduceKeepsParams(S: Setting, r: nat, rank: Rank, next: Rank, k: nat)
    requires S.Valid() && r < S.worldSize && PcOk(S, r, rank) && ParamsOk(S, r, rank) && PcOk(S, r, next)
    requires k < |S.Ops()| && !S.Ops()[k].Broadcast?
    requires next.done == rank.done + {k} && next.pc == rank.pc
    requires next.params == rank.params && next.compressed == rank.compressed
    ensures ParamsOk(S, r, next)
  {
    hide Received, Setting.Final, Setting.Ops;
    forall p | p in S.list
      ensures ModuleOk(S, r, next, p)
    {
      assert ModuleOk(S, r, rank, p);
      forall a
        ensures Received(S, next.done, p, a) <==> Received(S, rank.done, p, a)
      {
        ReceivedGrows(S, rank.done, k, p, a);
      }
    }
  }

  /** What the owner receives from a reduce is the total over all ranks. */
  lemma {:induction false} ReduceDelivers(S: Setting, s: State, r: nat, k: nat)
    requires S.Valid() && Inv(S, s) && r < |s| && k < |s[r].issued| && Ready(S, s, r, k)
    requires S.owner[s[r].issued[k].op.m] == r
    ensures var op := s[r].issued[k].op;
            && (op.ReduceHessian? ==> SumHessians(s, S.columns(op.m), k, op, |s|) == S.TotalHessian(op.m, |s|))
            && (op.ReduceSamples? ==> SumCounts(s, k, op, |s|) == S.TotalSamples(op.m, |s|))
  {
    var op := s[r].issued[k].op;
    forall q | 0 <= q < |s| && IssuedBy(s, q, k, op)
      ensures PayloadOk(S, q, op, s[q].issued[k].payload)
    {
      IssuedPayload(S, s, q, k, op);
    }
    if op.ReduceHessian? {
      HessiansAddUp(S, s, k, op, |s|);
    } else if op.ReduceSamples? {
      CountsAddUp(S, s, k, op, |s|);
    }
  }

  lemma {:induction false} CompleteReduceOk(S: Setting, s: State, r: nat, k: nat)
    requires S.Valid() && |s| == S.worldSize && r < |s| && RankOk(S, r, s[r])
    requires k < |s[r].issued| && k !in s[r].done && Ready(S, s, r, k)
    requires var op := s[r].issued[k].op;
             && !op.Broadcast?
             && (S.owner[op.m] == r ==>
                   && (op.ReduceHessian? ==> SumHessians(s, S.columns(op.m), k, op, |s|) == S.TotalHessian(op.m, |s|))
                   && (op.ReduceSamples? ==> SumCounts(s, k, op, |s|) == S.TotalSamples(op.m, |s|)))
    ensures RankOk(S, r, CompleteCollective(S, s, r, k))
  {
    var j := OpKind(S, k);
    var next := CompleteCollective(S, s, r, k);
    DoneAdded(S, r, s[r], next, k);
    hide SumsOk, ParamsOk, PayloadOk, Setting.TotalHessian, Setting.TotalSamples, SumHessians, SumCounts;
    CompleteReduceSums(S, r, s[r], next, k, j);
    ReduceKeepsParams(S, r, s[r], next, k);
  }

  lemma {:induction false} CompleteBroadcastSums(S: Setting, r: nat, rank: Rank, next: Rank, k: nat)
    requires S.Valid() && r < S.worldSize && RankOk(S, r, rank) && PcOk(S, r, next)
    requires 2 * |S.list| <= k && next.done == rank.done + {k} && next.pc == rank.pc
    requires next.hessians == rank.hessians && next.samples == rank.samples
    ensures SumsOk(S, r, next)
  {
    forall q | 0 <= q < |S.list|
      ensures SumOk(S, r, next, q)
    {
      assert SumOk(S, r, rank, q);
      HeldUnchanged(S, r, rank.done, k, q);
      SumUnchanged(S, r, rank, next, q);
    }
  }

  lemma {:induction false} CompleteBroadcastModule(S: Setting, r: nat, rank: Rank, next: Rank, k: nat, p: ModuleId)
    requires S.Valid() && r < S.worldSize && p in S.list && p in rank.params && ModuleOk(S, r, rank, p)
    requires k < |S.Ops()| && S.Ops()[k].Broadcast? && S.Ops()[k].m in S.list
    requires S.Ops()[k].m in rank.params && S.Ops()[k].attr in S.Final(S.Ops()[k].m)
    requires next.done == rank.done + {k} && next.compressed == rank.compressed
    requires var Broadcast(m, a) := S.Ops()[k];
             next.params == if S.owner[m] == r then rank.params
                            else rank.params[m := rank.params[m][a := S.Final(m)[a]]]
    ensures p in next.params && ModuleOk(S, r, next, p)
  {
    hide Setting.Ops, Received, Setting.Final;
    forall a
      ensures Received(S, next.done, p, a) <==> Received(S, rank.done, p, a) || S.Ops()[k] == Broadcast(p, a)
    {
      ReceivedGrows(S, rank.done, k, p, a);
    }
  }

  lemma {:induction false} ReceivedGrows(S: Setting, done: set<nat>, k: nat, p: ModuleId, a: string)
    requires S.Valid() && k < |S.Ops()|
    ensures Received(S, done + {k}, p, a) <==> Received(S, done, p, a) || S.Ops()[k] == Broadcast(p, a)
  {
    var more := done + {k};
    if S.Ops()[k] == Broadcast(p, a) {
      assert k in more;
    }
    if q :| q in done && q < |S.Ops()| && S.Ops()[q] == Broadcast(p, a) {
      assert q in more;
    }
  }

  lemma {:induction false} CompleteBroadcastOk(S: Setting, s: State, r: nat, k: nat)
    requires S.Valid() && |s| == S.worldSize && r < |s| && RankOk(S, r, s[r])
    requires k < |s[r].issued| && k !in s[r].done && Ready(S, s, r, k)
    requires var op := s[r].issued[k].op;
             && op.Broadcast? && op.m in s[r].params && op.m in S.list && op.attr in S.Final(op.m)
             && s[S.owner[op.m]].issued[k].payload.value == S.Final(op.m)[op.attr]
    ensures RankOk(S, r, CompleteCollective(S, s, r, k))
  {
    var _ := OpKind(S, k);
    var next := CompleteCollective(S, s, r, k);
    DoneAdded(S, r, s[r], next, k);
    CompleteBroadcastSums(S, r, s[r], next, k);
    hide SumsOk, PayloadOk, ParamsOk;
    CompleteBroadcastParams(S, r, s[r], next, k);
  }

  lemma {:induction false} CompleteBroadcastParams(S: Setting, r: nat, rank: Rank, next: Rank, k: nat)
    requires S.Valid() && r < S.worldSize && PcOk(S, r, rank) && ParamsOk(S, r, rank) && PcOk(S, r, next)
    requires k < |S.Ops()| && S.Ops()[k].Broadcast? && S.Ops()[k].m in S.list
    requires S.Ops()[k].m in rank.params && S.Ops()[k].attr in S.Final(S.Ops()[k].m)
    requires next.done == rank.done + {k} && next.compressed == rank.compressed && next.pc == rank.pc
    requires var Broadcast(m, a) := S.Ops()[k];
             next.params == if S.owner[m] == r then rank.params
                            else rank.params[m := rank.params[m][a := S.Final(m)[a]]]
    ensures ParamsOk(S, r, next)
  {
    hide ModuleOk, Setting.Ops, Setting.Final;
    forall p | p in S.list
      ensures p in next.params && ModuleOk(S, r, next, p)
    {
      CompleteBroadcastModule(S, r, rank, next, k, p);
    }
  }

  lemma {:induction false} CompleteOk(S: Setting, s: State, r: nat, k: nat)
    requires S.Valid() && Inv(S, s) && r < |s| && Enabled(S, s, r, Complete(k))
    ensures RankOk(S, r, CompleteCollective(S, s, r, k))
  {
    var op := s[r].issued[k].op;
    assert RankOk(S, r, s[r]);
    if op.Broadcast? {
      IssuedPayload(S, s, S.owner[op.m], k, op);
      CompleteBroadcastOk(S, s, r, k);
    } else {
      if S.owner[op.m] == r {
        ReduceDelivers(S, s, r, k);
      }
      CompleteReduceOk(S, s, r, k);
    }
  }

  /** Every action of every rank keeps the invariant. */
  lemma {:induction false} StepKeepsInv(S: Setting, s: State, s': State)
    requires S.Valid() && Inv(S, s) && Step(S, s, s')
    ensures Inv(S, s')
  {
    var r, act :| 0 <= r < |s| && Enabled(S, s, r, act) && s' == s[r := Apply(S, s, r, act)];
    ActionOk(S, s, r, act);
  }

  lemma {:induction false} ActionOk(S: Setting, s: State, r: nat, act: Action)
    requires S.Valid() && Inv(S, s) && r < |s| && Enabled(S, s, r, act)
    ensures RankOk(S, r, Apply(S, s, r, act))
  {
    assert RankOk(S, r, s[r]);
    match act
    case IssueNext =>
      if s[r].pc.Reducing? {
        IssueReduceOk(S, r, s[r]);
      } else {
        IssueBroadcastOk(S, r, s[r]);
      }
    case Complete(k) => CompleteOk(S, s, r, k);
    case PassWait => PassWaitOk(S, s, r);
    case CompressNext => CompressNextOk(S, r, s[r]);
  }
}
