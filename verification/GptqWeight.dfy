/**
  quantize_weight around its column loop: activation ordering, group indices, the sparsity mask, dead columns,
  dampening and the fallback, and the undoing of the ordering at the end.
  */
module GptqWeight {
  import opened Collections
  import opened Sums
  import opened GptqColumns
  import opened GptqObjective
  import GptqReference

  datatype Strategy = PerTensor | PerChannel | PerGroup(groupSize: nat) | PerTensorGroup(groupSize: nat) | Unsupported

  datatype ActivationOrdering = Unordered | OrderGroups | OrderWeights

  /** A scale with its zero point. */
  datatype QParam = QParam(scale: real, zeroPoint: real)

  datatype Outcome =
    | Done(loss: real, weight: Matrix, params: seq<seq<QParam>>, gIdx: Option<seq<nat>>)
    | StrategyError
    | ShapeError

  const SPARSITY_THRESHOLD := 0.05
  const CLOSE_TO_ZERO := 0.00000001

  // ----- Permutations

  ghost predicate IsPermutation(s: seq<nat>, n: nat) {
    && |s| == n
    && (forall k :: 0 <= k < n ==> s[k] < n)
    && (forall j, k :: 0 <= j < k < n ==> s[j] != s[k])
    && (forall c: nat :: c < n ==> c in s)
  }

  /** What torch.argsort(keys, descending=True) may return; the order of equal keys is left open. */
  ghost predicate SortsDescending(s: seq<nat>, keys: seq<real>) {
    IsPermutation(s, |keys|) && forall j, k :: 0 <= j <= k < |s| ==> keys[s[j]] >= keys[s[k]]
  }

  ghost predicate SortsAscending(s: seq<nat>, keys: seq<nat>) {
    IsPermutation(s, |keys|) && forall j, k :: 0 <= j <= k < |s| ==> keys[s[j]] <= keys[s[k]]
  }

  ghost predicate Inverse(inv: seq<nat>, perm: seq<nat>) {
    && |inv| == |perm|
    && (forall c :: 0 <= c < |inv| ==> inv[c] < |perm| && perm[inv[c]] == c)
    && (forall k :: 0 <= k < |perm| ==> perm[k] < |inv| && inv[perm[k]] == k)
  }

  /** torch.argsort(perm) is the inverse of perm. */
  lemma {:induction false} ArgsortInverts(perm: seq<nat>, inv: seq<nat>)
    requires IsPermutation(perm, |perm|) && SortsAscending(inv, perm)
    ensures Inverse(inv, perm)
  {
    var composed := seq(|perm|, k requires 0 <= k < |perm| => perm[inv[k]]);
    forall j, k | 0 <= j < k < |perm|
      ensures composed[j] < composed[k]
    {
      assert perm[inv[j]] <= perm[inv[k]] && inv[j] != inv[k];
      assert perm[inv[j]] != perm[inv[k]];
    }
    forall c | 0 <= c < |perm|
      ensures perm[inv[c]] == c
    {
      IncreasingIsIdentity(composed, c);
    }
    forall k | 0 <= k < |perm|
      ensures inv[perm[k]] == k
    {
      assert perm[inv[perm[k]]] == perm[k];
    }
  }

  lemma {:induction false} IncreasingIsIdentity(s: seq<nat>, c: nat)
    requires c < |s|
    requires forall j, k :: 0 <= j < k < |s| ==> s[j] < s[k]
    requires forall k :: 0 <= k < |s| ==> s[k] < |s|
    ensures s[c] == c
  {
    AtLeastIndex(s, c);
    AtMostIndex(s, c);
  }

  lemma {:induction false} AtLeastIndex(s: seq<nat>, c: nat)
    requires c < |s|
    requires forall j, k :: 0 <= j < k < |s| ==> s[j] < s[k]
    ensures s[c] >= c
  {
    if c > 0 {
      AtLeastIndex(s, c - 1);
    }
  }

  lemma {:induction false} AtMostIndex(s: seq<nat>, c: nat)
    requires c < |s|
    requires forall j, k :: 0 <= j < k < |s| ==> s[j] < s[k]
    requires forall k :: 0 <= k < |s| ==> s[k] < |s|
    ensures s[c] <= c
    decreases |s| - c
  {
    if c + 1 < |s| {
      AtMostIndex(s, c + 1);
    }
  }

  /** invperm = torch.argsort(perm) */
  method Invert(perm: seq<nat>) returns (inv: seq<nat>)
    requires IsPermutation(perm, |perm|)
    ensures Inverse(inv, perm)
  {
    var a := new nat[|perm|];
    for k := 0 to |perm|
      invariant forall i :: 0 <= i < k ==> a[perm[i]] == i
    {
      a[perm[k]] := k;
    }
    inv := a[..];
    forall c: nat | c < |perm|
      ensures inv[c] < |perm| && perm[inv[c]] == c
    {
      assert c in perm;
      var k :| 0 <= k < |perm| && perm[k] == c;
      assert a[perm[k]] == k;
    }
  }

  // ----- Matrix expressions

  function SelectColumns(m: Matrix, columns: seq<nat>): (s: Matrix)
    requires forall r, k :: 0 <= r < |m| && 0 <= k < |columns| ==> columns[k] < |m[r]|
    ensures Shaped(s, |m|, |columns|)
    ensures forall r, k :: 0 <= r < |m| && 0 <= k < |columns| ==> s[r][k] == m[r][columns[k]]
  {
    seq(|m|, r requires 0 <= r < |m| => Select(m[r], columns))
  }

  function Select(row: seq<real>, columns: seq<nat>): (s: seq<real>)
    requires forall k :: 0 <= k < |columns| ==> columns[k] < |row|
    ensures |s| == |columns| && forall k :: 0 <= k < |columns| ==> s[k] == row[columns[k]]
  {
    seq(|columns|, k requires 0 <= k < |columns| => row[columns[k]])
  }

  function SelectRows(m: Matrix, rows: seq<nat>): (s: Matrix)
    requires forall k :: 0 <= k < |rows| ==> rows[k] < |m|
    ensures |s| == |rows| && forall k :: 0 <= k < |rows| ==> s[k] == m[rows[k]]
  {
    seq(|rows|, k requires 0 <= k < |rows| => m[rows[k]])
  }

  function Diagonal(m: Matrix, n: nat): (d: seq<real>)
    requires Shaped(m, n, n)
    ensures |d| == n && forall j :: 0 <= j < n ==> d[j] == m[j][j]
  {
    seq(n, j requires 0 <= j < n => m[j][j])
  }

  function SetDiagonal(m: Matrix, n: nat, d: seq<real>): (s: Matrix)
    requires Shaped(m, n, n) && |d| == n
    ensures Shaped(s, n, n)
    ensures forall i, j :: 0 <= i < n && 0 <= j < n ==> s[i][j] == if i == j then d[i] else m[i][j]
  {
    seq(n, i requires 0 <= i < n => m[i][i := d[i]])
  }

  function Identity(n: nat): (s: Matrix)
    ensures GptqReference.IsIdentity(s, n)
  {
    seq(n, i => seq(n, j => if i == j then 1.0 else 0.0))
  }

  function Flatten(m: Matrix): seq<real> {
    if m == [] then [] else m[0] + Flatten(m[1..])
  }

  function CountZeros(s: seq<real>): nat {
    if s == [] then 0 else CountZeros(s[..|s| - 1]) + (if s[|s| - 1] == 0.0 then 1 else 0)
  }

  function Range(lo: nat, n: nat): (s: seq<nat>)
    ensures |s| == n && forall k :: 0 <= k < n ==> s[k] == lo + k
  {
    seq(n, k requires 0 <= k < n => lo + k)
  }

  // ----- The module being quantized

  /**
    The arguments of quantize_weight with the foreign calls it makes: observe gives the parameters of one group of
    entries, fakeQuantize rounds one entry, factor is the Cholesky chain (None when it raises), and perm is the result of
    argsort on the Hessian's diagonal.
    */
  datatype Setup = Setup(rows: nat, cols: nat, weight: Matrix, hessian: Matrix,
                         strategy: Strategy, actorder: ActivationOrdering, perm: seq<nat>, percdamp: real,
                         observe: seq<real> -> QParam, fakeQuantize: (QParam, real) -> real,
                         factor: Matrix -> Option<Matrix>)
  {
    ghost predicate Valid() {
      && rows >= 1 && cols >= 1
      && Shaped(weight, rows, cols)
      && Shaped(hessian, cols, cols)
      && (Grouped() ==> strategy.groupSize >= 1)
      && SortsDescending(perm, Diagonal(hessian, cols))
      && (forall h: Matrix :: Shaped(h, cols, cols) && factor(h).Some? ==> FactorsInverse(factor(h).value, h, cols))
    }

    predicate Grouped() {
      strategy.PerGroup? || strategy.PerTensorGroup?
    }

    predicate Ordered() {
      Grouped() && actorder != Unordered
    }

    /** The column of the original weight that stands at position k while columns are quantized. */
    function Origin(k: nat): (c: nat)
      requires Valid() && k < cols
      ensures c < cols
    {
      if Ordered() then perm[k] else k
    }

    function OrderedWeight(): (m: Matrix)
      requires Valid()
      ensures Shaped(m, rows, cols)
      ensures forall r, k :: 0 <= r < rows && 0 <= k < cols ==> m[r][k] == weight[r][Origin(k)]
    {
      if Ordered() then SelectColumns(weight, perm) else weight
    }

    function OrderedHessian(): (m: Matrix)
      requires Valid()
      ensures Shaped(m, cols, cols)
      ensures forall i, k :: 0 <= i < cols && 0 <= k < cols ==> m[i][k] == hessian[Origin(i)][Origin(k)]
    {
      if Ordered() then SelectColumns(SelectRows(hessian, perm), perm) else hessian
    }

    // ----- Groups

    /** g_idx as the column loop uses it: the group of position k. */
    function LoopGroup(k: nat): nat
      requires Valid() && Grouped() && k < cols
    {
      if actorder == OrderWeights then perm[k] / strategy.groupSize else k / strategy.groupSize
    }

    /** The weight that the observer is shown. */
    function ObservedWeight(): (m: Matrix)
      requires Valid()
      ensures Shaped(m, rows, cols)
    {
      if Grouped() && actorder == OrderGroups then OrderedWeight() else weight
    }

    /** The parameters the observer computed that position k of row r is quantized with. */
    function QParamAt(r: nat, k: nat): QParam
      requires Valid() && r < rows && k < cols && (Grouped() ==> cols % strategy.groupSize == 0)
    {
      match strategy
      case PerTensor => observe(Flatten(weight))
      case PerChannel => observe(weight[r])
      case PerGroup(size) => GroupQParam(r, LoopGroup(k), size)
      case PerTensorGroup(size) => GroupQParam(r, LoopGroup(k), size)
      case Unsupported => QParam(0.0, 0.0)
    }

    /** Row r of group g, as the observer's reshape lays it out: size consecutive columns. */
    function GroupQParam(r: nat, g: nat, size: nat): QParam
      requires Valid() && r < rows && size >= 1
    {
      if g * size + size <= cols then observe(ObservedWeight()[r][g * size..g * size + size]) else QParam(0.0, 0.0)
    }

    // ----- Preparing the Hessian and the weight

    function FixedHessian(): (m: Matrix)
      requires Valid()
      ensures Shaped(m, cols, cols)
    {
      var d := Diagonal(OrderedHessian(), cols);
      SetDiagonal(OrderedHessian(), cols, seq(cols, j requires 0 <= j < cols => if d[j] == 0.0 then 1.0 else d[j]))
    }

    function DampenedHessian(): (m: Matrix)
      requires Valid()
      ensures Shaped(m, cols, cols)
    {
      var d := Diagonal(FixedHessian(), cols);
      var damp := percdamp * (Total(d) / cols as real);
      SetDiagonal(FixedHessian(), cols, seq(cols, j requires 0 <= j < cols => d[j] + damp))
    }

    predicate Dead(k: nat)
      requires Valid() && k < cols
    {
      OrderedHessian()[k][k] == 0.0
    }

    function LiveWeight(): (m: Matrix)
      requires Valid()
      ensures Shaped(m, rows, cols)
      ensures forall r, k :: 0 <= r < rows && 0 <= k < cols ==>
                m[r][k] == if Dead(k) then 0.0 else weight[r][Origin(k)]
    {
      seq(rows, r requires 0 <= r < rows =>
        seq(cols, k requires 0 <= k < cols => if Dead(k) then 0.0 else OrderedWeight()[r][k]))
    }

    function PreservesZeros(): bool
      requires Valid()
    {
      CountZeros(Flatten(OrderedWeight())) as real >= SPARSITY_THRESHOLD * (rows as real * cols as real)
    }

    function NonZeroMask(): (m: Matrix)
      requires Valid()
      ensures Shaped(m, rows, cols)
      ensures forall r, k :: 0 <= r < rows && 0 <= k < cols && weight[r][Origin(k)] == 0.0 ==> m[r][k] == 0.0
    {
      seq(rows, r requires 0 <= r < rows =>
        seq(cols, k requires 0 <= k < cols =>
          if -CLOSE_TO_ZERO <= OrderedWeight()[r][k] <= CLOSE_TO_ZERO then 0.0 else 1.0))
    }

    /** What the column loop is run on. */
    function ColumnProblem(): (p: Problem)
      requires Valid() && (Grouped() ==> cols % strategy.groupSize == 0)
      ensures p.Valid() && p.rows == rows && p.cols == cols
      ensures forall r, k, x :: 0 <= r < rows && 0 <= k < cols ==>
                p.quantize(r, k, x) == fakeQuantize(QParamAt(r, k), x)
    {
      var u := factor(DampenedHessian());
      Problem(rows, cols, LiveWeight(), if PreservesZeros() then Some(NonZeroMask()) else None,
              if u.Some? then u.value else Identity(cols),
              (r, k, x) => if 0 <= r < rows && 0 <= k < cols then fakeQuantize(QParamAt(r, k), x) else x)
    }

    // ----- The result

    /** What weight_g_idx may be returned as: the group of every original column when groups were ordered. */
    ghost predicate ReturnsGroups(gIdx: Option<seq<nat>>)
      requires Valid()
    {
      if Grouped() && actorder == OrderGroups then
        && gIdx.Some? && |gIdx.value| == cols
        && forall k :: 0 <= k < cols ==>
             gIdx.value[Origin(k)] == k / strategy.groupSize
      else
        gIdx.None?
    }

    /** The group a reader of the compressed module assigns to column c. */
    ghost function GroupOfColumn(gIdx: Option<seq<nat>>, c: nat): nat
      requires Valid() && Grouped() && ReturnsGroups(gIdx) && c < cols
    {
      if gIdx.Some? then gIdx.value[c] else c / strategy.groupSize
    }

    /** weight_scale and weight_zero_point: one row, or a row for every row, with one column, or a column for every group. */
    function ParamTable(): (t: seq<seq<QParam>>)
      requires Valid() && !strategy.Unsupported? && (Grouped() ==> cols % strategy.groupSize == 0)
      ensures if strategy.PerTensor? then |t| == 1 && |t[0]| == 1
              else |t| == rows && forall r :: 0 <= r < rows ==> |t[r]| == if Grouped() then cols / strategy.groupSize else 1
    {
      match strategy
      case PerTensor => [[observe(Flatten(weight))]]
      case PerChannel => seq(rows, r requires 0 <= r < rows => [observe(weight[r])])
      case PerGroup(size) => GroupTable(size)
      case PerTensorGroup(size) => GroupTable(size)
    }

    function GroupTable(size: nat): (t: seq<seq<QParam>>)
      requires Valid() && size >= 1
      ensures |t| == rows && forall r :: 0 <= r < rows ==> |t[r]| == cols / size
      ensures forall r, g :: 0 <= r < rows && 0 <= g < cols / size ==> t[r][g] == GroupQParam(r, g, size)
    {
      seq(rows, r requires 0 <= r < rows => seq(cols / size, g requires 0 <= g < cols / size => GroupQParam(r, g, size)))
    }

    /** The parameters that a reader of the compressed module takes for the entry at row r and column c. */
    ghost function ParamRead(table: seq<seq<QParam>>, gIdx: Option<seq<nat>>, r: nat, c: nat): Option<QParam>
      requires Valid() && ReturnsGroups(gIdx) && r < rows && c < cols
    {
      var row := if strategy.PerTensor? then 0 else r;
      var column := if Grouped() then GroupOfColumn(gIdx, c) else 0;
      if row < |table| && column < |table[row]| then Some(table[row][column]) else None
    }

    /** Group g lies within the columns. */
    predicate IsGroup(g: nat)
      requires Grouped()
    {
      (g + 1) * strategy.groupSize <= cols
    }

    /** The original column at position k when the observer looks at the weight. */
    function ColumnAt(k: nat): (c: nat)
      requires Valid()
      ensures k < cols ==> c < cols
    {
      if actorder == OrderGroups && k < |perm| then perm[k] else k
    }

    /** The parameters observed on row r of the columns of group g. */
    ghost function ObservedOn(r: nat, g: nat): QParam
      requires Valid() && Grouped() && IsGroup(g) && r < rows
    {
      observe(Select(weight[r], ColumnsObserved(g)))
    }

    /** The first position of group g. */
    function Start(g: nat): (lo: nat)
      requires Valid() && Grouped()
      ensures IsGroup(g) ==> lo + strategy.groupSize <= cols
    {
      assert (g + 1) * strategy.groupSize == g * strategy.groupSize + strategy.groupSize;
      g * strategy.groupSize
    }

    /** The original columns whose entries the observer saw as group g. */
    ghost function ColumnsObserved(g: nat): (columns: seq<nat>)
      requires Valid() && Grouped() && IsGroup(g)
      ensures |columns| == strategy.groupSize
      ensures forall t :: 0 <= t < |columns| ==> columns[t] < cols
      ensures forall t :: 0 <= t < |columns| ==> columns[t] == ColumnAt(Start(g) + t)
    {
      var lo, size := Start(g), strategy.groupSize;
      if actorder == OrderGroups then perm[lo..lo + size] else seq(size, t requires 0 <= t < size => lo + t)
    }
  }

  lemma {:induction false} ProductMonotone(a: nat, b: nat, size: nat)
    requires a <= b
    ensures a * size <= b * size
  {
  }

  lemma {:induction false} DivisionBounds(k: nat, size: nat, n: nat)
    requires size >= 1 && k < n && n % size == 0
    ensures var g := k / size;
            && g * size <= k < g * size + size
            && (g + 1) * size == g * size + size <= n
  {
    var g, m := k / size, n / size;
    assert n == m * size;
    if g + 1 <= m {
      ProductMonotone(g + 1, m, size);
    } else {
      ProductMonotone(m, g, size);
    }
  }

  lemma {:induction false} DivisionUnique(k: nat, size: nat, g: nat)
    requires size >= 1 && g * size <= k < g * size + size
    ensures k / size == g
  {
    var q := k / size;
    assert q * size <= k < q * size + size;
    if q < g {
      ProductMonotone(q + 1, g, size);
    } else if g < q {
      ProductMonotone(g + 1, q, size);
    }
  }

  /** The parameters of a group come from exactly the columns that the returned index puts into that group. */
  lemma {:induction false} GroupMembers(s: Setup, gIdx: Option<seq<nat>>, g: nat, c: nat)
    requires s.Valid() && s.Grouped() && s.cols % s.strategy.groupSize == 0
    requires s.ReturnsGroups(gIdx) && s.IsGroup(g) && c < s.cols
    ensures c in s.ColumnsObserved(g) <==> s.GroupOfColumn(gIdx, c) == g
  {
    var size := s.strategy.groupSize;
    var k := PositionOf(s, c);
    assert s.GroupOfColumn(gIdx, c) == k / size;
    assert c in s.ColumnsObserved(g) <==> g * size <= k < g * size + size by {
      ObservedPositions(s, g, k);
    }
    hide Setup.Valid, Setup.ColumnsObserved, Setup.GroupOfColumn, Setup.ReturnsGroups, Setup.Origin;
    DivisionBounds(k, size, s.cols);
    if g * size <= k < g * size + size {
      DivisionUnique(k, size, g);
    }
  }

  /** The position of original column c when the observer looks at the weight. */
  lemma {:induction false} PositionOf(s: Setup, c: nat) returns (k: nat)
    requires s.Valid() && s.Grouped() && c < s.cols
    ensures k < s.cols && (s.actorder == OrderGroups ==> s.perm[k] == c && s.Origin(k) == c)
    ensures s.actorder != OrderGroups ==> k == c
  {
    if s.actorder == OrderGroups {
      assert c in s.perm;
      k :| 0 <= k < |s.perm| && s.perm[k] == c;
    } else {
      k := c;
    }
  }

  lemma {:induction false} ObservedPositions(s: Setup, g: nat, k: nat)
    requires s.Valid() && s.Grouped() && s.IsGroup(g) && k < s.cols
    ensures var size := s.strategy.groupSize;
            s.ColumnAt(k) in s.ColumnsObserved(g) <==> s.Start(g) <= k < s.Start(g) + size
  {
    var size, columns := s.strategy.groupSize, s.ColumnsObserved(g);
    var lo := s.Start(g);
    forall j, n | 0 <= j < s.cols && 0 <= n < s.cols && s.ColumnAt(j) == s.ColumnAt(n)
      ensures j == n
    {
    }
    hide Setup.ColumnsObserved, Setup.ColumnAt, Setup.Valid, Setup.IsGroup, Setup.Start;
    if lo <= k < lo + size {
      assert columns[k - lo] == s.ColumnAt(k);
    }
    if s.ColumnAt(k) in columns {
      var t :| 0 <= t < |columns| && columns[t] == s.ColumnAt(k);
      assert lo + t == k;
    }
  }

  /**
    Activation ordering is undone consistently: the entry returned for original column c was quantized with the
    parameters observed on row r of exactly the columns in c's group.
    */
  lemma {:induction false} ColumnUsesItsGroup(s: Setup, gIdx: Option<seq<nat>>, r: nat, k: nat)
    requires s.Valid() && s.Grouped() && s.cols % s.strategy.groupSize == 0
    requires s.ReturnsGroups(gIdx) && r < s.rows && k < s.cols
    ensures var p := s.ColumnProblem();
            var g := s.GroupOfColumn(gIdx, s.Origin(k));
            && s.IsGroup(g)
            && p.Quantized(r, k) == s.fakeQuantize(s.ObservedOn(r, g), p.Raw(r, k))
  {
    hide Setup.IsGroup, Setup.ColumnProblem, Setup.QParamAt, Setup.LoopGroup, Setup.GroupOfColumn,
      Setup.ReturnsGroups, Setup.Origin, Setup.ObservedOn;
    LoopGroupReturned(s, gIdx, k);
    LoopGroupParameters(s, r, k);
    QuantizedAt(s, r, k);
  }

  lemma {:induction false} QuantizedAt(s: Setup, r: nat, k: nat)
    requires s.Valid() && (s.Grouped() ==> s.cols % s.strategy.groupSize == 0) && r < s.rows && k < s.cols
    ensures var p := s.ColumnProblem();
            p.Quantized(r, k) == s.fakeQuantize(s.QParamAt(r, k), p.Raw(r, k))
  {
    var p := s.ColumnProblem();
    assert p.Quantized(r, k) == p.quantize(r, k, p.Raw(r, k));
  }

  lemma {:induction false} LoopGroupParameters(s: Setup, r: nat, k: nat)
    requires s.Valid() && s.Grouped() && s.cols % s.strategy.groupSize == 0
    requires r < s.rows && k < s.cols && s.IsGroup(s.LoopGroup(k))
    ensures s.QParamAt(r, k) == s.ObservedOn(r, s.LoopGroup(k))
  {
    ObservedRow(s, r, s.LoopGroup(k));
  }

  lemma {:induction false} LoopGroupReturned(s: Setup, gIdx: Option<seq<nat>>, k: nat)
    requires s.Valid() && s.Grouped() && s.cols % s.strategy.groupSize == 0
    requires s.ReturnsGroups(gIdx) && k < s.cols
    ensures s.LoopGroup(k) == s.GroupOfColumn(gIdx, s.Origin(k))
    ensures s.IsGroup(s.LoopGroup(k))
  {
    DivisionBounds(k, s.strategy.groupSize, s.cols);
    DivisionBounds(s.Origin(k), s.strategy.groupSize, s.cols);
  }

  lemma {:induction false} GroupInTable(g: nat, size: nat, cols: nat)
    requires size >= 1 && cols % size == 0 && (g + 1) * size <= cols
    ensures g < cols / size
  {
    var n := cols / size;
    assert cols == n * size;
    if n <= g {
      ProductMonotone(n + 1, g + 1, size);
    }
  }

  lemma {:induction false} GroupHasColumn(s: Setup, g: nat)
    requires s.Grouped() && s.strategy.groupSize >= 1 && s.cols % s.strategy.groupSize == 0 && s.IsGroup(g)
    ensures g < s.cols / s.strategy.groupSize
  {
    GroupInTable(g, s.strategy.groupSize, s.cols);
  }

  lemma {:induction false} ReadsGroup(s: Setup, gIdx: Option<seq<nat>>, r: nat, c: nat)
    requires s.Valid() && s.Grouped() && s.cols % s.strategy.groupSize == 0 && s.ReturnsGroups(gIdx) && r < s.rows && c < s.cols
    requires s.IsGroup(s.GroupOfColumn(gIdx, c))
    ensures s.ParamRead(s.ParamTable(), gIdx, r, c)
            == Some(s.GroupQParam(r, s.GroupOfColumn(gIdx, c), s.strategy.groupSize))
  {
    GroupHasColumn(s, s.GroupOfColumn(gIdx, c));
    hide Setup.Valid, Setup.ReturnsGroups, Setup.GroupOfColumn, Setup.GroupQParam, Setup.IsGroup;
  }

  lemma {:induction false} ReadsRow(s: Setup, gIdx: Option<seq<nat>>, r: nat, c: nat)
    requires s.Valid() && !s.Grouped() && !s.strategy.Unsupported? && s.ReturnsGroups(gIdx) && r < s.rows && c < s.cols
    ensures s.ParamRead(s.ParamTable(), gIdx, r, c) == Some(s.QParamAt(r, c)) && s.Origin(c) == c
  {
    hide Setup.Valid, Setup.ReturnsGroups, Setup.GroupOfColumn;
  }

  /** Whoever reads the entry back finds, through the returned group index, the parameters that it was quantized with. */
  lemma {:induction false} ReadsItsParameters(s: Setup, gIdx: Option<seq<nat>>, r: nat, k: nat)
    requires s.Valid() && !s.strategy.Unsupported? && (s.Grouped() ==> s.cols % s.strategy.groupSize == 0)
    requires s.ReturnsGroups(gIdx) && r < s.rows && k < s.cols
    ensures s.ParamRead(s.ParamTable(), gIdx, r, s.Origin(k)) == Some(s.QParamAt(r, k))
  {
    hide Setup.Valid, Setup.ReturnsGroups, Setup.GroupOfColumn, Setup.LoopGroup, Setup.GroupQParam, Setup.Origin, Setup.IsGroup,
      Setup.ParamTable, Setup.ParamRead;
    if s.Grouped() {
      LoopGroupReturned(s, gIdx, k);
      ReadsGroup(s, gIdx, r, s.Origin(k));
    } else {
      ReadsRow(s, gIdx, r, k);
    }
  }

  lemma {:induction false} ObservedRow(s: Setup, r: nat, g: nat)
    requires s.Valid() && s.Grouped() && r < s.rows
    requires s.IsGroup(g)
    ensures s.GroupQParam(r, g, s.strategy.groupSize) == s.ObservedOn(r, g)
  {
    var size := s.strategy.groupSize;
    var lo := s.Start(g);
    var row, columns := s.ObservedWeight()[r], s.ColumnsObserved(g);
    forall t | 0 <= t < size
      ensures row[lo + t] == s.weight[r][columns[t]]
    {
      assert s.actorder == OrderGroups ==> row[lo + t] == s.weight[r][s.Origin(lo + t)];
    }
    assert row[lo..lo + size] == Select(s.weight[r], columns);
  }

  /** The value is what fake quantization, with the parameters read for the entry, makes of what reached it. */
  ghost predicate ReadBack(s: Setup, table: seq<seq<QParam>>, gIdx: Option<seq<nat>>, r: nat, k: nat, value: real)
    requires s.Valid() && (s.Grouped() ==> s.cols % s.strategy.groupSize == 0) && s.ReturnsGroups(gIdx)
    requires r < s.rows && k < s.cols
  {
    var q := s.ParamRead(table, gIdx, r, s.Origin(k));
    q.Some? && value == s.fakeQuantize(q.value, s.ColumnProblem().Raw(r, k))
  }

  lemma {:induction false} AllReadBack(s: Setup, gIdx: Option<seq<nat>>)
    requires s.Valid() && !s.strategy.Unsupported? && (s.Grouped() ==> s.cols % s.strategy.groupSize == 0)
    requires s.ReturnsGroups(gIdx)
    ensures forall r, k :: 0 <= r < s.rows && 0 <= k < s.cols ==>
              ReadBack(s, s.ParamTable(), gIdx, r, k, s.ColumnProblem().Quantized(r, k))
  {
    hide Setup.Valid, Setup.ReturnsGroups, Setup.ParamTable, Setup.ParamRead, Setup.ColumnProblem, Setup.QParamAt;
    forall r, k | 0 <= r < s.rows && 0 <= k < s.cols
      ensures ReadBack(s, s.ParamTable(), gIdx, r, k, s.ColumnProblem().Quantized(r, k))
    {
      ReadsItsParameters(s, gIdx, r, k);
      QuantizedAt(s, r, k);
    }
  }

  lemma {:induction false} ValidGives(s: Setup)
    requires s.Valid()
    ensures IsPermutation(s.perm, s.cols) && (s.Grouped() ==> s.strategy.groupSize >= 1)
  {
  }

  lemma {:induction false} NoGroupsReturned(s: Setup)
    requires s.Valid() && !s.Ordered()
    ensures s.ReturnsGroups(None) && forall k :: 0 <= k < s.cols ==> s.Origin(k) == k
  {
  }

  /**
    The loss is that of the column loop, column Origin(k) of the weight is what the column loop made of position k, and
    reading any entry back finds the parameters it was quantized with.
    */
  ghost predicate IsResult(s: Setup, res: Outcome)
    requires s.Valid() && res.Done?
  {
    var Done(loss, weight, params, gIdx) := res;
    && (s.Grouped() ==> s.cols % s.strategy.groupSize == 0)
    && Shaped(weight, s.rows, s.cols) && s.ReturnsGroups(gIdx)
    && !s.strategy.Unsupported? && params == s.ParamTable()
    && loss == s.ColumnProblem().Loss(s.rows)
    && (forall r, k :: 0 <= r < s.rows && 0 <= k < s.cols ==>
          && weight[r][s.Origin(k)] == s.ColumnProblem().Quantized(r, k)
          && ReadBack(s, params, gIdx, r, k, weight[r][s.Origin(k)]))
  }

  lemma {:induction false} ResultReadsBack(s: Setup, Q: Matrix, W: Matrix, gIdx: Option<seq<nat>>)
    requires s.Valid() && !s.strategy.Unsupported? && (s.Grouped() ==> s.cols % s.strategy.groupSize == 0)
    requires s.ReturnsGroups(gIdx) && Shaped(Q, s.rows, s.cols) && Shaped(W, s.rows, s.cols)
    requires forall r, k :: 0 <= r < s.rows && 0 <= k < s.cols ==> Q[r][k] == s.ColumnProblem().Quantized(r, k)
    requires forall r, k :: 0 <= r < s.rows && 0 <= k < s.cols ==> W[r][s.Origin(k)] == Q[r][k]
    ensures IsResult(s, Done(s.ColumnProblem().Loss(s.rows), W, s.ParamTable(), gIdx))
  {
    hide Setup.Valid, Setup.ReturnsGroups, Setup.ParamTable, Setup.ParamRead, Setup.ColumnProblem, Setup.QParamAt,
      Setup.Origin, ReadBack, Problem.Quantized,
      Problem.Loss;
    AllReadBack(s, gIdx);
  }

  method QuantizeWeight(s: Setup, blocksize: nat) returns (res: Outcome)
    requires s.Valid() && blocksize >= 1
    ensures s.strategy.Unsupported? <==> res.StrategyError?
    ensures s.Grouped() && s.cols % s.strategy.groupSize != 0 <==> res.ShapeError?
    ensures res.Done? ==> IsResult(s, res)
  {
    hide Setup.Valid, Setup.ColumnProblem, Problem.Valid, Problem.Quantized, Problem.Loss, Setup.ParamTable, Setup.ReturnsGroups,
      IsResult, RestoreGroups, RestoreOrder, Setup.Origin;
    ValidGives(s);
    if s.strategy.Unsupported? {
      return StrategyError;
    }
    if s.Grouped() && s.cols % s.strategy.groupSize != 0 {
      return ShapeError;
    }
    var params := s.ParamTable();
    var p := s.ColumnProblem();
    var Q, loss := QuantizeColumns(p, blocksize);
    if s.Ordered() {
      var invperm := Invert(s.perm);
      var gIdx := RestoreGroups(s, invperm);
      var W := RestoreOrder(s, Q, invperm);
      ResultReadsBack(s, Q, W, gIdx);
      return Done(loss, W, params, gIdx);
    }
    NoGroupsReturned(s);
    ResultReadsBack(s, Q, Q, None);
    return Done(loss, Q, params, None);
  }

  /** g_idx[invperm], returned only when groups were ordered. */
  function RestoreGroups(s: Setup, invperm: seq<nat>): (gIdx: Option<seq<nat>>)
    requires s.Valid() && s.Ordered() && Inverse(invperm, s.perm)
    ensures s.ReturnsGroups(gIdx)
  {
    if s.actorder == OrderGroups then
      Some(seq(s.cols, c requires 0 <= c < s.cols => invperm[c] / s.strategy.groupSize))
    else
      None
  }

  /** W[:, invperm] puts the column of every position back where it came from. */
  function RestoreOrder(s: Setup, Q: Matrix, invperm: seq<nat>): (W: Matrix)
    requires s.Valid() && s.Ordered() && Shaped(Q, s.rows, s.cols) && Inverse(invperm, s.perm)
    ensures Shaped(W, s.rows, s.cols)
    ensures forall r, k :: 0 <= r < s.rows && 0 <= k < s.cols ==> W[r][s.Origin(k)] == Q[r][k]
  {
    SelectColumns(Q, invperm)
  }

  /** The loss reported is the objective under the dampened Hessian, unless zeros are preserved or the factor failed. */
  lemma {:induction false} ReportedLossIsObjective(s: Setup)
    requires s.Valid() && (s.Grouped() ==> s.cols % s.strategy.groupSize == 0)
    requires !s.PreservesZeros() && s.factor(s.DampenedHessian()).Some?
    ensures s.ColumnProblem().Loss(s.rows) == Objective(s.ColumnProblem(), s.DampenedHessian(), s.rows)
  {
    LossIsObjective(s.ColumnProblem(), s.DampenedHessian(), s.rows);
  }
}
