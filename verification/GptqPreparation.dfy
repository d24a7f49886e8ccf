/**
  What quantize_weight hands to its column loop, in terms of the weight and Hessian it was given: when and where zeros are
  preserved, the dampened Hessian, and what becomes of an entry that is zero.
  */
module GptqPreparation {
  import opened Collections
  import opened Sums
  import opened GptqColumns
  import opened GptqWeight
  import GptqReference

  // ----- Counting zeros

  datatype Cell = Cell(row: nat, column: nat)

  lemma {:induction false} CountZerosAppend(a: seq<real>, b: seq<real>)
    ensures CountZeros(a + b) == CountZeros(a) + CountZeros(b)
  {
    if b == [] {
      assert a + b == a;
    } else {
      var front := b[..|b| - 1];
      CountZerosAppend(a, front);
      assert (a + b)[..|a + b| - 1] == a + front;
    }
  }

  /** The zeros of row r among its first n columns. */
  ghost function ZerosOfRow(m: Matrix, r: nat, n: nat): set<Cell>
    requires r < |m| && n <= |m[r]|
  {
    set c: nat | c < n && m[r][c] == 0.0 :: Cell(r, c)
  }

  lemma {:induction false} RowCount(m: Matrix, r: nat, n: nat)
    requires r < |m| && n <= |m[r]|
    ensures |ZerosOfRow(m, r, n)| == CountZeros(m[r][..n])
  {
    if n > 0 {
      RowCount(m, r, n - 1);
      assert m[r][..n][..n - 1] == m[r][..n - 1];
      var last := if m[r][n - 1] == 0.0 then {Cell(r, n - 1)} else {};
      assert ZerosOfRow(m, r, n) == ZerosOfRow(m, r, n - 1) + last;
    } else {
      assert ZerosOfRow(m, r, 0) == {};
    }
  }

  /** The zeros of the rows from row k on. */
  ghost function ZerosFrom(m: Matrix, cols: nat, k: nat): set<Cell>
    requires Shaped(m, |m|, cols) && k <= |m|
  {
    set r: nat, c: nat | k <= r < |m| && c < cols && m[r][c] == 0.0 :: Cell(r, c)
  }

  lemma {:induction false} CountFrom(m: Matrix, cols: nat, k: nat)
    requires Shaped(m, |m|, cols) && k <= |m|
    ensures |ZerosFrom(m, cols, k)| == CountZeros(Flatten(m[k..]))
    decreases |m| - k
  {
    if k == |m| {
      assert ZerosFrom(m, cols, k) == {};
    } else {
      CountFrom(m, cols, k + 1);
      RowCount(m, k, cols);
      CountZerosAppend(m[k], Flatten(m[k + 1..]));
      assert m[k..][0] == m[k] && m[k..][1..] == m[k + 1..] && m[k][..cols] == m[k];
      assert ZerosFrom(m, cols, k) == ZerosOfRow(m, k, cols) + ZerosFrom(m, cols, k + 1);
    }
  }

  /** The positions of the zeros of a matrix. */
  ghost function Zeros(m: Matrix, rows: nat, cols: nat): set<Cell>
    requires Shaped(m, rows, cols)
  {
    set r: nat, c: nat | r < rows && c < cols && m[r][c] == 0.0 :: Cell(r, c)
  }

  lemma {:induction false} CountIsZeros(m: Matrix, rows: nat, cols: nat)
    requires Shaped(m, rows, cols)
    ensures CountZeros(Flatten(m)) == |Zeros(m, rows, cols)|
  {
    CountFrom(m, cols, 0);
    assert m[0..] == m && Zeros(m, rows, cols) == ZerosFrom(m, cols, 0);
  }

  /** Sets that f maps one to one onto each other have the same size. */
  lemma {:induction false} SameSize<A, B>(a: set<A>, b: set<B>, f: A -> B)
    requires forall x :: x in a ==> f(x) in b
    requires forall x, y :: x in a && y in a && f(x) == f(y) ==> x == y
    requires forall z :: z in b ==> exists x :: x in a && f(x) == z
    ensures |a| == |b|
  {
    if a == {} {
      assert b == {};
    } else {
      var x :| x in a;
      forall z | z in b - {f(x)}
        ensures exists y :: y in a - {x} && f(y) == z
      {
        var y :| y in a && f(y) == z;
        assert y in a - {x};
      }
      SameSize(a - {x}, b - {f(x)}, f);
    }
  }

  function Moved(at: Cell, order: seq<nat>): Cell {
    Cell(at.row, if at.column < |order| then order[at.column] else at.column)
  }

  /** The columns of p are those of m in the given order. */
  ghost predicate Permutes(m: Matrix, p: Matrix, order: seq<nat>, rows: nat, cols: nat) {
    && Shaped(m, rows, cols) && Shaped(p, rows, cols) && IsPermutation(order, cols)
    && forall r, k :: 0 <= r < rows && 0 <= k < cols ==> p[r][k] == m[r][order[k]]
  }

  lemma {:induction false} MovedFrom(m: Matrix, p: Matrix, order: seq<nat>, rows: nat, cols: nat, at: Cell) returns (x: Cell)
    requires Permutes(m, p, order, rows, cols) && at in Zeros(m, rows, cols)
    ensures x in Zeros(p, rows, cols) && Moved(x, order) == at
  {
    assert at.column in order;
    var k :| 0 <= k < cols && order[k] == at.column;
    x := Cell(at.row, k);
  }

  lemma {:induction false} MovedOnce(m: Matrix, p: Matrix, order: seq<nat>, rows: nat, cols: nat)
    requires Permutes(m, p, order, rows, cols)
    ensures forall x :: x in Zeros(p, rows, cols) ==> Moved(x, order) in Zeros(m, rows, cols)
    ensures forall x, y :: x in Zeros(p, rows, cols) && y in Zeros(p, rows, cols) && Moved(x, order) == Moved(y, order) ==> x == y
  {
  }

  /** Permuting the columns keeps the number of zeros. */
  lemma {:induction false} PermutedZeros(m: Matrix, p: Matrix, order: seq<nat>, rows: nat, cols: nat)
    requires Permutes(m, p, order, rows, cols)
    ensures |Zeros(p, rows, cols)| == |Zeros(m, rows, cols)|
  {
    MovedOnce(m, p, order, rows, cols);
    var move := (at: Cell) => Moved(at, order);
    var before, after := Zeros(p, rows, cols), Zeros(m, rows, cols);
    forall at | at in after
      ensures exists x :: x in before && move(x) == at
    {
      var x := MovedFrom(m, p, order, rows, cols, at);
      assert move(x) == at;
    }
    hide Zeros, Permutes, Moved;
    SameSize(before, after, move);
  }

  // ----- The order of the columns

  lemma {:induction false} IdentityOrder(n: nat)
    ensures IsPermutation(Range(0, n), n)
  {
    var order := Range(0, n);
    forall c: nat | c < n
      ensures c in order
    {
      assert order[c] == c;
    }
  }

  /** The original columns in the order they are quantized in. */
  ghost function Order(s: Setup): (order: seq<nat>)
    requires s.Valid()
    ensures IsPermutation(order, s.cols) && forall k :: 0 <= k < s.cols ==> order[k] == s.Origin(k)
  {
    IdentityOrder(s.cols);
    if s.Ordered() then s.perm else Range(0, s.cols)
  }

  /** With activation ordering, groups are needed, and columns of larger activations come first; otherwise nothing moves. */
  lemma {:induction false} LargeActivationsFirst(s: Setup, j: nat, k: nat)
    requires s.Valid() && j <= k < s.cols
    ensures if (s.strategy.PerGroup? || s.strategy.PerTensorGroup?) && !s.actorder.Unordered?
            then s.hessian[s.Origin(j)][s.Origin(j)] >= s.hessian[s.Origin(k)][s.Origin(k)]
            else s.Origin(k) == k
  {
  }

  // ----- The mask

  /** At least a twentieth of the weight is zero. */
  ghost predicate IsSparse(s: Setup)
    requires s.Valid()
  {
    20 * |Zeros(s.weight, s.rows, s.cols)| >= s.rows * s.cols
  }

  lemma {:induction false} Twentieth(count: nat, rows: nat, cols: nat)
    ensures count as real >= SPARSITY_THRESHOLD * (rows as real * cols as real) <==> 20 * count >= rows * cols
  {
    assert (rows * cols) as real == rows as real * cols as real;
  }

  lemma {:induction false} WeightOrdered(s: Setup)
    requires s.Valid()
    ensures Shaped(s.weight, s.rows, s.cols) && Permutes(s.weight, s.OrderedWeight(), Order(s), s.rows, s.cols)
  {
    hide IsPermutation, Order, Setup.Origin;
  }

  lemma {:induction false} OrderedZeros(s: Setup)
    requires s.Valid()
    ensures Shaped(s.weight, s.rows, s.cols)
    ensures CountZeros(Flatten(s.OrderedWeight())) == |Zeros(s.weight, s.rows, s.cols)|
  {
    hide Setup.Valid, Setup.OrderedWeight, Order, CountZeros, Flatten, Zeros, IsPermutation;
    WeightOrdered(s);
    CountIsZeros(s.OrderedWeight(), s.rows, s.cols);
    PermutedZeros(s.weight, s.OrderedWeight(), Order(s), s.rows, s.cols);
  }

  lemma {:induction false} PreservedIffSparse(s: Setup)
    requires s.Valid()
    ensures s.PreservesZeros() <==> IsSparse(s)
  {
    hide Setup.Valid, Setup.OrderedWeight, CountZeros, Flatten, Zeros;
    OrderedZeros(s);
    Twentieth(|Zeros(s.weight, s.rows, s.cols)|, s.rows, s.cols);
  }

  /** The mask is zero where the weight is close to zero, and one elsewhere. */
  ghost predicate MarksZeros(s: Setup, mask: Matrix)
    requires s.Valid()
  {
    && Shaped(mask, s.rows, s.cols)
    && forall r, k :: 0 <= r < s.rows && 0 <= k < s.cols ==>
         mask[r][k] == if -0.00000001 <= s.weight[r][s.Origin(k)] <= 0.00000001 then 0.0 else 1.0
  }

  /** There is a mask exactly when at least a twentieth of the weight is zero, and it marks the zeros. */
  lemma {:induction false} MaskIffSparse(s: Setup)
    requires s.Valid() && (s.Grouped() ==> s.cols % s.strategy.groupSize == 0)
    ensures s.ColumnProblem().mask.Some? <==> IsSparse(s)
    ensures s.ColumnProblem().mask.Some? ==> MarksZeros(s, s.ColumnProblem().mask.value)
  {
    PreservedIffSparse(s);
    hide Setup.Valid, Setup.PreservesZeros, IsSparse, Setup.OrderedWeight, Setup.Origin;
  }

  // ----- The Hessian

  lemma {:induction false} TotalAppend(a: seq<real>, b: seq<real>)
    ensures Total(a + b) == Total(a) + Total(b)
  {
    if b == [] {
      assert a + b == a;
    } else {
      var front := b[..|b| - 1];
      TotalAppend(a, front);
      assert (a + b)[..|a + b| - 1] == a + front;
    }
  }

  lemma {:induction false} WithoutLargest(order: seq<nat>, n: nat, p: nat)
    requires IsPermutation(order, n + 1) && p <= n && order[p] == n
    ensures IsPermutation(order[..p] + order[p + 1..], n)
  {
    var rest := order[..p] + order[p + 1..];
    assert forall k :: 0 <= k < n ==> rest[k] == order[if k < p then k else k + 1];
    forall c: nat | c < n
      ensures c in rest
    {
      assert c in order;
      var k :| 0 <= k <= n && order[k] == c;
      assert rest[if k < p then k else k - 1] == c;
    }
  }

  lemma {:induction false} SelectSplit(v: seq<real>, order: seq<nat>, p: nat)
    requires v != [] && |order| == |v| && p < |v| && order[p] == |v| - 1
    requires forall k :: 0 <= k < |order| ==> order[k] < |v|
    requires forall k :: 0 <= k < |order| && k != p ==> order[k] < |v| - 1
    ensures var n, before, after := |v| - 1, order[..p], order[p + 1..];
            && Select(v, order) == Select(v, before) + ([v[n]] + Select(v, after))
            && Select(v[..n], before + after) == Select(v, before) + Select(v, after)
  {
  }

  lemma {:induction false} TotalOfOne(x: real)
    ensures Total([x]) == x
  {
  }

  lemma {:induction false} TotalAround(before: seq<real>, x: real, after: seq<real>)
    ensures Total(before + ([x] + after)) == Total(before + after) + x
  {
    TotalAppend(before, after);
    TotalAppend(before, [x] + after);
    TotalAppend([x], after);
    TotalOfOne(x);
  }

  lemma {:induction false} PositionOfLargest(order: seq<nat>, n: nat) returns (p: nat)
    requires IsPermutation(order, n + 1)
    ensures p <= n && order[p] == n && IsPermutation(order[..p] + order[p + 1..], n)
    ensures forall k :: 0 <= k <= n ==> order[k] <= n && (k != p ==> order[k] < n)
  {
    assert n in order;
    p :| 0 <= p <= n && order[p] == n;
    WithoutLargest(order, n, p);
  }

  /** Permuting a sequence keeps its sum. */
  lemma {:induction false} PermutedTotal(v: seq<real>, order: seq<nat>)
    requires IsPermutation(order, |v|)
    ensures Total(Select(v, order)) == Total(v)
  {
    if v != [] {
      var n := |v| - 1;
      var p := PositionOfLargest(order, n);
      PermutedTotal(v[..n], order[..p] + order[p + 1..]);
      hide IsPermutation, Select;
      SelectSplit(v, order, p);
      TotalAround(Select(v, order[..p]), v[n], Select(v, order[p + 1..]));
    }
  }

  /** The diagonal of the Hessian with ones for the columns that saw no activation. */
  function FixedDiagonal(s: Setup): (d: seq<real>)
    requires s.Valid()
    ensures |d| == s.cols
    ensures forall c :: 0 <= c < s.cols ==> d[c] == if s.hessian[c][c] == 0.0 then 1.0 else s.hessian[c][c]
  {
    seq(s.cols, c requires 0 <= c < s.cols => if s.hessian[c][c] == 0.0 then 1.0 else s.hessian[c][c])
  }

  lemma {:induction false} FixedAt(s: Setup)
    requires s.Valid()
    ensures forall i, k :: 0 <= i < s.cols && 0 <= k < s.cols ==>
              s.FixedHessian()[i][k] == if i == k then FixedDiagonal(s)[s.Origin(k)] else s.hessian[s.Origin(i)][s.Origin(k)]
    ensures Diagonal(s.FixedHessian(), s.cols) == Select(FixedDiagonal(s), Order(s))
  {
  }

  /**
    The Hessian that is factored: diagonal zeros become ones, and then the diagonal grows by percdamp times its mean, which
    does not depend on the order of the columns.
    */
  lemma {:induction false} DampenedEntry(s: Setup, i: nat, k: nat)
    requires s.Valid() && i < s.cols && k < s.cols
    ensures s.DampenedHessian()[i][k]
         == if i == k then FixedDiagonal(s)[s.Origin(k)] + s.percdamp * (Total(FixedDiagonal(s)) / s.cols as real)
            else s.hessian[s.Origin(i)][s.Origin(k)]
  {
    hide Setup.Valid, Setup.FixedHessian, FixedDiagonal, Order, Setup.Origin, Total, Select;
    FixedAt(s);
    PermutedTotal(FixedDiagonal(s), Order(s));
  }

  /** The factor is that of the dampened Hessian, or the identity when there is none; dead columns start as zeros. */
  lemma {:induction false} ProblemOf(s: Setup, r: nat, k: nat)
    requires s.Valid() && (s.Grouped() ==> s.cols % s.strategy.groupSize == 0) && r < s.rows && k < s.cols
    ensures var p := s.ColumnProblem();
            && p.w[r][k] == (if s.hessian[s.Origin(k)][s.Origin(k)] == 0.0 then 0.0 else s.weight[r][s.Origin(k)])
            && match s.factor(s.DampenedHessian())
               case Some(u) => p.u == u
               case None => GptqReference.IsIdentity(p.u, s.cols)
  {
  }

  // ----- What the observer sees

  /** Flattening lays the rows out one after the other. */
  lemma {:induction false} FlattenEntry(m: Matrix, cols: nat, r: nat, c: nat)
    requires Shaped(m, |m|, cols) && r < |m| && c < cols
    ensures |Flatten(m)| == |m| * cols && 0 <= r * cols + c < |Flatten(m)| && Flatten(m)[r * cols + c] == m[r][c]
    decreases |m|
  {
    FlattenLength(m, cols);
    FlattenLength(m[1..], cols);
    if r > 0 {
      FlattenEntry(m[1..], cols, r - 1, c);
      assert (r - 1) * cols == r * cols - cols;
    }
  }

  lemma {:induction false} FlattenLength(m: Matrix, cols: nat)
    requires Shaped(m, |m|, cols)
    ensures |Flatten(m)| == |m| * cols
    decreases |m|
  {
    if m != [] {
      FlattenLength(m[1..], cols);
      assert |m| * cols == (|m| - 1) * cols + cols;
    }
  }

  /** Without groups, parameters are observed on the whole weight or on the entry's row. */
  lemma {:induction false} UngroupedParameters(s: Setup, res: Outcome, r: nat, c: nat)
    requires s.Valid() && res.Done? && IsResult(s, res) && r < s.rows && c < s.cols
    requires s.strategy.PerTensor? || s.strategy.PerChannel?
    ensures var seen := if s.strategy.PerTensor? then Flatten(s.weight) else s.weight[r];
            s.ParamRead(res.params, res.gIdx, r, c) == Some(s.observe(seen))
  {
    hide Setup.ColumnProblem, ReadBack, Problem.Raw, Problem.Quantized, Problem.Loss, Problem.Valid;
    ReadsRow(s, res.gIdx, r, c);
  }

  // ----- Zeros

  lemma {:induction false} MarkedReachesUnchanged(s: Setup, r: nat, k: nat)
    requires s.Valid() && (s.Grouped() ==> s.cols % s.strategy.groupSize == 0) && r < s.rows && k < s.cols
    requires IsSparse(s) && -0.00000001 <= s.weight[r][s.Origin(k)] <= 0.00000001
    ensures s.ColumnProblem().Raw(r, k)
         == if s.hessian[s.Origin(k)][s.Origin(k)] == 0.0 then 0.0 else s.weight[r][s.Origin(k)]
  {
    MaskIffSparse(s);
    ProblemOf(s, r, k);
    hide Setup.Valid, Setup.ColumnProblem, Setup.Origin, IsSparse;
    MaskedEntryReaches(s.ColumnProblem(), r, k);
  }

  lemma {:induction false} MaskedEntryReaches(p: Problem, r: nat, j: nat)
    requires p.Valid() && r < p.rows && j < p.cols && p.Mask(r, j) == 0.0
    ensures p.Raw(r, j) == p.w[r][j]
  {
    TimesCommutes(0.0, p.Spread(r, j, j));
    TimesUnits(p.Spread(r, j, j));
  }

  lemma {:induction false} PositionOfColumn(s: Setup, c: nat) returns (k: nat)
    requires s.Valid() && c < s.cols
    ensures k < s.cols && s.Origin(k) == c
  {
    hide Setup.Valid, Setup.Origin;
    assert c in Order(s);
    k :| 0 <= k < s.cols && Order(s)[k] == c;
  }

  /**
    A weight of which at least a twentieth is zero keeps its zeros: a zero is quantized as zero, with the parameters that
    its reader finds, whatever the errors of the columns before it.
    */
  lemma {:induction false} ZerosSurvive(s: Setup, res: Outcome, r: nat, c: nat)
    requires s.Valid() && res.Done? && IsResult(s, res) && r < s.rows && c < s.cols
    requires IsSparse(s) && s.weight[r][c] == 0.0
    ensures var q := s.ParamRead(res.params, res.gIdx, r, c);
            q.Some? && res.weight[r][c] == s.fakeQuantize(q.value, 0.0)
  {
    hide Setup.Valid, Setup.ColumnProblem, Setup.ParamRead, Setup.ParamTable, Setup.ReturnsGroups, IsSparse, Setup.Origin,
      Zeros, Problem.Raw, Problem.Quantized, Problem.Loss, Problem.Valid;
    var k := PositionOfColumn(s, c);
    MarkedReachesUnchanged(s, r, k);
    assert ReadBack(s, res.params, res.gIdx, r, k, res.weight[r][s.Origin(k)]);
  }
}
