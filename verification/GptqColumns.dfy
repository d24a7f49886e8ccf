/**
  The column loop of quantize_weight: columns are quantized from left to right, each one's error is spread over
  the columns after it, and the spreading is done lazily in blocks.
  */
module GptqColumns {
  import opened Collections
  import opened Sums

  type Matrix = seq<seq<real>>

  /** A masked in-place subtraction: W -= amount * mask. */
  function Subtract(value: real, amount: real, mask: real): real {
    value - Times(mask, amount)
  }

  lemma {:induction false} SameMatrix(a: Matrix, b: Matrix, rows: nat, cols: nat)
    requires Shaped(a, rows, cols) && Shaped(b, rows, cols)
    requires forall r, j :: 0 <= r < rows && 0 <= j < cols ==> a[r][j] == b[r][j]
    ensures a == b
  {
    forall r | 0 <= r < rows
      ensures a[r] == b[r]
    {
    }
  }

  /**
    What the column loop works on: the weight, the non-zero mask (present when zeros are to be preserved), the upper
    Cholesky factor of the inverse Hessian, and fake_quantize as a function of the row, the column (which fixes the
    scale and zero point) and the value.
    */
  datatype Problem = Problem(rows: nat, cols: nat, w: Matrix, mask: Option<Matrix>, u: Matrix,
                             quantize: (int, int, real) -> real)
  {
    ghost predicate Valid() {
      && Shaped(w, rows, cols)
      && Shaped(u, cols, cols)
      && (mask.Some? ==> Shaped(mask.value, rows, cols))
      && forall i :: 0 <= i < cols ==> u[i][i] != 0.0
    }

    function Mask(r: nat, j: nat): real
      requires Valid() && r < rows && j < cols
    {
      if mask.Some? then mask.value[r][j] else 1.0
    }

    /** The errors of columns 0..k spread onto column j. */
    ghost function Spread(r: nat, j: nat, k: nat): real
      requires Valid() && r < rows && j < cols && k <= cols
      decreases k, 0
    {
      if k == 0 then 0.0 else Spread(r, j, k - 1) + Times(Err(r, k - 1), u[k - 1][j])
    }

    /** Column j once the columns before k have been quantized. */
    ghost function Partial(r: nat, j: nat, k: nat): real
      requires Valid() && r < rows && j < cols && k <= cols
      decreases k, 1
    {
      w[r][j] - Times(Mask(r, j), Spread(r, j, k))
    }

    /** The value that column j holds when its turn to be quantized comes. */
    ghost function Raw(r: nat, j: nat): real
      requires Valid() && r < rows && j < cols
      decreases j, 2
    {
      Partial(r, j, j)
    }

    ghost function Quantized(r: nat, j: nat): real
      requires Valid() && r < rows && j < cols
      decreases j, 3
    {
      quantize(r, j, Raw(r, j))
    }

    ghost function Err(r: nat, j: nat): real
      requires Valid() && r < rows && j < cols
      decreases j, 4
    {
      (Raw(r, j) - Quantized(r, j)) / u[j][j]
    }

    ghost function ColumnLoss(r: nat, j: nat): real
      requires Valid() && r < rows && j < cols
    {
      SquarePositive(u[j][j]);
      Square(Raw(r, j) - Quantized(r, j)) / Square(u[j][j])
    }

    /** Half the losses of the columns before k. */
    ghost function RowLoss(r: nat, k: nat): real
      requires Valid() && r < rows && k <= cols
    {
      if k == 0 then 0.0 else RowLoss(r, k - 1) + ColumnLoss(r, k - 1) / 2.0
    }

    ghost function Loss(k: nat): real
      requires Valid() && k <= rows
    {
      if k == 0 then 0.0 else Loss(k - 1) + RowLoss(k - 1, cols)
    }
  }

  /** From column i on, the block W1, which starts at column i1, holds the columns as they are before column i1 + i's turn. */
  ghost predicate Remaining(p: Problem, W1: array2<real>, i1: nat, i: nat)
    requires p.Valid() && W1.Length0 == p.rows && i1 + W1.Length1 <= p.cols && i <= W1.Length1
    reads W1
  {
    forall r, k :: 0 <= r < p.rows && i <= k < W1.Length1 ==> W1[r, k] == p.Partial(r, i1 + k, i1 + i)
  }

  /** The first i columns of the block are quantized, */
  ghost predicate QuantizedSoFar(p: Problem, Q1: array2<real>, i1: nat, i: nat)
    requires p.Valid() && Q1.Length0 == p.rows && i <= Q1.Length1 && i1 + Q1.Length1 <= p.cols
    reads Q1
  {
    forall r, k :: 0 <= r < p.rows && 0 <= k < i ==> Q1[r, k] == p.Quantized(r, i1 + k)
  }

  /** and their errors */
  ghost predicate ErrorsSoFar(p: Problem, Err1: array2<real>, i1: nat, i: nat)
    requires p.Valid() && Err1.Length0 == p.rows && i <= Err1.Length1 && i1 + Err1.Length1 <= p.cols
    reads Err1
  {
    forall r, k :: 0 <= r < p.rows && 0 <= k < i ==> Err1[r, k] == p.Err(r, i1 + k)
  }

  /** and losses recorded. */
  ghost predicate LossesSoFar(p: Problem, losses1: array2<real>, i1: nat, i: nat)
    requires p.Valid() && losses1.Length0 == p.rows && i <= losses1.Length1 && i1 + losses1.Length1 <= p.cols
    reads losses1
  {
    forall r, k :: 0 <= r < p.rows && 0 <= k < i ==> losses1[r, k] == p.ColumnLoss(r, i1 + k)
  }

  /** Quantizes column i of the block W1, which starts at column i1. */
  method FakeQuantizeColumn(p: Problem, W1: array2<real>, i1: nat, i: nat, Q1: array2<real>)
    requires p.Valid() && i < W1.Length1 && i1 + W1.Length1 <= p.cols
    requires W1.Length0 == Q1.Length0 == p.rows && W1.Length1 == Q1.Length1 && W1 != Q1
    requires Remaining(p, W1, i1, i) && QuantizedSoFar(p, Q1, i1, i)
    modifies Q1
    ensures QuantizedSoFar(p, Q1, i1, i + 1)
  {
    hide Problem.Valid, Problem.Partial;
    assert forall r :: 0 <= r < p.rows ==> W1[r, i] == p.Raw(r, i1 + i);
    forall r | 0 <= r < p.rows {
      Q1[r, i] := p.quantize(r, i1 + i, W1[r, i]);
    }
  }

  /** Records the losses of column i. */
  method RecordLosses(p: Problem, W1: array2<real>, i1: nat, i: nat, Q1: array2<real>, losses1: array2<real>)
    requires p.Valid() && i < W1.Length1 && i1 + W1.Length1 <= p.cols
    requires W1.Length0 == Q1.Length0 == losses1.Length0 == p.rows && W1.Length1 == Q1.Length1 == losses1.Length1
    requires losses1 != W1 && losses1 != Q1
    requires Remaining(p, W1, i1, i) && QuantizedSoFar(p, Q1, i1, i + 1) && LossesSoFar(p, losses1, i1, i)
    modifies losses1
    ensures LossesSoFar(p, losses1, i1, i + 1)
  {
    hide Problem.Valid, Problem.Partial, Problem.Quantized, Square;
    PivotPositive(p, i1 + i);
    var d := p.u[i1 + i][i1 + i];
    forall r | 0 <= r < p.rows {
      losses1[r, i] := Square(W1[r, i] - Q1[r, i]) / Square(d);
    }
  }

  /** Records the errors of column i. */
  method RecordErrors(p: Problem, W1: array2<real>, i1: nat, i: nat, Q1: array2<real>, Err1: array2<real>)
    requires p.Valid() && i < W1.Length1 && i1 + W1.Length1 <= p.cols
    requires W1.Length0 == Q1.Length0 == Err1.Length0 == p.rows && W1.Length1 == Q1.Length1 == Err1.Length1
    requires Err1 != W1 && Err1 != Q1
    requires Remaining(p, W1, i1, i) && QuantizedSoFar(p, Q1, i1, i + 1) && ErrorsSoFar(p, Err1, i1, i)
    modifies Err1
    ensures ErrorsSoFar(p, Err1, i1, i + 1)
  {
    hide Problem.Valid, Problem.Partial, Problem.Quantized;
    PivotPositive(p, i1 + i);
    assert forall r :: 0 <= r < p.rows ==> W1[r, i] == p.Raw(r, i1 + i);
    var d := p.u[i1 + i][i1 + i];
    forall r | 0 <= r < p.rows {
      Err1[r, i] := (W1[r, i] - Q1[r, i]) / d;
    }
  }

  lemma {:induction false} PivotPositive(p: Problem, j: nat)
    requires p.Valid() && j < p.cols
    ensures |p.u| == p.cols && |p.u[j]| == p.cols && p.u[j][j] != 0.0 && Square(p.u[j][j]) != 0.0
  {
    SquarePositive(p.u[j][j]);
  }

  /** Subtracts the error of column i from the columns of the block that follow it. */
  method SpreadInBlock(p: Problem, W1: array2<real>, i1: nat, i: nat, Err1: array2<real>)
    requires p.Valid() && i < W1.Length1 && i1 + W1.Length1 <= p.cols
    requires W1.Length0 == Err1.Length0 == p.rows && W1.Length1 == Err1.Length1 && W1 != Err1
    requires ErrorsSoFar(p, Err1, i1, i + 1) && Remaining(p, W1, i1, i)
    modifies W1
    ensures Remaining(p, W1, i1, i + 1)
  {
    forall r, k | 0 <= r < p.rows && i <= k < W1.Length1 {
      W1[r, k] := Subtract(W1[r, k], Times(Err1[r, i], p.u[i1 + i][i1 + k]), p.Mask(r, i1 + k));
    }
    forall r, k | 0 <= r < p.rows && i < k < W1.Length1
      ensures W1[r, k] == p.Partial(r, i1 + k, i1 + i + 1)
    {
      PartialStep(p, r, i1 + k, i1 + i);
    }
  }

  lemma {:induction false} PartialStep(p: Problem, r: nat, j: nat, k: nat)
    requires p.Valid() && r < p.rows && j < p.cols && k < p.cols
    ensures p.Partial(r, j, k + 1) == Subtract(p.Partial(r, j, k), Times(p.Err(r, k), p.u[k][j]), p.Mask(r, j))
  {
    TimesDistributes(p.Mask(r, j), p.Spread(r, j, k), Times(p.Err(r, k), p.u[k][j]));
  }

  /** One block: the columns i1..i2 are quantized one by one, and errors stay inside the block. */
  method QuantizeBlock(p: Problem, W: array2<real>, i1: nat, i2: nat)
    returns (Q1: array2<real>, Err1: array2<real>, losses1: array2<real>)
    requires p.Valid() && i1 <= i2 <= p.cols
    requires W.Length0 == p.rows && W.Length1 == p.cols
    requires forall r, j :: 0 <= r < p.rows && i1 <= j < i2 ==> W[r, j] == p.Partial(r, j, i1)
    ensures fresh(Q1) && fresh(Err1) && fresh(losses1)
    ensures Q1.Length0 == Err1.Length0 == losses1.Length0 == p.rows
    ensures Q1.Length1 == Err1.Length1 == losses1.Length1 == i2 - i1
    ensures forall r, i :: 0 <= r < p.rows && 0 <= i < i2 - i1 ==> Q1[r, i] == p.Quantized(r, i1 + i)
    ensures forall r, i :: 0 <= r < p.rows && 0 <= i < i2 - i1 ==> Err1[r, i] == p.Err(r, i1 + i)
    ensures forall r, i :: 0 <= r < p.rows && 0 <= i < i2 - i1 ==> losses1[r, i] == p.ColumnLoss(r, i1 + i)
  {
    hide Problem.Valid, Remaining;
    var count := i2 - i1;
    var W1 := CopyBlock(p, W, i1, i2);
    Q1 := new real[p.rows, count];
    Err1 := new real[p.rows, count];
    losses1 := new real[p.rows, count];
    for i := 0 to count
      invariant Remaining(p, W1, i1, i)
      invariant QuantizedSoFar(p, Q1, i1, i) && ErrorsSoFar(p, Err1, i1, i) && LossesSoFar(p, losses1, i1, i)
    {
      FakeQuantizeColumn(p, W1, i1, i, Q1);
      RecordLosses(p, W1, i1, i, Q1, losses1);
      RecordErrors(p, W1, i1, i, Q1, Err1);
      SpreadInBlock(p, W1, i1, i, Err1);
    }
  }

  /** W[:, i1:i2].clone() */
  method CopyBlock(p: Problem, W: array2<real>, i1: nat, i2: nat) returns (W1: array2<real>)
    requires p.Valid() && i1 <= i2 <= p.cols
    requires W.Length0 == p.rows && W.Length1 == p.cols
    requires forall r, j :: 0 <= r < p.rows && i1 <= j < i2 ==> W[r, j] == p.Partial(r, j, i1)
    ensures fresh(W1) && W1.Length0 == p.rows && W1.Length1 == i2 - i1 && Remaining(p, W1, i1, 0)
  {
    hide Problem.Valid, Problem.Partial;
    W1 := new real[p.rows, i2 - i1];
    forall r, i | 0 <= r < p.rows && 0 <= i < i2 - i1 {
      W1[r, i] := W[r, i1 + i];
    }
  }

  /** The product of the block's errors with the rows i1..i2 of U, for the columns from i2 on. */
  method BlockError(p: Problem, Err1: array2<real>, i1: nat, i2: nat) returns (wErr: array2<real>)
    requires p.Valid() && i1 <= i2 <= p.cols
    requires Err1.Length0 == p.rows && Err1.Length1 == i2 - i1
    requires forall r, i :: 0 <= r < p.rows && 0 <= i < i2 - i1 ==> Err1[r, i] == p.Err(r, i1 + i)
    ensures fresh(wErr) && wErr.Length0 == p.rows && wErr.Length1 == p.cols - i2
    ensures forall r, j :: 0 <= r < p.rows && i2 <= j < p.cols ==>
              wErr[r, j - i2] == p.Spread(r, j, i2) - p.Spread(r, j, i1)
  {
    wErr := new real[p.rows, p.cols - i2];
    for r := 0 to p.rows
      invariant forall s, j :: 0 <= s < r && i2 <= j < p.cols ==>
                  wErr[s, j - i2] == p.Spread(s, j, i2) - p.Spread(s, j, i1)
    {
      for j := i2 to p.cols
        invariant forall s, k :: 0 <= s < r && i2 <= k < p.cols ==>
                    wErr[s, k - i2] == p.Spread(s, k, i2) - p.Spread(s, k, i1)
        invariant forall k :: i2 <= k < j ==> wErr[r, k - i2] == p.Spread(r, k, i2) - p.Spread(r, k, i1)
      {
        var acc := 0.0;
        for i := 0 to i2 - i1
          invariant acc == p.Spread(r, j, i1 + i) - p.Spread(r, j, i1)
        {
          acc := acc + Times(Err1[r, i], p.u[i1 + i][j]);
        }
        wErr[r, j - i2] := acc;
      }
    }
  }

  /** Row sums of the block's losses, halved. */
  method BlockLosses(p: Problem, losses1: array2<real>, i1: nat, i2: nat) returns (sums: seq<real>)
    requires p.Valid() && i1 <= i2 <= p.cols
    requires losses1.Length0 == p.rows && losses1.Length1 == i2 - i1
    requires forall r, i :: 0 <= r < p.rows && 0 <= i < i2 - i1 ==> losses1[r, i] == p.ColumnLoss(r, i1 + i)
    ensures |sums| == p.rows && forall r :: 0 <= r < p.rows ==> sums[r] == p.RowLoss(r, i2) - p.RowLoss(r, i1)
  {
    sums := [];
    for r := 0 to p.rows
      invariant |sums| == r && forall s :: 0 <= s < r ==> sums[s] == p.RowLoss(s, i2) - p.RowLoss(s, i1)
    {
      var acc := 0.0;
      for i := 0 to i2 - i1
        invariant acc / 2.0 == p.RowLoss(r, i1 + i) - p.RowLoss(r, i1)
      {
        acc := acc + losses1[r, i];
      }
      sums := sums + [acc / 2.0];
    }
  }

  /** Writes the quantized block back and spreads its errors over the columns after it. */
  method PropagateBlock(p: Problem, W: array2<real>, i1: nat, i2: nat, Q1: array2<real>, wErr: array2<real>)
    requires p.Valid() && i1 <= i2 <= p.cols && W != Q1 && W != wErr
    requires W.Length0 == p.rows && W.Length1 == p.cols
    requires Q1.Length0 == p.rows && Q1.Length1 == i2 - i1
    requires wErr.Length0 == p.rows && wErr.Length1 == p.cols - i2
    requires forall r, j :: 0 <= r < p.rows && 0 <= j < i1 ==> W[r, j] == p.Quantized(r, j)
    requires forall r, j :: 0 <= r < p.rows && i1 <= j < p.cols ==> W[r, j] == p.Partial(r, j, i1)
    requires forall r, i :: 0 <= r < p.rows && 0 <= i < i2 - i1 ==> Q1[r, i] == p.Quantized(r, i1 + i)
    requires forall r, j :: 0 <= r < p.rows && i2 <= j < p.cols ==>
               wErr[r, j - i2] == p.Spread(r, j, i2) - p.Spread(r, j, i1)
    modifies W
    ensures forall r, j :: 0 <= r < p.rows && 0 <= j < i2 ==> W[r, j] == p.Quantized(r, j)
    ensures forall r, j :: 0 <= r < p.rows && i2 <= j < p.cols ==> W[r, j] == p.Partial(r, j, i2)
  {
    forall r, j | 0 <= r < p.rows && i1 <= j < i2 {
      W[r, j] := Q1[r, j - i1];
    }
    forall r, j | 0 <= r < p.rows && i1 <= j < i2
      ensures W[r, j] == p.Quantized(r, j)
    {
      assert Q1[r, j - i1] == p.Quantized(r, i1 + (j - i1));
    }
    forall r, j | 0 <= r < p.rows && i2 <= j < p.cols {
      W[r, j] := Subtract(W[r, j], wErr[r, j - i2], p.Mask(r, j));
    }
    forall r, j | 0 <= r < p.rows && i2 <= j < p.cols
      ensures W[r, j] == p.Partial(r, j, i2)
    {
      var more := wErr[r, j - i2];
      assert more == p.Spread(r, j, i2) - p.Spread(r, j, i1);
      TimesDistributes(p.Mask(r, j), p.Spread(r, j, i1), more);
    }
  }

  /**
    The column loop for any block size: the result does not depend on it.
    */
  method QuantizeColumns(p: Problem, blocksize: nat) returns (Q: Matrix, loss: real)
    requires p.Valid() && blocksize >= 1
    ensures Shaped(Q, p.rows, p.cols)
    ensures forall r, j :: 0 <= r < p.rows && 0 <= j < p.cols ==> Q[r][j] == p.Quantized(r, j)
    ensures loss == p.Loss(p.rows)
  {
    var W := new real[p.rows, p.cols];
    forall r, j | 0 <= r < p.rows && 0 <= j < p.cols {
      W[r, j] := p.w[r][j];
    }
    var losses := seq(p.rows, _ => 0.0);
    forall r, j | 0 <= r < p.rows && 0 <= j < p.cols
      ensures p.Partial(r, j, 0) == p.w[r][j]
    {
      assert Times(p.Mask(r, j), 0.0) == 0.0;
    }
    var i1 := 0;
    hide Problem.Valid, Problem.Mask, Problem.Partial, Problem.Spread, Problem.Quantized, Problem.Err, Problem.ColumnLoss;
    while i1 < p.cols
      invariant 0 <= i1 <= p.cols && |losses| == p.rows
      invariant forall r, j :: 0 <= r < p.rows && 0 <= j < i1 ==> W[r, j] == p.Quantized(r, j)
      invariant forall r, j :: 0 <= r < p.rows && i1 <= j < p.cols ==> W[r, j] == p.Partial(r, j, i1)
      invariant forall r :: 0 <= r < p.rows ==> losses[r] == p.RowLoss(r, i1)
    {
      var i2 := if i1 + blocksize < p.cols then i1 + blocksize else p.cols;
      var Q1, Err1, losses1 := QuantizeBlock(p, W, i1, i2);
      var blockLosses := BlockLosses(p, losses1, i1, i2);
      var wErr := BlockError(p, Err1, i1, i2);
      PropagateBlock(p, W, i1, i2, Q1, wErr);
      losses := seq(p.rows, r requires 0 <= r < p.rows => losses[r] + blockLosses[r]);
      i1 := i2;
    }
    Q := RowsOf(p, W);
    loss := SumLosses(p, losses);
  }

  method RowsOf(p: Problem, W: array2<real>) returns (Q: Matrix)
    requires p.Valid() && W.Length0 == p.rows && W.Length1 == p.cols
    ensures Shaped(Q, p.rows, p.cols)
    ensures forall r, j :: 0 <= r < p.rows && 0 <= j < p.cols ==> Q[r][j] == W[r, j]
  {
    Q := [];
    for r := 0 to p.rows
      invariant Shaped(Q, r, p.cols)
      invariant forall s, j :: 0 <= s < r && 0 <= j < p.cols ==> Q[s][j] == W[s, j]
    {
      var row := seq(p.cols, j requires 0 <= j < p.cols reads W => W[r, j]);
      Q := Q + [row];
    }
  }

  method SumLosses(p: Problem, losses: seq<real>) returns (loss: real)
    requires p.Valid() && |losses| == p.rows
    requires forall r :: 0 <= r < p.rows ==> losses[r] == p.RowLoss(r, p.cols)
    ensures loss == p.Loss(p.rows)
  {
    loss := 0.0;
    for r := 0 to p.rows
      invariant loss == p.Loss(r)
    {
      loss := loss + losses[r];
    }
  }
}
