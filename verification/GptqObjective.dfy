/** The loss that quantize_weight returns is the layer's output error under the dampened Hessian. */
module GptqObjective {
  import opened Collections
  import opened Sums
  import opened GptqColumns

  /** x * H * y^T for an n by n matrix H. */
  ghost function Bilinear(n: nat, h: (int, int) -> real, x: int -> real, y: int -> real): real {
    Sum(n, Terms(n, h, x, y))
  }

  ghost function Terms(n: nat, h: (int, int) -> real, x: int -> real, y: int -> real): int -> real {
    j => Times(x(j), Sum(n, k => Times(h(j, k), y(k))))
  }

  lemma {:induction false} CombineLeft(x: real, c: real, d: real, s: real)
    ensures Times(x + Times(c, d), s) == Times(x, s) + Times(c, Times(d, s))
  {
    TimesCommutes(x + Times(c, d), s);
    TimesDistributes(s, x, Times(c, d));
    TimesCommutes(x, s);
    TimesCommutes(s, Times(c, d));
    TimesAssociates(c, d, s);
  }

  lemma {:induction false} CombineRight(x: real, c: real, d: real, s: real)
    ensures Times(s, x + Times(c, d)) == Times(s, x) + Times(c, Times(s, d))
  {
    CombineLeft(x, c, d, s);
    TimesCommutes(x + Times(c, d), s);
    TimesCommutes(x, s);
    TimesCommutes(d, s);
  }

  /** A sum of combinations is the combination of the sums. */
  lemma {:induction false} SumCombines(n: nat, f: int -> real, c: real, g: int -> real, all: int -> real)
    requires forall j :: 0 <= j < n ==> all(j) == f(j) + Times(c, g(j))
    ensures Sum(n, all) == Sum(n, f) + Times(c, Sum(n, g))
  {
    var scaled := j => Times(c, g(j));
    SumEqual(n, all, j => f(j) + scaled(j));
    SumAdd(n, f, scaled);
    SumScale(n, c, g);
  }

  lemma {:induction false} BilinearLeft(n: nat, h: (int, int) -> real, x: int -> real, c: real, d: int -> real,
                                        z: int -> real, y: int -> real)
    requires forall j :: 0 <= j < n ==> z(j) == x(j) + Times(c, d(j))
    ensures Bilinear(n, h, z, y) == Bilinear(n, h, x, y) + Times(c, Bilinear(n, h, d, y))
  {
    var fx, fd, fz := Terms(n, h, x, y), Terms(n, h, d, y), Terms(n, h, z, y);
    forall j | 0 <= j < n
      ensures fz(j) == fx(j) + Times(c, fd(j))
    {
      CombineLeft(x(j), c, d(j), Sum(n, k => Times(h(j, k), y(k))));
    }
    SumCombines(n, fx, c, fd, fz);
  }

  lemma {:induction false} BilinearRight(n: nat, h: (int, int) -> real, x: int -> real, c: real, d: int -> real,
                                         z: int -> real, y: int -> real)
    requires forall k :: 0 <= k < n ==> z(k) == x(k) + Times(c, d(k))
    ensures Bilinear(n, h, y, z) == Bilinear(n, h, y, x) + Times(c, Bilinear(n, h, y, d))
  {
    var fx, fd, fz := Terms(n, h, y, x), Terms(n, h, y, d), Terms(n, h, y, z);
    forall j | 0 <= j < n
      ensures fz(j) == fx(j) + Times(c, fd(j))
    {
      InnerRight(n, h, j, x, c, d, z);
      CombineRight(Sum(n, k => Times(h(j, k), x(k))), c, Sum(n, k => Times(h(j, k), d(k))), y(j));
    }
    SumCombines(n, fx, c, fd, fz);
  }

  lemma {:induction false} InnerRight(n: nat, h: (int, int) -> real, j: int, x: int -> real, c: real, d: int -> real,
                                      z: int -> real)
    requires forall k :: 0 <= k < n ==> z(k) == x(k) + Times(c, d(k))
    ensures Sum(n, k => Times(h(j, k), z(k)))
         == Sum(n, k => Times(h(j, k), x(k))) + Times(c, Sum(n, k => Times(h(j, k), d(k))))
  {
    forall k | 0 <= k < n
      ensures Times(h(j, k), z(k)) == Times(h(j, k), x(k)) + Times(c, Times(h(j, k), d(k)))
    {
      CombineRight(x(k), c, d(k), h(j, k));
    }
    SumCombines(n, k => Times(h(j, k), x(k)), c, k => Times(h(j, k), d(k)), k => Times(h(j, k), z(k)));
  }

  lemma {:induction false} BilinearEqual(n: nat, h: (int, int) -> real, x: int -> real, y: int -> real)
    requires forall j :: 0 <= j < n ==> x(j) == y(j)
    ensures Bilinear(n, h, x, x) == Bilinear(n, h, y, y)
  {
    forall j | 0 <= j < n
      ensures Terms(n, h, x, x)(j) == Terms(n, h, y, y)(j)
    {
      SumEqual(n, k => Times(h(j, k), x(k)), k => Times(h(j, k), y(k)));
    }
    SumEqual(n, Terms(n, h, x, x), Terms(n, h, y, y));
  }

  lemma {:induction false} ZeroLeft(n: nat, h: (int, int) -> real, z: int -> real, y: int -> real)
    requires forall j :: 0 <= j < n ==> z(j) == 0.0
    ensures Bilinear(n, h, z, y) == 0.0
  {
    SumZero(n, Terms(n, h, z, y));
  }

  lemma {:induction false} ZeroRight(n: nat, h: (int, int) -> real, y: int -> real, z: int -> real)
    requires forall j :: 0 <= j < n ==> z(j) == 0.0
    ensures Bilinear(n, h, y, z) == 0.0
  {
    forall j | 0 <= j < n
      ensures Terms(n, h, y, z)(j) == 0.0
    {
      forall k | 0 <= k < n
        ensures Times(h(j, k), z(k)) == 0.0
      {
        TimesUnits(h(j, k));
      }
      SumZero(n, k => Times(h(j, k), z(k)));
      TimesUnits(y(j));
    }
    SumZero(n, Terms(n, h, y, z));
  }

  // ----- Rows that are orthonormal under h

  /** The combination of the rows u(0), ..., u(k-1) with coefficients e. */
  ghost function Combination(e: int -> real, u: int -> (int -> real), k: nat): int -> real {
    j => Sum(k, a => Times(e(a), u(a)(j)))
  }

  ghost predicate Orthonormal(n: nat, h: (int, int) -> real, u: int -> (int -> real)) {
    forall a, b {:trigger Bilinear(n, h, u(a), u(b))} :: 0 <= a < n && 0 <= b < n ==>
      Bilinear(n, h, u(a), u(b)) == if a == b then 1.0 else 0.0
  }

  lemma {:induction false} CombinationStepLeft(n: nat, h: (int, int) -> real, e: int -> real, u: int -> (int -> real),
                                               k: nat, y: int -> real)
    ensures Bilinear(n, h, Combination(e, u, k + 1), y)
         == Bilinear(n, h, Combination(e, u, k), y) + Times(e(k), Bilinear(n, h, u(k), y))
  {
    BilinearLeft(n, h, Combination(e, u, k), e(k), u(k), Combination(e, u, k + 1), y);
  }

  lemma {:induction false} CombinationStepRight(n: nat, h: (int, int) -> real, e: int -> real, u: int -> (int -> real),
                                                k: nat, y: int -> real)
    ensures Bilinear(n, h, y, Combination(e, u, k + 1))
         == Bilinear(n, h, y, Combination(e, u, k)) + Times(e(k), Bilinear(n, h, y, u(k)))
  {
    BilinearRight(n, h, Combination(e, u, k), e(k), u(k), Combination(e, u, k + 1), y);
  }

  lemma {:induction false} CombinationAgainstRow(n: nat, h: (int, int) -> real, e: int -> real, u: int -> (int -> real),
                                                 k: nat, b: nat)
    requires Orthonormal(n, h, u) && k <= n && b < n
    ensures Bilinear(n, h, Combination(e, u, k), u(b)) == if b < k then e(b) else 0.0
  {
    if k == 0 {
      ZeroLeft(n, h, Combination(e, u, 0), u(b));
    } else {
      CombinationAgainstRow(n, h, e, u, k - 1, b);
      CombinationStepLeft(n, h, e, u, k - 1, u(b));
      TimesUnits(e(k - 1));
    }
  }

  lemma {:induction false} CombinationAgainstCombination(n: nat, h: (int, int) -> real, e: int -> real,
                                                         u: int -> (int -> real), k: nat)
    requires Orthonormal(n, h, u) && k <= n
    ensures Bilinear(n, h, Combination(e, u, n), Combination(e, u, k)) == Sum(k, a => Square(e(a)))
  {
    if k == 0 {
      ZeroRight(n, h, Combination(e, u, n), Combination(e, u, 0));
    } else {
      CombinationAgainstCombination(n, h, e, u, k - 1);
      CombinationStepRight(n, h, e, u, k - 1, Combination(e, u, n));
      CombinationAgainstRow(n, h, e, u, n, k - 1);
    }
  }

  // ----- The loss of quantize_weight

  ghost function Entries(m: Matrix): (f: (int, int) -> real)
    ensures forall i, j :: 0 <= i < |m| && 0 <= j < |m[i]| ==> f(i, j) == m[i][j]
  {
    (i, j) => if 0 <= i < |m| && 0 <= j < |m[i]| then m[i][j] else 0.0
  }

  ghost function Rows(m: Matrix): (f: int -> (int -> real))
    ensures forall i, j :: 0 <= i < |m| && 0 <= j < |m[i]| ==> f(i)(j) == m[i][j]
  {
    i => j => if 0 <= i < |m| && 0 <= j < |m[i]| then m[i][j] else 0.0
  }

  ghost predicate UpperTriangular(u: Matrix, n: nat) {
    Shaped(u, n, n) && forall i, j :: 0 <= j < i < n ==> u[i][j] == 0.0
  }

  /**
    What the two Cholesky calls promise: u is the upper factor of the inverse of h, so U * H * U^T is the identity.
    */
  ghost predicate FactorsInverse(u: Matrix, h: Matrix, n: nat) {
    && UpperTriangular(u, n)
    && Shaped(h, n, n)
    && (forall i :: 0 <= i < n ==> u[i][i] != 0.0)
    && Orthonormal(n, Entries(h), Rows(u))
  }

  ghost function Errors(p: Problem, r: nat): (f: int -> real)
    requires p.Valid() && r < p.rows
    ensures forall a :: 0 <= a < p.cols ==> f(a) == p.Err(r, a)
  {
    a => if 0 <= a < p.cols then p.Err(r, a) else 0.0
  }

  /** w0 - q, as a row vector. */
  ghost function Difference(p: Problem, r: nat): (f: int -> real)
    requires p.Valid() && r < p.rows
    ensures forall j :: 0 <= j < p.cols ==> f(j) == p.w[r][j] - p.Quantized(r, j)
  {
    j => if 0 <= j < p.cols then p.w[r][j] - p.Quantized(r, j) else 0.0
  }

  lemma {:induction false} SpreadIsCombination(p: Problem, r: nat, j: nat, k: nat)
    requires p.Valid() && r < p.rows && j < p.cols && k <= p.cols
    ensures p.Spread(r, j, k) == Combination(Errors(p, r), Rows(p.u), k)(j)
    decreases k
  {
    if k > 0 {
      SpreadIsCombination(p, r, j, k - 1);
      assert Errors(p, r)(k - 1) == p.Err(r, k - 1) && Rows(p.u)(k - 1)(j) == p.u[k - 1][j];
    }
  }

  lemma {:induction false} SpreadStopsAtDiagonal(p: Problem, r: nat, j: nat, k: nat)
    requires p.Valid() && r < p.rows && j < k <= p.cols
    requires UpperTriangular(p.u, p.cols)
    ensures p.Spread(r, j, k) == p.Spread(r, j, j + 1)
    decreases k
  {
    if j + 1 < k {
      SpreadStopsAtDiagonal(p, r, j, k - 1);
      TimesUnits(p.Err(r, k - 1));
    }
  }

  /** Without a mask, W0 - Q = Err * U. */
  lemma {:induction false} DifferenceIsSpreadError(p: Problem, r: nat, j: nat)
    requires p.Valid() && r < p.rows && j < p.cols
    requires p.mask.None? && UpperTriangular(p.u, p.cols)
    ensures Difference(p, r)(j) == Combination(Errors(p, r), Rows(p.u), p.cols)(j)
  {
    SpreadIsCombination(p, r, j, p.cols);
    SpreadStopsAtDiagonal(p, r, j, p.cols);
    TimesUnits(p.Spread(r, j, j));
    TimesCommutes(1.0, p.Spread(r, j, j));
    assert p.Raw(r, j) == p.w[r][j] - p.Spread(r, j, j);
    QuotientTimes(p.Raw(r, j) - p.Quantized(r, j), p.u[j][j]);
    assert p.Spread(r, j, j + 1) == p.Spread(r, j, j) + Times(p.Err(r, j), p.u[j][j]);
  }

  lemma {:induction false} QuotientTimes(x: real, d: real)
    requires d != 0.0
    ensures Times(x / d, d) == x
  {
  }

  lemma {:induction false} RowLossIsSquaredErrors(p: Problem, r: nat, k: nat)
    requires p.Valid() && r < p.rows && k <= p.cols
    ensures p.RowLoss(r, k) == Sum(k, a => Square(Errors(p, r)(a))) / 2.0
  {
    if k > 0 {
      RowLossIsSquaredErrors(p, r, k - 1);
      SquarePositive(p.u[k - 1][k - 1]);
      SquareOfQuotient(p.Raw(r, k - 1) - p.Quantized(r, k - 1), p.u[k - 1][k - 1]);
      assert Errors(p, r)(k - 1) == p.Err(r, k - 1);
    }
  }

  /** Half the sum over the first k rows of (w0 - q) * H * (w0 - q)^T. */
  ghost function Objective(p: Problem, h: Matrix, k: nat): real
    requires p.Valid() && k <= p.rows
  {
    if k == 0 then 0.0
    else
      Objective(p, h, k - 1)
      + Bilinear(p.cols, Entries(h), Difference(p, k - 1), Difference(p, k - 1)) / 2.0
  }

  /** Without a mask, the loss returned is the quadratic objective under the matrix that was factored. */
  lemma {:induction false} LossIsObjective(p: Problem, h: Matrix, k: nat)
    requires p.Valid() && k <= p.rows
    requires p.mask.None? && FactorsInverse(p.u, h, p.cols)
    ensures p.Loss(k) == Objective(p, h, k)
  {
    if k > 0 {
      LossIsObjective(p, h, k - 1);
      RowLossIsObjective(p, h, k - 1);
    }
  }

  lemma {:induction false} RowLossIsObjective(p: Problem, h: Matrix, r: nat)
    requires p.Valid() && r < p.rows
    requires p.mask.None? && FactorsInverse(p.u, h, p.cols)
    ensures p.RowLoss(r, p.cols) == Bilinear(p.cols, Entries(h), Difference(p, r), Difference(p, r)) / 2.0
  {
    var all := Combination(Errors(p, r), Rows(p.u), p.cols);
    forall j | 0 <= j < p.cols
      ensures Difference(p, r)(j) == all(j)
    {
      DifferenceIsSpreadError(p, r, j);
    }
    BilinearEqual(p.cols, Entries(h), Difference(p, r), all);
    CombinationAgainstCombination(p.cols, Entries(h), Errors(p, r), Rows(p.u), p.cols);
    RowLossIsSquaredErrors(p, r, p.cols);
  }
}
