/** What the blocked column loop computes, against the textbook algorithm that updates every later column at once. */
module GptqReference {
  import opened Collections
  import opened Sums
  import opened GptqColumns

  /**
    Column j of row r after the eager algorithm has processed k columns: column c is quantized where it stands and its
    error is subtracted from all columns after c straight away.
    */
  ghost function Eager(p: Problem, r: nat, j: nat, k: nat): real
    requires p.Valid() && r < p.rows && j < p.cols && k <= p.cols
    decreases k
  {
    if k == 0 then p.w[r][j]
    else
      var c := k - 1;
      var q := p.quantize(r, c, Eager(p, r, c, c));
      if j < c then Eager(p, r, j, c)
      else if j == c then q
      else Subtract(Eager(p, r, j, c), Times((Eager(p, r, c, c) - q) / p.u[c][c], p.u[c][j]), p.Mask(r, j))
  }

  lemma {:induction false} EagerColumn(p: Problem, r: nat, j: nat, k: nat)
    requires p.Valid() && r < p.rows && j < p.cols && k <= p.cols
    ensures Eager(p, r, j, k) == if j < k then p.Quantized(r, j) else p.Partial(r, j, k)
    decreases k
  {
    if k == 0 {
      assert Times(p.Mask(r, j), 0.0) == 0.0;
    } else {
      var c := k - 1;
      EagerColumn(p, r, c, c);
      EagerColumn(p, r, j, c);
      if j > c {
        PartialStep(p, r, j, c);
      }
    }
  }

  /** The blocked loop quantizes each entry exactly as the eager algorithm does, whatever its block size was. */
  lemma {:induction false} LazyEqualsEager(p: Problem, r: nat, j: nat)
    requires p.Valid() && r < p.rows && j < p.cols
    ensures p.Quantized(r, j) == Eager(p, r, j, p.cols)
    ensures p.Raw(r, j) == Eager(p, r, j, j)
    ensures p.ColumnLoss(r, j) == Square((Eager(p, r, j, j) - Eager(p, r, j, p.cols)) / p.u[j][j])
  {
    EagerColumn(p, r, j, p.cols);
    EagerColumn(p, r, j, j);
    SquarePositive(p.u[j][j]);
    SquareOfQuotient(p.Raw(r, j) - p.Quantized(r, j), p.u[j][j]);
  }

  /** A masked entry reaches quantization with the value it started with. */
  lemma {:induction false} MaskedEntryKept(p: Problem, r: nat, j: nat)
    requires p.Valid() && r < p.rows && j < p.cols
    requires p.Mask(r, j) == 0.0
    ensures p.Quantized(r, j) == p.quantize(r, j, p.w[r][j])
  {
    assert Times(0.0, p.Spread(r, j, j)) == 0.0;
    assert p.Raw(r, j) == p.w[r][j];
  }

  ghost predicate IsIdentity(u: Matrix, n: nat) {
    Shaped(u, n, n) && forall i, j :: 0 <= i < n && 0 <= j < n ==> u[i][j] == if i == j then 1.0 else 0.0
  }

  lemma {:induction false} NothingSpreads(p: Problem, r: nat, j: nat, k: nat)
    requires p.Valid() && r < p.rows && j < p.cols && k <= j
    requires IsIdentity(p.u, p.cols)
    ensures p.Spread(r, j, k) == 0.0
    decreases k
  {
    if k > 0 {
      NothingSpreads(p, r, j, k - 1);
      assert Times(p.Err(r, k - 1), 0.0) == 0.0;
    }
  }

  /** With the identity that replaces a failed factorization every column is rounded to nearest on its own. */
  lemma {:induction false} FallbackIsRoundToNearest(p: Problem, r: nat, j: nat)
    requires p.Valid() && r < p.rows && j < p.cols
    requires IsIdentity(p.u, p.cols)
    ensures p.Quantized(r, j) == p.quantize(r, j, p.w[r][j])
  {
    NothingSpreads(p, r, j, j);
    assert Times(p.Mask(r, j), 0.0) == 0.0;
    assert p.Raw(r, j) == p.w[r][j];
  }
}
