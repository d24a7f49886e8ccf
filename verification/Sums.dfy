/** Finite sums of reals, used wherever the source calls a tensor reduction or a matrix product. */
module Sums {

  /** Multiplication, named so that proofs can rewrite products as units. */
  function Times(x: real, y: real): real {
    x * y
  }

  function Square(x: real): real {
    Times(x, x)
  }

  lemma {:induction false} TimesDistributes(x: real, y: real, z: real)
    ensures Times(x, y + z) == Times(x, y) + Times(x, z)
  {
  }

  lemma {:induction false} TimesCommutes(x: real, y: real)
    ensures Times(x, y) == Times(y, x)
  {
  }

  lemma {:induction false} TimesAssociates(x: real, y: real, z: real)
    ensures Times(Times(x, y), z) == Times(x, Times(y, z))
  {
  }

  lemma {:induction false} TimesUnits(x: real)
    ensures Times(x, 1.0) == x && Times(x, 0.0) == 0.0
  {
  }

  lemma {:induction false} TimesPositive(x: real, y: real)
    requires x > 0.0 && y > 0.0
    ensures Times(x, y) > 0.0
  {
  }

  lemma {:induction false} TimesNegated(x: real, y: real)
    ensures Times(-x, -y) == Times(x, y)
  {
  }

  lemma {:induction false} SquarePositive(x: real)
    requires x != 0.0
    ensures Square(x) > 0.0
  {
    if x > 0.0 {
      TimesPositive(x, x);
    } else {
      TimesPositive(-x, -x);
      TimesNegated(x, x);
    }
  }

  lemma {:induction false} SquareOfQuotient(x: real, y: real)
    requires y != 0.0 && Square(y) != 0.0
    ensures Square(x) / Square(y) == Square(x / y)
  {
    var z := x / y;
    assert x == z * y;
    assert Square(x) == Square(z) * Square(y);
  }

  /** The sum of f over 0, 1, ..., n-1. */
  ghost function Sum(n: nat, f: int -> real): real {
    if n == 0 then 0.0 else Sum(n - 1, f) + f(n - 1)
  }

  /** A single value that is not zero is the sum. */
  lemma {:induction false} SumOfOne(n: nat, k: nat, f: int -> real)
    requires k < n && forall i :: 0 <= i < n && i != k ==> f(i) == 0.0
    ensures Sum(n, f) == f(k)
  {
    if k == n - 1 {
      SumZero(n - 1, f);
    } else {
      SumOfOne(n - 1, k, f);
    }
  }

  /** The sum of a sequence. */
  function Total(s: seq<real>): real {
    if s == [] then 0.0 else Total(s[..|s| - 1]) + s[|s| - 1]
  }

  lemma {:induction false} SumEqual(n: nat, f: int -> real, g: int -> real)
    requires forall i :: 0 <= i < n ==> f(i) == g(i)
    ensures Sum(n, f) == Sum(n, g)
  {
    if n > 0 {
      SumEqual(n - 1, f, g);
    }
  }

  lemma {:induction false} SumZero(n: nat, f: int -> real)
    requires forall i :: 0 <= i < n ==> f(i) == 0.0
    ensures Sum(n, f) == 0.0
  {
    if n > 0 {
      SumZero(n - 1, f);
    }
  }

  lemma {:induction false} SumAdd(n: nat, f: int -> real, g: int -> real)
    ensures Sum(n, i => f(i) + g(i)) == Sum(n, f) + Sum(n, g)
  {
    if n > 0 {
      SumAdd(n - 1, f, g);
    }
  }

  lemma {:induction false} SumScale(n: nat, c: real, f: int -> real)
    ensures Sum(n, i => Times(c, f(i))) == Times(c, Sum(n, f))
  {
    if n > 0 {
      SumScale(n - 1, c, f);
      TimesDistributes(c, Sum(n - 1, f), f(n - 1));
    }
  }
}
