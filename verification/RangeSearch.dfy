/** The search for quantization ranges of least error, and the moving average of the ranges found. */
module RangeSearch {
  import opened Sums

  type Vector = seq<real>

  datatype Range = Range(min: Vector, max: Vector)

  /**
    The search over one observation: error is the quantization error of a channel when its range is shrunk by so many grid
    steps, and huge is the largest number of the tensor's type.
    */
  datatype Search = Search(full: Range, steps: nat, grid: real, patience: int, huge: real, error: (nat, nat) -> real)
  {
    ghost predicate Valid() {
      && |full.min| == |full.max| && grid > 0.0 && steps as real <= grid
      && forall c :: 0 <= c < |full.min| ==>
           full.min[c] <= full.max[c]
    }

    function Channels(): nat {
      |full.min|
    }

    function Factor(i: nat): real
      requires grid > 0.0
    {
      1.0 - (i as real) / grid
    }

    /** Step i is the first of the first n with the least error, and its error is below huge. */
    ghost predicate IsFirstLeast(c: nat, n: nat, i: nat) {
      && i < n && error(i, c) < huge && forall j: nat :: j < n ==>
         error(i, c) <= error(j, c) && (j < i ==> error(i, c) < error(j, c))
    }

    ghost predicate NeverBelow(c: nat, n: nat) {
      forall j: nat :: j < n ==> error(j, c) >= huge
    }

    /** Step i lowers the least error of some channel. */
    ghost predicate Improves(i: nat) {
      exists c: nat :: c < Channels() && ImprovesAt(c, i)
    }

    ghost predicate ImprovesAt(c: nat, i: nat) {
      error(i, c) < huge && forall j: nat :: j < i ==> error(i, c) < error(j, c)
    }

    /** The steps before n end with so many that improved nothing. */
    ghost predicate Quiet(n: nat, count: nat) {
      count <= n && forall i: nat :: n - count <= i < n ==> !Improves(i)
    }

    /** How many steps without improvement end the search. */
    function Limit(): nat {
      if patience <= 1 then 1 else patience
    }

    /** The search stops after n steps: at the first run of steps without improvement that is long enough, or at the end. */
    ghost predicate StopsAfter(n: nat) {
      && n <= steps && (n == steps || Quiet(n, Limit()))
      && forall m: nat :: m < n ==> !Quiet(m, Limit())
    }

    ghost predicate Chooses(c: nat, n: nat, min: real, max: real)
      requires c < |full.min| == |full.max| && grid > 0.0
    {
      || (NeverBelow(c, n) && min == full.min[c] && max == full.max[c])
      || (exists i :: IsFirstLeast(c, n, i) && min == Times(Factor(i), full.min[c]) && max == Times(Factor(i), full.max[c]))
    }
  }

  lemma {:induction false} ShrunkInOrder(p: real, a: real, b: real)
    requires p >= 0.0 && a <= b
    ensures Times(p, a) <= Times(p, b)
  {
  }

  /** The search starts from the whole range, and every step takes one part in grid of it away. */
  lemma {:induction false} FactorSteps(S: Search, i: nat)
    requires S.grid > 0.0
    ensures S.Factor(0) == 1.0 && S.Factor(i) - S.Factor(i + 1) == 1.0 / S.grid
    ensures Times(S.Factor(i), S.grid) == S.grid - i as real
  {
    var q := (i as real) / S.grid;
    assert q * S.grid == i as real;
    assert ((i + 1) as real) / S.grid == q + 1.0 / S.grid;
  }

  lemma {:induction false} FactorNonNegative(S: Search, i: nat)
    requires S.Valid() && i < S.steps
    ensures S.Factor(i) >= 0.0
  {
    var q := (i as real) / S.grid;
    assert Times(q, S.grid) == i as real;
    if q > 1.0 {
      MoreThanOne(q, S.grid);
    }
  }

  lemma {:induction false} MoreThanOne(q: real, x: real)
    requires q > 1.0 && x > 0.0
    ensures Times(q, x) > x
  {
    TimesPositive(q - 1.0, x);
  }

  /** A chosen range is not inverted. */
  lemma {:induction false} ChosenInOrder(S: Search, c: nat, n: nat, min: real, max: real)
    requires S.Valid() && c < S.Channels() && n <= S.steps && S.Chooses(c, n, min, max)
    ensures min <= max
  {
    if i :| S.IsFirstLeast(c, n, i) && min == Times(S.Factor(i), S.full.min[c]) && max == Times(S.Factor(i), S.full.max[c]) {
      FactorNonNegative(S, i);
      ShrunkInOrder(S.Factor(i), S.full.min[c], S.full.max[c]);
    }
  }

  /** The least error of a channel so far. */
  ghost predicate Tracks(S: Search, c: nat, n: nat, best: real, min: real, max: real)
    requires S.Valid() && c < S.Channels()
  {
    || (S.NeverBelow(c, n) && best == S.huge && min == S.full.min[c] && max == S.full.max[c])
    || (exists i :: S.IsFirstLeast(c, n, i) && best == S.error(i, c)
                    && min == Times(S.Factor(i), S.full.min[c]) && max == Times(S.Factor(i), S.full.max[c]))
  }

  lemma {:induction false} TracksNext(S: Search, c: nat, n: nat, best: real, min: real, max: real)
    requires S.Valid() && c < S.Channels() && Tracks(S, c, n, best, min, max)
    ensures S.error(n, c) < best <==> S.ImprovesAt(c, n)
    ensures if S.error(n, c) < best
            then Tracks(S, c, n + 1, S.error(n, c), Times(S.Factor(n), S.full.min[c]), Times(S.Factor(n), S.full.max[c]))
            else Tracks(S, c, n + 1, best, min, max)
  {
    if S.error(n, c) < best {
      assert S.IsFirstLeast(c, n + 1, n);
    } else if !S.NeverBelow(c, n) {
      var i :| S.IsFirstLeast(c, n, i) && best == S.error(i, c)
               && min == Times(S.Factor(i), S.full.min[c]) && max == Times(S.Factor(i), S.full.max[c]);
      assert S.IsFirstLeast(c, n + 1, i);
    }
  }

  /** One step of the search: the channels that improve take the shrunk range. */
  method Step(S: Search, i: nat, best: Vector, min: Vector, max: Vector)
    returns (best': Vector, min': Vector, max': Vector, improved: bool)
    requires S.Valid() && |best| == |min| == |max| == S.Channels()
    requires forall c :: 0 <= c < S.Channels() ==> Tracks(S, c, i, best[c], min[c], max[c])
    ensures |best'| == |min'| == |max'| == S.Channels()
    ensures forall c :: 0 <= c < S.Channels() ==> Tracks(S, c, i + 1, best'[c], min'[c], max'[c])
    ensures improved <==> S.Improves(i)
  {
    hide Tracks, Search.ImprovesAt;
    best', min', max', improved := best, min, max, false;
    var p := S.Factor(i);
    for c := 0 to S.Channels()
      invariant |best'| == |min'| == |max'| == S.Channels()
      invariant forall d :: 0 <= d < c ==> Tracks(S, d, i + 1, best'[d], min'[d], max'[d])
      invariant forall d :: c <= d < S.Channels() ==> best'[d] == best[d] && min'[d] == min[d] && max'[d] == max[d]
      invariant improved <==> exists d: nat :: d < c && S.ImprovesAt(d, i)
    {
      TracksNext(S, c, i, best[c], min[c], max[c]);
      if S.error(i, c) < best'[c] {
        best' := best'[c := S.error(i, c)];
        min', max' := min'[c := Times(p, S.full.min[c])], max'[c := Times(p, S.full.max[c])];
        improved := true;
      }
    }
  }

  /** Finds each channel's range; evaluated is how many steps were tried. */
  method GridSearch(S: Search) returns (r: Range, evaluated: nat)
    requires S.Valid()
    ensures |r.min| == |r.max| == S.Channels() && S.StopsAfter(evaluated)
    ensures forall c :: 0 <= c < S.Channels() ==> S.Chooses(c, evaluated, r.min[c], r.max[c]) && r.min[c] <= r.max[c]
  {
    var best: Vector := seq(S.Channels(), c => S.huge);
    var min, max := S.full.min, S.full.max;
    var noImproveCount: nat := 0;
    var i: nat := 0;
    while i < S.steps
      invariant i <= S.steps && |best| == |min| == |max| == S.Channels()
      invariant forall c :: 0 <= c < S.Channels() ==> Tracks(S, c, i, best[c], min[c], max[c])
      invariant noImproveCount < S.Limit() && S.Quiet(i, noImproveCount)
      invariant noImproveCount < i ==> S.Improves(i - noImproveCount - 1)
      invariant forall m: nat :: m <= i ==> !S.Quiet(m, S.Limit())
    {
      hide Tracks, Search.Improves;
      var improved: bool;
      best, min, max, improved := Step(S, i, best, min, max);
      QuietNext(S, i, noImproveCount);
      i := i + 1;
      if improved {
        noImproveCount := 0;
      } else {
        noImproveCount := noImproveCount + 1;
        if noImproveCount >= S.patience {
          break;
        }
      }
    }
    r, evaluated := Range(min, max), i;
    forall c: nat | c < S.Channels()
      ensures S.Chooses(c, i, min[c], max[c]) && min[c] <= max[c]
    {
      assert Tracks(S, c, i, best[c], min[c], max[c]);
      ChosenInOrder(S, c, i, min[c], max[c]);
    }
  }

  lemma {:induction false} QuietNext(S: Search, i: nat, count: nat)
    requires S.Quiet(i, count) && count < S.Limit() && (count < i ==> S.Improves(i - count - 1))
    ensures S.Improves(i) ==> !S.Quiet(i + 1, S.Limit()) && S.Quiet(i + 1, 0)
    ensures !S.Improves(i) ==> S.Quiet(i + 1, count + 1) && (S.Quiet(i + 1, S.Limit()) <==> count + 1 == S.Limit())
  {
    assert count < i && S.Limit() > count + 1 ==> !S.Quiet(i + 1, S.Limit()) by {
      assert count < i ==> S.Improves(i - count - 1);
    }
  }

  // ----- The moving average

  function Lerp(past: Vector, current: Vector, weight: real): (r: Vector)
    requires |past| == |current|
    ensures |r| == |past|
    ensures forall c :: 0 <= c < |r| ==>
              r[c] == Times(past[c], 1.0 - weight) + Times(current[c], weight)
  {
    seq(|past|, c requires 0 <= c < |past| => Times(past[c], 1.0 - weight) + Times(current[c], weight))
  }

  ghost function Scaled(w: Vector, s: real): (r: Vector)
    ensures |r| == |w| && forall k :: 0 <= k < |w| ==> r[k] == Times(w[k], s)
  {
    seq(|w|, k requires 0 <= k < |w| => Times(w[k], s))
  }

  /** The weight of each of n observations in the average after the last. */
  ghost function Weights(n: nat, a: real): (w: Vector)
    ensures |w| == n
  {
    if n == 0 then []
    else if n == 1 then [1.0]
    else Scaled(Weights(n - 1, a), 1.0 - a) + [a]
  }

  ghost function Power(x: real, n: nat): real {
    if n == 0 then 1.0 else Times(Power(x, n - 1), x)
  }

  /** The weight of an observation is a, and that of the first is one, times 1 - a for every observation after it. */
  lemma {:induction false} WeightOf(n: nat, a: real, k: nat)
    requires k < n
    ensures Weights(n, a)[k] == Times(if k == 0 then 1.0 else a, Power(1.0 - a, n - 1 - k))
  {
    if k < n - 1 {
      WeightOf(n - 1, a, k);
      TimesAssociates(if k == 0 then 1.0 else a, Power(1.0 - a, n - 2 - k), 1.0 - a);
    } else {
      TimesCommutes(if k == 0 then 1.0 else a, 1.0);
      TimesUnits(if k == 0 then 1.0 else a);
    }
  }

  function At(v: Vector, c: nat): real {
    if c < |v| then v[c] else 0.0
  }

  /** The combination of the values with the weights, for one channel. */
  ghost function Combined(w: Vector, values: seq<Vector>, c: nat): real
    requires |w| == |values|
  {
    if w == [] then 0.0
    else Combined(w[..|w| - 1], values[..|w| - 1], c) + Times(At(values[|w| - 1], c), w[|w| - 1])
  }

  lemma {:induction false} TotalNext(w: Vector, x: real)
    ensures Total(w + [x]) == Total(w) + x
  {
    assert (w + [x])[..|w|] == w;
  }

  lemma {:induction false} CombinedAppend(w: Vector, x: real, values: seq<Vector>, v: Vector, c: nat)
    requires |w| == |values|
    ensures Combined(w + [x], values + [v], c) == Combined(w, values, c) + Times(At(v, c), x)
  {
    assert (w + [x])[..|w|] == w && (values + [v])[..|w|] == values;
  }

  lemma {:induction false} TotalScaled(w: Vector, s: real)
    ensures Total(Scaled(w, s)) == Times(Total(w), s)
    decreases |w|
  {
    if w == [] {
      TimesUnits(s);
      TimesCommutes(0.0, s);
    } else {
      var front, last := w[..|w| - 1], w[|w| - 1];
      TotalScaled(front, s);
      assert Scaled(w, s)[..|w| - 1] == Scaled(front, s);
      TimesCommutes(Total(w), s);
      TimesDistributes(s, Total(front), last);
      TimesCommutes(s, Total(front));
      TimesCommutes(s, last);
    }
  }

  lemma {:induction false} CombinedScaled(w: Vector, values: seq<Vector>, s: real, c: nat)
    requires |w| == |values|
    ensures Combined(Scaled(w, s), values, c) == Times(Combined(w, values, c), s)
    decreases |w|
  {
    if w == [] {
      TimesCommutes(0.0, s);
      TimesUnits(s);
    } else {
      var n := |w| - 1;
      var front := values[..n];
      CombinedScaled(w[..n], front, s, c);
      assert Scaled(w, s)[..n] == Scaled(w[..n], s);
      var before, v := Combined(w[..n], front, c), At(values[n], c);
      TimesAssociates(v, w[n], s);
      TimesCommutes(before + Times(v, w[n]), s);
      TimesDistributes(s, before, Times(v, w[n]));
      TimesCommutes(s, before);
      TimesCommutes(s, Times(v, w[n]));
    }
  }

  lemma {:induction false} WeightsNext(n: nat, a: real)
    requires n > 0
    ensures Weights(n + 1, a) == Scaled(Weights(n, a), 1.0 - a) + [a]
    ensures Weights(1, a) == [1.0]
  {
  }

  lemma {:induction false} ScaledNonNegative(w: Vector, s: real)
    requires s >= 0.0 && forall k :: 0 <= k < |w| ==> w[k] >= 0.0
    ensures forall k :: 0 <= k < |w| ==> Scaled(w, s)[k] >= 0.0
  {
    forall k | 0 <= k < |w|
      ensures Scaled(w, s)[k] >= 0.0
    {
      ShrunkInOrder(s, 0.0, w[k]);
      TimesCommutes(w[k], s);
      TimesUnits(s);
    }
  }

  /** The weights are those of a convex combination. */
  lemma {:induction false} WeightsAreConvex(n: nat, a: real)
    requires n > 0 && 0.0 <= a <= 1.0
    ensures Total(Weights(n, a)) == 1.0 && forall k :: 0 <= k < n ==> Weights(n, a)[k] >= 0.0
  {
    hide Weights, Total, Scaled;
    WeightsNext(n, a);
    if n == 1 {
      OneWeight();
    } else {
      WeightsNext(n - 1, a);
      WeightsAreConvex(n - 1, a);
      ConvexNext(Weights(n - 1, a), a);
    }
  }

  lemma {:induction false} OneWeight()
    ensures Total([1.0]) == 1.0
  {
    TotalNext([], 1.0);
    assert [] + [1.0] == [1.0];
  }

  lemma {:induction false} ConvexNext(before: Vector, a: real)
    requires 0.0 <= a <= 1.0 && Total(before) == 1.0 && forall k :: 0 <= k < |before| ==> before[k] >= 0.0
    ensures |Scaled(before, 1.0 - a)| == |before|
    ensures var w := Scaled(before, 1.0 - a) + [a]; Total(w) == 1.0 && forall k :: 0 <= k < |w| ==> w[k] >= 0.0
  {
    hide Total;
    TotalNext(Scaled(before, 1.0 - a), a);
    TotalScaled(before, 1.0 - a);
    TimesCommutes(1.0, 1.0 - a);
    TimesUnits(1.0 - a);
    ScaledNonNegative(before, 1.0 - a);
  }

  class MovingAverageObserver {
    const averagingConstant: real
    var past: seq<Range>
    /** What was observed so far. */
    ghost var observed: seq<Range>

    ghost predicate Valid(channels: nat)
      reads this
    {
      && 0.0 <= averagingConstant <= 1.0
      && |past| == (if observed == [] then 0 else 1)
      && (forall k :: 0 <= k < |observed| ==> Fits(observed[k], channels))
      && (past != [] ==> Fits(past[0], channels) && IsAverage(past[0], observed, averagingConstant, channels))
    }

    constructor (averagingConstant: real)
      requires 0.0 <= averagingConstant <= 1.0
      ensures this.averagingConstant == averagingConstant && past == [] && observed == []
      ensures forall channels :: Valid(channels)
    {
      this.averagingConstant := averagingConstant;
      past, observed := [], [];
    }

    /** The running range after one more observation, for which current is the range of least error. */
    method GetMinMax(current: Range, channels: nat) returns (r: Range)
      requires Valid(channels) && Fits(current, channels)
      modifies this
      ensures Valid(channels) && observed == old(observed) + [current] && past == [r]
    {
      r := current;
      if past != [] && averagingConstant != 1.0 {
        r := Range(Lerp(past[0].min, current.min, averagingConstant), Lerp(past[0].max, current.max, averagingConstant));
      }
      NextAverage(past, observed, current, r, averagingConstant, channels);
      past := [r];
      observed := observed + [current];
    }
  }

  ghost predicate Fits(r: Range, channels: nat) {
    |r.min| == |r.max| == channels && forall c :: 0 <= c < channels ==> r.min[c] <= r.max[c]
  }

  ghost function Mins(observed: seq<Range>): (m: seq<Vector>)
    ensures |m| == |observed| && forall k :: 0 <= k < |m| ==> m[k] == observed[k].min
  {
    seq(|observed|, k requires 0 <= k < |observed| => observed[k].min)
  }

  ghost function Maxs(observed: seq<Range>): (m: seq<Vector>)
    ensures |m| == |observed| && forall k :: 0 <= k < |m| ==> m[k] == observed[k].max
  {
    seq(|observed|, k requires 0 <= k < |observed| => observed[k].max)
  }

  /** The running range combines those observed, with the weights above. */
  ghost predicate IsAverage(r: Range, observed: seq<Range>, a: real, channels: nat)
    requires |r.min| == |r.max| == channels
  {
    forall c :: 0 <= c < channels ==>
      && r.min[c] == Combined(Weights(|observed|, a), Mins(observed), c)
      && r.max[c] == Combined(Weights(|observed|, a), Maxs(observed), c)
  }

  lemma {:induction false} CombinedNext(values: seq<Vector>, v: Vector, a: real, c: nat)
    requires |values| > 0
    ensures Combined(Weights(|values| + 1, a), values + [v], c)
         == Times(Combined(Weights(|values|, a), values, c), 1.0 - a) + Times(At(v, c), a)
  {
    hide Weights, Combined;
    WeightsNext(|values|, a);
    CombinedAppend(Scaled(Weights(|values|, a), 1.0 - a), a, values, v, c);
    CombinedScaled(Weights(|values|, a), values, 1.0 - a, c);
  }

  lemma {:induction false} OnlyOne(v: Vector, a: real, c: nat)
    ensures Combined(Weights(1, a), [v], c) == At(v, c)
  {
    WeightsNext(1, a);
    CombinedAppend([], 1.0, [], v, c);
    assert [] + [1.0] == [1.0] && [] + [v] == [v];
    TimesUnits(At(v, c));
  }

  lemma {:induction false} NextAverage(past: seq<Range>, observed: seq<Range>, current: Range, r: Range, a: real,
                                       channels: nat)
    requires 0.0 <= a <= 1.0 && Fits(current, channels) && |past| == (if observed == [] then 0 else 1)
    requires past != [] ==> Fits(past[0], channels) && IsAverage(past[0], observed, a, channels)
    requires r == if past != []
             && a != 1.0 then Range(Lerp(past[0].min, current.min, a), Lerp(past[0].max, current.max, a))
                  else current
    ensures Fits(r, channels) && IsAverage(r, observed + [current], a, channels)
  {
    hide Weights, Combined;
    assert Mins(observed + [current]) == Mins(observed) + [current.min];
    assert Maxs(observed + [current]) == Maxs(observed) + [current.max];
    forall c: nat | c < channels
      ensures r.min[c] <= r.max[c]
      ensures r.min[c] == Combined(Weights(|observed| + 1, a), Mins(observed + [current]), c)
      ensures r.max[c] == Combined(Weights(|observed| + 1, a), Maxs(observed + [current]), c)
    {
      if observed == [] {
        OnlyOne(current.min, a, c);
        OnlyOne(current.max, a, c);
        assert Mins(observed + [current]) == [current.min] && Maxs(observed + [current]) == [current.max];
      } else {
        CombinedNext(Mins(observed), current.min, a, c);
        CombinedNext(Maxs(observed), current.max, a, c);
        LerpInOrder(past[0].min[c], past[0].max[c], current.min[c], current.max[c], a);
      }
    }
  }

  lemma {:induction false} LerpInOrder(pastMin: real, pastMax: real, min: real, max: real, a: real)
    requires 0.0 <= a <= 1.0 && pastMin <= pastMax && min <= max
    ensures Times(pastMin, 1.0 - a) + Times(min, a) <= Times(pastMax, 1.0 - a) + Times(max, a)
    ensures a == 1.0 ==>
              Times(pastMin, 1.0 - a) + Times(min, a) == min && Times(pastMax, 1.0 - a) + Times(max, a) == max
  {
    TimesCommutes(pastMin, 1.0 - a);
    TimesCommutes(pastMax, 1.0 - a);
    TimesCommutes(min, a);
    TimesCommutes(max, a);
    ShrunkInOrder(1.0 - a, pastMin, pastMax);
    ShrunkInOrder(a, min, max);
    if a == 1.0 {
      TimesUnits(pastMin);
      TimesUnits(pastMax);
      TimesUnits(min);
      TimesUnits(max);
    }
  }
}
