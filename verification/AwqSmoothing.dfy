/**
  Smoothing: a layer's outputs are divided by per-channel scales and the layers that read them are multiplied by the same
  scales. The grid search for the scales overwrites weights, which are then rebuilt from saved originals.
  */
module AwqSmoothing {
  import opened Collections
  import opened Sums

  type Vector = seq<real>
  type Matrix = seq<Vector>

  /** A normalization, whose weight has one dimension, or a linear layer. */
  datatype Layer = Norm(scale: Vector, bias: Option<Vector>) | Linear(weight: Matrix, bias: Option<Vector>)

  /** The layers of a gated feed-forward block. */
  datatype Name = InputNorm | GateProj | UpProj | DownProj

  type Layers = map<Name, Layer>

  // ----- What the layers compute

  function Dot(a: Vector, b: Vector, n: nat): real
    requires n <= |a| && n <= |b|
  {
    if n == 0 then 0.0 else Dot(a, b, n - 1) + Times(a[n - 1], b[n - 1])
  }

  function ProductAt(a: Vector, b: Vector, i: int): real {
    if 0 <= i < |a| && i < |b| then Times(a[i], b[i]) else 0.0
  }

  lemma {:induction false} DotIsSum(a: Vector, b: Vector, n: nat)
    requires n <= |a| && n <= |b|
    ensures Dot(a, b, n) == Sum(n, i => ProductAt(a, b, i))
  {
    if n > 0 {
      DotIsSum(a, b, n - 1);
    }
  }

  function BiasAt(bias: Option<Vector>, i: nat): real {
    if bias.Some? && i < |bias.value| then bias.value[i] else 0.0
  }

  ghost predicate HasBias(bias: Option<Vector>, n: nat) {
    bias.Some? ==> |bias.value| == n
  }

  ghost predicate IsNorm(l: Layer, n: nat) {
    l.Norm? && |l.scale| == n && HasBias(l.bias, n)
  }

  ghost predicate IsLinear(l: Layer, rows: nat, cols: nat) {
    l.Linear? && |l.weight| == rows && HasBias(l.bias, rows) && forall r :: 0 <= r < rows ==> |l.weight[r]| == cols
  }

  function Normalize(l: Layer, u: Vector): (h: Vector)
    requires l.Norm? && |l.scale| == |u|
    ensures |h| == |u|
  {
    seq(|u|, i requires 0 <= i < |u| => Times(l.scale[i], u[i]) + BiasAt(l.bias, i))
  }

  function Apply(l: Layer, x: Vector): (y: Vector)
    requires l.Linear? && forall r :: 0 <= r < |l.weight| ==> |l.weight[r]| == |x|
    ensures |y| == |l.weight|
  {
    seq(|l.weight|, r requires 0 <= r < |l.weight| => Dot(l.weight[r], x, |x|) + BiasAt(l.bias, r))
  }

  /** A gated feed-forward block: width is that of its input, inner that of its hidden activations. */
  ghost predicate IsBlock(layers: Layers, width: nat, inner: nat) {
    && {InputNorm, GateProj, UpProj, DownProj} <= layers.Keys
    && IsNorm(layers[InputNorm], width)
    && IsLinear(layers[GateProj], inner, width)
    && IsLinear(layers[UpProj], inner, width)
    && IsLinear(layers[DownProj], width, inner)
  }

  function Gated(activation: real -> real, gate: Vector, up: Vector): (h: Vector)
    requires |gate| == |up|
    ensures |h| == |gate|
  {
    seq(|gate|, o requires 0 <= o < |gate| => Times(activation(gate[o]), up[o]))
  }

  /** The block's output for u, which is its input divided by its root mean square. */
  function BlockOf(norm: Layer, gate: Layer, up: Layer, down: Layer, width: nat, inner: nat, activation: real -> real,
                   u: Vector): Vector
    requires IsNorm(norm, width) && IsLinear(gate, inner, width) && IsLinear(up, inner, width)
             && IsLinear(down, width, inner)
    requires |u| == width
  {
    var h := Normalize(norm, u);
    Apply(down, Gated(activation, Apply(gate, h), Apply(up, h)))
  }

  function Block(layers: Layers, width: nat, inner: nat, activation: real -> real, u: Vector): Vector
    requires IsBlock(layers, width, inner) && |u| == width
  {
    BlockOf(layers[InputNorm], layers[GateProj], layers[UpProj], layers[DownProj], width, inner, activation, u)
  }

  // ----- Scaling

  ghost predicate Positive(s: Vector) {
    forall i :: 0 <= i < |s| ==> s[i] > 0.0
  }

  function Divided(v: Vector, s: Vector): (d: Vector)
    requires |v| == |s| && Positive(s)
    ensures |d| == |v| && forall i :: 0 <= i < |d| ==> d[i] == v[i] / s[i]
  {
    seq(|v|, i requires 0 <= i < |v| => v[i] / s[i])
  }

  function Multiplied(v: Vector, s: Vector): (m: Vector)
    requires |v| == |s|
    ensures |m| == |v| && forall i :: 0 <= i < |m| ==> m[i] == Times(v[i], s[i])
  {
    seq(|v|, i requires 0 <= i < |v| => Times(v[i], s[i]))
  }

  lemma {:induction false} TimesDivided(a: real, b: real, s: real)
    requires s > 0.0
    ensures Times(Times(a, s), b / s) == Times(a, b)
    ensures Times(a / s, b) == Times(a, b) / s && Times(a, b / s) == Times(a, b) / s
  {
    var q := b / s;
    assert q * s == b;
    var p := a / s;
    assert p * s == a;
    assert (a * s) * q == a * (s * q);
    assert (p * b) * s == (p * s) * b;
    assert (a * q) * s == a * (q * s);
  }

  /** Scaling one side up and the other down leaves the product. */
  lemma {:induction false} DotBalanced(w: Vector, x: Vector, s: Vector, n: nat)
    requires |w| == |x| == |s| && Positive(s) && n <= |w|
    ensures Dot(Multiplied(w, s), Divided(x, s), n) == Dot(w, x, n)
  {
    if n > 0 {
      DotBalanced(w, x, s, n - 1);
      TimesDivided(w[n - 1], x[n - 1], s[n - 1]);
    }
  }

  lemma {:induction false} DotDivided(w: Vector, x: Vector, d: Vector, s: real, n: nat)
    requires |w| == |x| == |d| && s > 0.0 && n <= |w|
    requires forall i :: 0 <= i < |w| ==> d[i] == w[i] / s
    ensures Dot(d, x, n) == Dot(w, x, n) / s
  {
    if n > 0 {
      DotDivided(w, x, d, s, n - 1);
      TimesDivided(w[n - 1], x[n - 1], s);
    }
  }

  function ColumnsMultiplied(m: Matrix, s: Vector): (r: Matrix)
    requires forall k :: 0 <= k < |m| ==> |m[k]| == |s|
    ensures |r| == |m| && forall k :: 0 <= k < |r| ==> r[k] == Multiplied(m[k], s)
  {
    seq(|m|, k requires 0 <= k < |m| => Multiplied(m[k], s))
  }

  function ColumnsDivided(m: Matrix, s: Vector): (r: Matrix)
    requires Positive(s) && forall k :: 0 <= k < |m| ==> |m[k]| == |s|
    ensures |r| == |m| && forall k :: 0 <= k < |r| ==> r[k] == Divided(m[k], s)
  {
    seq(|m|, k requires 0 <= k < |m| => Divided(m[k], s))
  }

  /** The last |s| rows, one divided by each scale: a fused layer may have more rows than scales. */
  function LastRowsDivided(m: Matrix, s: Vector): (r: Matrix)
    requires Positive(s) && |s| <= |m|
    ensures |r| == |m| && forall k :: 0 <= k < |r| ==> |r[k]| == |m[k]|
  {
    var first := |m| - |s|;
    seq(|m|, k requires 0 <= k < |m| =>
        if k < first then m[k] else seq(|m[k]|, c requires 0 <= c < |m[k]| => m[k][c] / s[k - first]))
  }

  function BiasDivided(bias: Option<Vector>, s: Vector): Option<Vector>
    requires Positive(s) && HasBias(bias, |s|)
  {
    if bias.Some? then Some(Divided(bias.value, s)) else None
  }

  /** _smooth for a balance layer: its saved weight times the scales; its bias is left alone. */
  function Balanced(saved: Matrix, bias: Option<Vector>, s: Vector): Layer
    requires forall k :: 0 <= k < |saved| ==> |saved[k]| == |s|
  {
    Linear(ColumnsMultiplied(saved, s), bias)
  }

  /** Whether dividing by the scales has shapes that fit. */
  ghost predicate CanSmooth(l: Layer, s: Vector) {
    Positive(s) && HasBias(l.bias, |s|) && if l.Norm? then |l.scale| == |s| else |s| <= |l.weight|
  }

  /** _smooth for the smooth layer. */
  function Smoothed(l: Layer, s: Vector): Layer
    requires CanSmooth(l, s)
  {
    match l
    case Norm(scale, bias) => Norm(Divided(scale, s), BiasDivided(bias, s))
    case Linear(weight, bias) => Linear(LastRowsDivided(weight, s), BiasDivided(bias, s))
  }

  lemma {:induction false} SumDivided(a: real, b: real, s: real)
    requires s > 0.0
    ensures a / s + b / s == (a + b) / s && 0.0 / s == 0.0
  {
  }

  lemma {:induction false} NormSmoothed(l: Layer, s: Vector, u: Vector)
    requires IsNorm(l, |u|) && |s| == |u| && Positive(s)
    ensures Normalize(Smoothed(l, s), u) == Divided(Normalize(l, u), s)
  {
    forall i | 0 <= i < |u|
      ensures Normalize(Smoothed(l, s), u)[i] == Divided(Normalize(l, u), s)[i]
    {
      TimesDivided(l.scale[i], u[i], s[i]);
      SumDivided(Times(l.scale[i], u[i]), BiasAt(l.bias, i), s[i]);
    }
  }

  /**
    A smooth layer with as many rows as scales has its outputs divided. A fused one, which has more rows, cannot have a bias;
    its last outputs are divided, and the others are as before.
    */
  lemma {:induction false} FusedSmoothed(l: Layer, rows: nat, s: Vector, x: Vector)
    requires IsLinear(l, rows, |x|) && CanSmooth(l, s)
    ensures l.bias.Some? ==> |s| == rows
    ensures |Apply(Smoothed(l, s), x)| == rows
    ensures forall k :: 0 <= k < rows ==>
              Apply(Smoothed(l, s), x)[k] == if k < rows - |s| then Apply(l, x)[k] else Apply(l, x)[k] / s[k - (rows - |s|)]
  {
    var first := rows - |s|;
    forall k | 0 <= k < rows
      ensures Apply(Smoothed(l, s), x)[k] == if k < first then Apply(l, x)[k] else Apply(l, x)[k] / s[k - first]
    {
      if k >= first {
        DotDivided(l.weight[k], x, Smoothed(l, s).weight[k], s[k - first], |x|);
        SumDivided(Dot(l.weight[k], x, |x|), BiasAt(l.bias, k), s[k - first]);
      }
    }
  }

  lemma {:induction false} LinearSmoothed(l: Layer, s: Vector, x: Vector)
    requires IsLinear(l, |s|, |x|) && Positive(s)
    ensures Apply(Smoothed(l, s), x) == Divided(Apply(l, x), s)
  {
    hide Apply, Smoothed;
    FusedSmoothed(l, |s|, s, x);
  }

  /** A balance layer undoes the smoothing of its input. */
  lemma {:induction false} LinearBalanced(l: Layer, rows: nat, s: Vector, x: Vector)
    requires IsLinear(l, rows, |x|) && |s| == |x| && Positive(s)
    ensures Apply(Balanced(l.weight, l.bias, s), Divided(x, s)) == Apply(l, x)
  {
    forall o | 0 <= o < rows
      ensures Apply(Balanced(l.weight, l.bias, s), Divided(x, s))[o] == Apply(l, x)[o]
    {
      DotBalanced(l.weight[o], x, s, |x|);
    }
  }

  lemma {:induction false} GatedDivided(activation: real -> real, gate: Vector, up: Vector, s: Vector)
    requires |gate| == |up| == |s| && Positive(s)
    ensures Gated(activation, gate, Divided(up, s)) == Divided(Gated(activation, gate, up), s)
  {
    forall o | 0 <= o < |s|
      ensures Gated(activation, gate, Divided(up, s))[o] == Divided(Gated(activation, gate, up), s)[o]
    {
      TimesDivided(activation(gate[o]), up[o], s[o]);
    }
  }

  // ----- The two mappings of a block

  datatype Mapping = Mapping(smooth: Name, balance: seq<Name>)

  function NormMapping(): Mapping {
    Mapping(InputNorm, [GateProj, UpProj])
  }

  function UpMapping(): Mapping {
    Mapping(UpProj, [DownProj])
  }

  /** How many scales a mapping has. */
  function Channels(m: Mapping, width: nat, inner: nat): nat {
    if m == NormMapping() then width else inner
  }

  ghost predicate SameBlock(a: Layers, b: Layers, width: nat, inner: nat, activation: real -> real) {
    && IsBlock(a, width, inner) && IsBlock(b, width, inner)
    && forall u :: |u| == width ==>
         Block(a, width, inner, activation, u) == Block(b, width, inner, activation, u)
  }

  lemma {:induction false} Shapes(l: Layer, rows: nat, cols: nat, s: Vector)
    requires Positive(s)
    ensures IsNorm(l, rows) && |s| == rows ==> IsNorm(Smoothed(l, s), rows)
    ensures IsLinear(l, rows, cols) && |s| == rows ==> IsLinear(Smoothed(l, s), rows, cols)
    ensures IsLinear(l, rows, cols) && |s| == cols ==> IsLinear(Balanced(l.weight, l.bias, s), rows, cols)
  {
  }

  lemma {:induction false} NormMappingAt(norm: Layer, gate: Layer, up: Layer, down: Layer, s: Vector, width: nat,
                                         inner: nat,
                                         activation: real -> real, u: Vector)
    requires IsNorm(norm, width) && IsLinear(gate, inner, width) && IsLinear(up, inner, width)
             && IsLinear(down, width, inner)
    requires |u| == |s| == width && Positive(s)
    requires IsNorm(Smoothed(norm, s), width)
    requires IsLinear(Balanced(gate.weight, gate.bias, s), inner, width)
             && IsLinear(Balanced(up.weight, up.bias, s), inner, width)
    ensures BlockOf(Smoothed(norm, s), Balanced(gate.weight, gate.bias, s), Balanced(up.weight, up.bias, s), down,
                    width, inner, activation, u)
         == BlockOf(norm, gate, up, down, width, inner, activation, u)
  {
    var h := Normalize(norm, u);
    NormSmoothed(norm, s, u);
    LinearBalanced(gate, inner, s, h);
    LinearBalanced(up, inner, s, h);
    hide Normalize, Apply, Gated, Smoothed, Balanced, Divided;
  }

  lemma {:induction false} UpMappingAt(norm: Layer, gate: Layer, up: Layer, down: Layer, s: Vector, width: nat,
                                       inner: nat,
                                       activation: real -> real, u: Vector)
    requires IsNorm(norm, width) && IsLinear(gate, inner, width) && IsLinear(up, inner, width)
             && IsLinear(down, width, inner)
    requires |u| == width && |s| == inner && Positive(s)
    requires IsLinear(Smoothed(up, s), inner, width) && IsLinear(Balanced(down.weight, down.bias, s), width, inner)
    ensures BlockOf(norm, gate, Smoothed(up, s), Balanced(down.weight, down.bias, s), width, inner, activation, u)
         == BlockOf(norm, gate, up, down, width, inner, activation, u)
  {
    var h := Normalize(norm, u);
    var g, x := Apply(gate, h), Apply(up, h);
    LinearSmoothed(up, s, h);
    GatedDivided(activation, g, x, s);
    LinearBalanced(down, width, s, Gated(activation, g, x));
    hide Normalize, Apply, Gated, Smoothed, Balanced, Divided;
  }

  function AfterNormMapping(layers: Layers, s: Vector, width: nat, inner: nat): Layers
    requires IsBlock(layers, width, inner) && |s| == width && Positive(s)
  {
    layers[InputNorm := Smoothed(layers[InputNorm], s)]
          [GateProj := Balanced(layers[GateProj].weight, layers[GateProj].bias, s)]
          [UpProj := Balanced(layers[UpProj].weight, layers[UpProj].bias, s)]
  }

  function AfterUpMapping(layers: Layers, s: Vector, width: nat, inner: nat): Layers
    requires IsBlock(layers, width, inner) && |s| == inner && Positive(s)
  {
    layers[UpProj := Smoothed(layers[UpProj], s)][DownProj := Balanced(layers[DownProj].weight, layers[DownProj].bias, s)]
  }

  lemma {:induction false} AfterMappingIsBlock(layers: Layers, s: Vector, width: nat, inner: nat)
    requires IsBlock(layers, width, inner) && Positive(s)
    ensures |s| == width ==> IsBlock(AfterNormMapping(layers, s, width, inner), width, inner)
    ensures |s| == inner ==> IsBlock(AfterUpMapping(layers, s, width, inner), width, inner)
  {
    hide IsNorm, IsLinear, Smoothed, Balanced, Positive;
    Shapes(layers[InputNorm], width, 0, s);
    Shapes(layers[GateProj], inner, width, s);
    Shapes(layers[UpProj], inner, width, s);
    Shapes(layers[DownProj], width, inner, s);
  }

  lemma {:induction false} NormMappingKeepsBlock(layers: Layers, s: Vector, width: nat, inner: nat,
                                                 activation: real -> real)
    requires IsBlock(layers, width, inner) && |s| == width && Positive(s)
    ensures SameBlock(layers, AfterNormMapping(layers, s, width, inner), width, inner, activation)
  {
    AfterMappingIsBlock(layers, s, width, inner);
    var after := AfterNormMapping(layers, s, width, inner);
    forall u: Vector | |u| == width
      ensures Block(layers, width, inner, activation, u) == Block(after, width, inner, activation, u)
    {
      hide IsNorm, IsLinear, Smoothed, Balanced, BlockOf, Positive;
      NormMappingAt(layers[InputNorm], layers[GateProj], layers[UpProj], layers[DownProj], s, width, inner, activation, u);
    }
  }

  lemma {:induction false} UpMappingKeepsBlock(layers: Layers, s: Vector, width: nat, inner: nat,
                                               activation: real -> real)
    requires IsBlock(layers, width, inner) && |s| == inner && Positive(s)
    ensures SameBlock(layers, AfterUpMapping(layers, s, width, inner), width, inner, activation)
  {
    AfterMappingIsBlock(layers, s, width, inner);
    var after := AfterUpMapping(layers, s, width, inner);
    forall u: Vector | |u| == width
      ensures Block(layers, width, inner, activation, u) == Block(after, width, inner, activation, u)
    {
      hide IsNorm, IsLinear, Smoothed, Balanced, BlockOf, Positive;
      UpMappingAt(layers[InputNorm], layers[GateProj], layers[UpProj], layers[DownProj], s, width, inner, activation, u);
    }
  }

  // ----- What smoothing does to each parameter

  /** Column c of every row is multiplied by scale c. */
  ghost predicate ColumnsScaled(before: Matrix, after: Matrix, s: Vector) {
    |after| == |before| &&
    forall r :: 0 <= r < |before| ==>
      |before[r]| == |after[r]| == |s| && forall c :: 0 <= c < |s| ==> after[r][c] == Times(before[r][c], s[c])
  }

  /** Row r of the last |s| rows is divided by its scale, and the rows before them are kept. */
  ghost predicate RowsDivided(before: Matrix, after: Matrix, s: Vector)
    requires Positive(s)
  {
    var first := |before| - |s|;
    0 <= first && |after| == |before| &&
    forall r :: 0 <= r < |before| ==>
      |after[r]| == |before[r]| &&
      forall c :: 0 <= c < |before[r]| ==> after[r][c] == if r < first then before[r][c] else before[r][c] / s[r - first]
  }

  ghost predicate EntriesDivided(before: Vector, after: Vector, s: Vector)
    requires Positive(s)
  {
    |before| == |after| == |s| && forall i :: 0 <= i < |s| ==> after[i] == before[i] / s[i]
  }

  /** A smooth layer's weight and bias are divided by the scales. */
  ghost predicate LayerDivided(before: Layer, after: Layer, s: Vector)
    requires Positive(s)
  {
    && (before.bias.Some? <==> after.bias.Some?)
    && (before.bias.Some? ==> EntriesDivided(before.bias.value, after.bias.value, s))
    && if before.Norm? then after.Norm? && EntriesDivided(before.scale, after.scale, s)
       else after.Linear? && RowsDivided(before.weight, after.weight, s)
  }

  /** Every balance layer has its weight scaled and its bias kept, the smooth layer is divided, and no other layer changes. */
  ghost predicate Smooths(before: Layers, after: Layers, m: Mapping, s: Vector) {
    && Positive(s) && after.Keys == before.Keys && m.smooth in before
    && forall n :: n in before ==>
         if n in m.balance then
           && before[n].Linear? && after[n].Linear? && after[n].bias == before[n].bias
           && ColumnsScaled(before[n].weight, after[n].weight, s)
         else if n == m.smooth then LayerDivided(before[n], after[n], s)
         else after[n] == before[n]
  }

  lemma {:induction false} SmoothedIsDivided(l: Layer, s: Vector)
    requires CanSmooth(l, s)
    ensures LayerDivided(l, Smoothed(l, s), s)
  {
  }

  lemma {:induction false} BalancedIsScaled(saved: Matrix, bias: Option<Vector>, s: Vector)
    requires forall k :: 0 <= k < |saved| ==> |saved[k]| == |s|
    ensures Balanced(saved, bias, s).Linear? && Balanced(saved, bias, s).bias == bias
    ensures ColumnsScaled(saved, Balanced(saved, bias, s).weight, s)
  {
  }

  lemma {:induction false} NormMappingSmooths(layers: Layers, s: Vector, width: nat, inner: nat)
    requires IsBlock(layers, width, inner) && |s| == width && Positive(s)
    ensures Smooths(layers, AfterNormMapping(layers, s, width, inner), NormMapping(), s)
  {
    SmoothedIsDivided(layers[InputNorm], s);
    BalancedIsScaled(layers[GateProj].weight, layers[GateProj].bias, s);
    BalancedIsScaled(layers[UpProj].weight, layers[UpProj].bias, s);
    hide Smoothed, Balanced, ColumnsScaled, LayerDivided, Positive;
  }

  lemma {:induction false} UpMappingSmooths(layers: Layers, s: Vector, width: nat, inner: nat)
    requires IsBlock(layers, width, inner) && |s| == inner && Positive(s)
    ensures Smooths(layers, AfterUpMapping(layers, s, width, inner), UpMapping(), s)
  {
    SmoothedIsDivided(layers[UpProj], s);
    BalancedIsScaled(layers[DownProj].weight, layers[DownProj].bias, s);
    hide Smoothed, Balanced, ColumnsScaled, LayerDivided, Positive;
  }

  // ----- The grid search

  /** Quantizing and dequantizing a weight keeps its shape. */
  ghost predicate KeepsShape(quantize: (Name, Matrix) -> Matrix) {
    forall n, m :: |quantize(n, m)| == |m| && forall k :: 0 <= k < |m| ==> |quantize(n, m)[k]| == |m[k]|
  }

  ghost predicate Fits(saved: map<Name, Matrix>, balance: seq<Name>, channels: nat) {
    forall n :: n in balance ==> n in saved && forall k :: 0 <= k < |saved[n]| ==> |saved[n][k]| == channels
  }

  /** The weight tried with some scales: scaled, quantized, scaled back. */
  function TrialWeight(saved: Matrix, n: Name, s: Vector, quantize: (Name, Matrix) -> Matrix): Matrix
    requires KeepsShape(quantize) && Positive(s) && forall k :: 0 <= k < |saved| ==> |saved[k]| == |s|
  {
    ColumnsDivided(quantize(n, ColumnsMultiplied(saved, s)), s)
  }

  /** A trial multiplies every column by its scale, quantizes the result, and divides the columns of that again. */
  lemma {:induction false} TrialWeightEntry(saved: Matrix, scaled: Matrix, n: Name, s: Vector,
                                            quantize: (Name, Matrix) -> Matrix)
    requires KeepsShape(quantize) && Positive(s) && ColumnsScaled(saved, scaled, s)
    ensures var t := TrialWeight(saved, n, s, quantize);
            |t| == |saved| && forall r, c :: 0 <= r < |t| && 0 <= c < |s| ==>
              |t[r]| == |s| == |quantize(n, scaled)[r]| && t[r][c] == quantize(n, scaled)[r][c] / s[c]
  {
    var made := ColumnsMultiplied(saved, s);
    forall r | 0 <= r < |saved|
      ensures made[r] == scaled[r]
    {
    }
    assert made == scaled;
  }

  /** The layers while some scales are tried. */
  function Trial(layers: Layers, balance: seq<Name>, saved: map<Name, Matrix>, s: Vector,
                 quantize: (Name, Matrix) -> Matrix): Layers
    requires KeepsShape(quantize) && Positive(s) && Fits(saved, balance, |s|)
  {
    map n | n in layers :: if n in balance then Linear(TrialWeight(saved[n], n, s, quantize), layers[n].bias) else layers[n]
  }

  /** While scales are tried, each balance layer has its trial weight, and everything else is as before. */
  lemma {:induction false} TrialEntry(layers: Layers, balance: seq<Name>, saved: map<Name, Matrix>, s: Vector,
                                      quantize: (Name, Matrix) -> Matrix, n: Name, scaled: Matrix)
    requires KeepsShape(quantize) && Positive(s) && Fits(saved, balance, |s|)
    requires n in layers && n in balance && ColumnsScaled(saved[n], scaled, s)
    ensures var t := Trial(layers, balance, saved, s, quantize)[n];
            && t.Linear? && t.bias == layers[n].bias && |t.weight| == |saved[n]|
            && forall r, c :: 0 <= r < |t.weight| && 0 <= c < |s| ==>
                 |t.weight[r]| == |s| == |quantize(n, scaled)[r]| && t.weight[r][c] == quantize(n, scaled)[r][c] / s[c]
  {
    TrialWeightEntry(saved[n], scaled, n, s, quantize);
    hide TrialWeight;
  }

  /** How scales are searched for: the candidates for a mapping, the quantization of weights, and the loss with some layers. */
  datatype Search = Search(propose: (Mapping, Layers) -> seq<Vector>, quantize: (Name, Matrix) -> Matrix,
                           loss: (Mapping, Layers) -> Option<real>)
  {
    /** The proposed scales are positive, one for each channel. */
    ghost predicate Proposes(m: Mapping, width: nat, inner: nat) {
      forall l, i :: 0 <= i < |propose(m, l)| ==>
        |propose(m, l)[i]| == Channels(m, width, inner) && Positive(propose(m, l)[i])
    }

    ghost predicate Fits(m: Mapping, width: nat, inner: nat) {
      (m == NormMapping() || m == UpMapping()) && KeepsShape(quantize) && Proposes(m, width, inner)
    }

    /** The losses of the proposed scales, each tried on these layers. */
    ghost function Losses(layers: Layers, m: Mapping, width: nat, inner: nat): (losses: seq<Option<real>>)
      requires Fits(m, width, inner) && IsBlock(layers, width, inner)
      ensures |losses| == |propose(m, layers)|
    {
      var saved := map n | n in m.balance :: layers[n].weight;
      SavedFits(layers, m, width, inner, saved);
      seq(|propose(m, layers)|, i requires 0 <= i < |propose(m, layers)| =>
          loss(m, Trial(layers, m.balance, saved, propose(m, layers)[i], quantize)))
    }

    /** Whether some of the scales proposed for a mapping has a finite loss. */
    ghost predicate SomeFinite(layers: Layers, m: Mapping, width: nat, inner: nat)
      requires Fits(m, width, inner) && IsBlock(layers, width, inner)
    {
      exists i :: 0 <= i < |propose(m, layers)| && Losses(layers, m, width, inner)[i].Some?
    }

    /** The layers are smoothed with the first of the proposed scales that have the least finite loss. */
    ghost predicate SmoothsBest(m: Mapping, before: Layers, after: Layers, width: nat, inner: nat)
      requires Fits(m, width, inner) && IsBlock(before, width, inner)
    {
      exists i :: 0 <= i < |propose(m, before)| &&
                  IsFirstLeast(Losses(before, m, width, inner), i) && Smooths(before, after, m, propose(m, before)[i])
    }

    /** A mapping is left out, or it is smoothed with the best of its scales. */
    ghost predicate StepOk(m: Mapping, skipped: bool, before: Layers, after: Layers, width: nat, inner: nat)
      requires Fits(m, width, inner) && IsBlock(before, width, inner)
    {
      if skipped then after == before
      else SomeFinite(before, m, width, inner) && SmoothsBest(m, before, after, width, inner)
    }
  }

  lemma {:induction false} LossesFound(search: Search, layers: Layers, m: Mapping, width: nat, inner: nat,
                                       saved: map<Name, Matrix>, losses: seq<Option<real>>)
    requires search.Fits(m, width, inner) && IsBlock(layers, width, inner)
    requires saved == map n | n in m.balance :: layers[n].weight
    requires Fits(saved, m.balance, Channels(m, width, inner)) && |losses| == |search.propose(m, layers)|
    requires forall i :: 0 <= i < |losses| ==>
               losses[i] == search.loss(m, Trial(layers, m.balance, saved, search.propose(m, layers)[i], search.quantize))
    ensures losses == search.Losses(layers, m, width, inner)
  {
    hide Fits, KeepsShape, Trial, IsBlock, Positive;
  }

  /** The first of the candidates with the least loss; there is none if no loss is finite. */
  ghost predicate IsFirstBest(candidates: seq<Vector>, losses: seq<Option<real>>, best: Option<Vector>)
    requires |candidates| == |losses|
  {
    if forall i :: 0 <= i < |losses| ==> losses[i].None? then best.None?
    else exists i :: 0 <= i < |losses| && best == Some(candidates[i]) && IsFirstLeast(losses, i)
  }

  ghost predicate IsFirstLeast(losses: seq<Option<real>>, i: nat)
    requires i < |losses|
  {
    losses[i].Some? && forall j :: 0 <= j < |losses| && losses[j].Some? ==>
      losses[i].value <= losses[j].value && (j < i ==> losses[i].value < losses[j].value)
  }

  lemma {:induction false} BestNext(candidates: seq<Vector>, losses: seq<Option<real>>, best: Option<Vector>,
                                    bestError: Option<real>, s: Vector, loss: Option<real>)
    requires |candidates| == |losses| && IsFirstBest(candidates, losses, best)
    requires best.Some? <==> bestError.Some?
    requires forall i :: 0 <= i < |losses| && IsFirstLeast(losses, i) ==> losses[i] == bestError
    ensures var better := loss.Some? && (bestError.None? || loss.value < bestError.value);
            && IsFirstBest(candidates + [s], losses + [loss], if better then Some(s) else best)
            && forall i :: 0 <= i <= |losses| && IsFirstLeast(losses + [loss], i) ==>
                 (losses + [loss])[i] == if better then loss else bestError
  {
    var better := loss.Some? && (bestError.None? || loss.value < bestError.value);
    var all := losses + [loss];
    assert forall j :: 0 <= j < |losses| ==> all[j] == losses[j];
    if better {
      assert forall j :: 0 <= j < |losses| && losses[j].Some? ==> loss.value < losses[j].value by {
        if best.Some? {
          var i :| 0 <= i < |losses| && best == Some(candidates[i]) && IsFirstLeast(losses, i);
        }
      }
      assert IsFirstLeast(all, |losses|);
    } else if best.Some? {
      var i :| 0 <= i < |losses| && best == Some(candidates[i]) && IsFirstLeast(losses, i);
      assert IsFirstLeast(all, i) && (candidates + [s])[i] == candidates[i];
    }
  }

  class Model {
    var layers: Layers

    constructor (layers: Layers)
      ensures this.layers == layers
    {
      this.layers := layers;
    }

    /** Overwrites the balance layers' weights with what the scales make of the saved ones. */
    method TryScales(balance: seq<Name>, saved: map<Name, Matrix>, s: Vector, quantize: (Name, Matrix) -> Matrix,
                     ghost original: Layers)
      requires KeepsShape(quantize) && Positive(s) && Fits(saved, balance, |s|)
      requires forall n :: n in balance ==> n in layers
      requires layers.Keys == original.Keys
      requires forall n :: n in layers ==>
                 layers[n].bias == original[n].bias && (n !in balance ==> layers[n] == original[n])
      modifies this
      ensures layers == Trial(original, balance, saved, s, quantize)
    {
      hide TrialWeight, KeepsShape;
      for j := 0 to |balance|
        invariant layers.Keys == original.Keys
        invariant forall n :: n in layers ==>
                    layers[n] == if n in balance[..j] then Linear(TrialWeight(saved[n], n, s, quantize), original[n].bias)
                                 else old(layers)[n]
      {
        var n := balance[j];
        layers := layers[n := Linear(TrialWeight(saved[n], n, s, quantize), layers[n].bias)];
        InNext(balance, j);
      }
      assert balance[..|balance|] == balance;
    }

    /** Tries the candidates in turn and keeps the best; the weights of the last one tried are left behind. */
    method ComputeBestScale(balance: seq<Name>, saved: map<Name, Matrix>, candidates: seq<Vector>, channels: nat,
                            quantize: (Name, Matrix) -> Matrix, loss: Layers -> Option<real>)
      returns (best: Option<Vector>, ghost losses: seq<Option<real>>)
      requires KeepsShape(quantize) && Fits(saved, balance, channels) && forall n :: n in balance ==> n in layers
      requires forall i :: 0 <= i < |candidates| ==> |candidates[i]| == channels && Positive(candidates[i])
      modifies this
      ensures layers == if candidates == [] then old(layers)
                        else Trial(old(layers), balance, saved, candidates[|candidates| - 1], quantize)
      ensures |losses| == |candidates|
      ensures forall i :: 0 <= i < |candidates| ==> losses[i] == loss(Trial(old(layers), balance, saved, candidates[i], quantize))
      ensures IsFirstBest(candidates, losses, best)
    {
      hide KeepsShape, Fits, Positive, TrialWeight, IsFirstBest, IsFirstLeast, Trial;
      ghost var original := layers;
      best := None;
      var bestError: Option<real> := None;
      losses := [];
      NoneYet();
      for i := 0 to |candidates|
        invariant |losses| == i && (best.Some? <==> bestError.Some?)
        invariant layers.Keys == original.Keys
        invariant forall n :: n in layers ==>
                    layers[n].bias == original[n].bias && (n !in balance ==> layers[n] == original[n])
        invariant layers == if i == 0 then original else Trial(original, balance, saved, candidates[i - 1], quantize)
        invariant forall j :: 0 <= j < i ==> losses[j] == loss(Trial(original, balance, saved, candidates[j], quantize))
        invariant IsFirstBest(candidates[..i], losses, best)
        invariant forall j :: 0 <= j < i && IsFirstLeast(losses, j) ==> losses[j] == bestError
      {
        var scales := candidates[i];
        TryScales(balance, saved, scales, quantize, original);
        TrialOutside(original, balance, saved, scales, quantize);
        var l := loss(layers);
        BestNext(candidates[..i], losses, best, bestError, scales, l);
        assert candidates[..i + 1] == candidates[..i] + [scales];
        if l.Some? && (bestError.None? || l.value < bestError.value) {
          bestError, best := l, Some(scales);
        }
        losses := losses + [l];
      }
      assert candidates[..|candidates|] == candidates;
    }

    /** Rebuilds the balance layers from their saved weights and divides the smooth layer, whatever the search left behind. */
    method ScaleNormMapping(saved: map<Name, Matrix>, scales: Vector, ghost before: Layers, width: nat, inner: nat)
      requires IsBlock(before, width, inner) && |scales| == width && Positive(scales)
      requires layers.Keys == before.Keys && SavedFrom(before, NormMapping().balance, saved)
      requires SameOutside(layers, before, NormMapping().balance)
      modifies this
      ensures layers == AfterNormMapping(before, scales, width, inner)
    {
      hide Balanced, Smoothed, SameOutside, SavedFrom, AfterNormMapping;
      NormMappingRebuilt(layers, before, saved, scales, width, inner);
      layers := layers[GateProj := Balanced(saved[GateProj], layers[GateProj].bias, scales)];
      layers := layers[UpProj := Balanced(saved[UpProj], layers[UpProj].bias, scales)];
      layers := layers[InputNorm := Smoothed(layers[InputNorm], scales)];
    }

    method ScaleUpMapping(saved: map<Name, Matrix>, scales: Vector, ghost before: Layers, width: nat, inner: nat)
      requires IsBlock(before, width, inner) && |scales| == inner && Positive(scales)
      requires layers.Keys == before.Keys && SavedFrom(before, UpMapping().balance, saved)
      requires SameOutside(layers, before, UpMapping().balance)
      modifies this
      ensures layers == AfterUpMapping(before, scales, width, inner)
    {
      layers := layers[DownProj := Balanced(saved[DownProj], layers[DownProj].bias, scales)];
      layers := layers[UpProj := Smoothed(layers[UpProj], scales)];
    }

    /** Smooths one mapping with the first of its best scales; fails, as the source raises, exactly when no loss is finite. */
    method SmoothMapping(m: Mapping, search: Search, width: nat, inner: nat, ghost activation: real -> real)
      returns (ok: bool)
      requires search.Fits(m, width, inner) && IsBlock(layers, width, inner)
      modifies this
      ensures ok <==> search.SomeFinite(old(layers), m, width, inner)
      ensures ok ==> SameBlock(old(layers), layers, width, inner, activation)
      ensures ok ==> search.SmoothsBest(m, old(layers), layers, width, inner)
    {
      hide KeepsShape, IsFirstBest, IsFirstLeast, SameBlock, Positive, Trial, Smooths, Search.Losses;
      var channels := Channels(m, width, inner);
      var saved := map n | n in m.balance :: layers[n].weight;
      SavedFits(layers, m, width, inner, saved);
      var candidates := search.propose(m, layers);
      ghost var before := layers;
      var best, losses := ComputeBestScale(m.balance, saved, candidates, channels, search.quantize, l => search.loss(m, l));
      LossesFound(search, before, m, width, inner, saved, losses);
      BestIfFinite(candidates, losses, best);
      if best.None? {
        return false;
      }
      var scales := best.value;
      ghost var i := BestIsCandidate(candidates, losses, best);
      TrialOutside(before, m.balance, saved, candidates[|candidates| - 1], search.quantize);
      ScaleMapping(m, saved, scales, before, width, inner, activation);
      ok := true;
    }

    method ScaleMapping(m: Mapping, saved: map<Name, Matrix>, scales: Vector, ghost before: Layers, width: nat, inner: nat,
                        ghost activation: real -> real)
      requires (m == NormMapping() || m == UpMapping()) && IsBlock(before, width, inner)
      requires |scales| == Channels(m, width, inner) && Positive(scales)
      requires layers.Keys == before.Keys && SavedFrom(before, m.balance, saved) && SameOutside(layers, before, m.balance)
      modifies this
      ensures SameBlock(before, layers, width, inner, activation) && Smooths(before, layers, m, scales)
    {
      hide IsBlock, SameBlock, Positive, AfterNormMapping, AfterUpMapping, SavedFrom, SameOutside, Smooths;
      if m == NormMapping() {
        ScaleNormMapping(saved, scales, before, width, inner);
        NormMappingKeepsBlock(before, scales, width, inner, activation);
        NormMappingSmooths(before, scales, width, inner);
      } else {
        ScaleUpMapping(saved, scales, before, width, inner);
        UpMappingKeepsBlock(before, scales, width, inner, activation);
        UpMappingSmooths(before, scales, width, inner);
      }
    }

    /**
      Smooths the mappings in order, leaving out those without activations. Each step applies the first of the best scales to
      the layers as they were before its search, and the block computes what it did before. It fails exactly at the first
      mapping, not left out, for which no loss is finite; steps are the layers before each mapping.
      */
    method ApplySmoothing(mappings: seq<Mapping>, skipped: set<Mapping>, search: Search, width: nat, inner: nat,
                          ghost activation: real -> real)
      returns (ok: bool, ghost steps: seq<Layers>)
      requires IsBlock(layers, width, inner)
      requires forall i :: 0 <= i < |mappings| ==> search.Fits(mappings[i], width, inner)
      modifies this
      ensures 0 < |steps| <= |mappings| + 1 && steps[0] == old(layers) && (ok <==> |steps| == |mappings| + 1)
      ensures forall i :: 0 <= i < |steps| ==> IsBlock(steps[i], width, inner)
      ensures ok ==> layers == steps[|mappings|]
      ensures !ok ==>
                var i := |steps| - 1;
                mappings[i] !in skipped && !search.SomeFinite(steps[i], mappings[i], width, inner)
      ensures forall i :: 0 <= i < |steps| - 1 ==>
                search.StepOk(mappings[i], mappings[i] in skipped, steps[i], steps[i + 1], width, inner)
      ensures forall i :: 0 <= i < |steps| ==> SameBlock(old(layers), steps[i], width, inner, activation)
    {
      hide IsBlock, Search.Fits, Block, SameBlock, Search.SmoothsBest, Search.SomeFinite;
      steps := [layers];
      SameAsItself(layers, width, inner, activation);
      for i := 0 to |mappings|
        invariant |steps| == i + 1 && steps[0] == old(layers) && steps[i] == layers
        invariant forall j :: 0 <= j <= i ==> IsBlock(steps[j], width, inner)
        invariant forall j :: 0 <= j <= i ==> SameBlock(old(layers), steps[j], width, inner, activation)
        invariant forall j :: 0 <= j < i ==>
                    search.StepOk(mappings[j], mappings[j] in skipped, steps[j], steps[j + 1], width, inner)
      {
        var m := mappings[i];
        if m !in skipped {
          var done := SmoothMapping(m, search, width, inner, activation);
          if !done {
            return false, steps;
          }
          SameTwice(old(layers), steps[i], layers, width, inner, activation);
        }
        steps := steps + [layers];
      }
      ok := true;
    }
  }

  ghost predicate SavedFrom(layers: Layers, balance: seq<Name>, saved: map<Name, Matrix>) {
    forall n :: n in balance ==> n in layers && n in saved && layers[n].Linear? && saved[n] == layers[n].weight
  }

  /** The layers differ in the weights of the balance layers at most. */
  ghost predicate SameOutside(layers: Layers, before: Layers, balance: seq<Name>)
    requires layers.Keys == before.Keys
  {
    forall n :: n in layers ==> layers[n].bias == before[n].bias && (n !in balance ==> layers[n] == before[n])
  }

  lemma {:induction false} NormMappingRebuilt(layers: Layers, before: Layers, saved: map<Name, Matrix>, s: Vector, width: nat,
                                              inner: nat)
    requires IsBlock(before, width, inner) && |s| == width && Positive(s)
    requires layers.Keys == before.Keys && SavedFrom(before, NormMapping().balance, saved)
    requires SameOutside(layers, before, NormMapping().balance)
    ensures InputNorm in layers && layers[InputNorm] == before[InputNorm] && IsLinear(before[GateProj], inner, width)
    ensures IsLinear(before[UpProj], inner, width)
    ensures GateProj in saved && saved[GateProj] == before[GateProj].weight && layers[GateProj].bias == before[GateProj].bias
    ensures UpProj in saved && saved[UpProj] == before[UpProj].weight && layers[UpProj].bias == before[UpProj].bias
    ensures layers[GateProj := Balanced(saved[GateProj], layers[GateProj].bias, s)]
                  [UpProj := Balanced(saved[UpProj], layers[UpProj].bias, s)]
                  [InputNorm := Smoothed(layers[InputNorm], s)]
         == AfterNormMapping(before, s, width, inner)
  {
    hide Balanced, Smoothed, Positive, IsLinear, IsNorm;
    assert GateProj in NormMapping().balance && UpProj in NormMapping().balance && InputNorm !in NormMapping().balance;
  }

  lemma {:induction false} InNext(s: seq<Name>, j: nat)
    requires j < |s|
    ensures forall n :: n in s[..j + 1] <==> n in s[..j] || n == s[j]
  {
    assert s[..j + 1] == s[..j] + [s[j]];
  }

  lemma {:induction false} TrialOutside(layers: Layers, balance: seq<Name>, saved: map<Name, Matrix>, s: Vector,
                                        quantize: (Name, Matrix) -> Matrix)
    requires KeepsShape(quantize) && Positive(s) && Fits(saved, balance, |s|)
    ensures var t := Trial(layers, balance, saved, s, quantize);
            t.Keys == layers.Keys &&
            forall n :: n in t ==> t[n].bias == layers[n].bias && (n !in balance ==> t[n] == layers[n])
  {
    hide TrialWeight;
  }

  lemma {:induction false} SameAsItself(a: Layers, width: nat, inner: nat, activation: real -> real)
    requires IsBlock(a, width, inner)
    ensures SameBlock(a, a, width, inner, activation)
  {
  }

  lemma {:induction false} SameTwice(a: Layers, b: Layers, c: Layers, width: nat, inner: nat, activation: real -> real)
    requires SameBlock(a, b, width, inner, activation) && SameBlock(b, c, width, inner, activation)
    ensures SameBlock(a, c, width, inner, activation) && IsBlock(c, width, inner)
  {
    hide Block, IsBlock;
  }

  lemma {:induction false} NoneYet()
    ensures IsFirstBest([], [], None)
  {
  }

  lemma {:induction false} BestIsCandidate(candidates: seq<Vector>, losses: seq<Option<real>>, best: Option<Vector>)
    returns (i: nat)
    requires |candidates| == |losses| && IsFirstBest(candidates, losses, best) && best.Some?
    ensures i < |candidates| && best.value == candidates[i] && IsFirstLeast(losses, i)
  {
    i :| 0 <= i < |losses| && best == Some(candidates[i]) && IsFirstLeast(losses, i);
  }

  lemma {:induction false} BestIfFinite(candidates: seq<Vector>, losses: seq<Option<real>>, best: Option<Vector>)
    requires |candidates| == |losses| && IsFirstBest(candidates, losses, best)
    ensures best.Some? <==> exists i :: 0 <= i < |losses| && losses[i].Some?
  {
  }

  lemma {:induction false} SavedFits(layers: Layers, m: Mapping, width: nat, inner: nat, saved: map<Name, Matrix>)
    requires IsBlock(layers, width, inner) && (m == NormMapping() || m == UpMapping())
    requires SavedFrom(layers, m.balance, saved)
    ensures Fits(saved, m.balance, Channels(m, width, inner))
  {
  }
}
