/**
  The two means that smoothing chooses scales from: of the weights, each relative to the largest of those quantized together
  with it, and of the activations, kept up to date batch by batch. Neither ever holds everything it is a mean of.
  */
module LayerMeans {
  import opened Collections
  import opened Sums
  import opened ChunkLayout

  type Vector = seq<real>

  const EPSILON: real := 0.000001

  function Magnitude(x: real): (m: real)
    ensures m >= 0.0 && (m == x || m == -x)
  {
    if x < 0.0 then -x else x
  }

  // ----- Normalised weights

  /** The largest magnitude of n entries from the start on. */
  function Largest(data: Vector, start: nat, n: nat): (m: real)
    requires n > 0 && start + n <= |data|
    ensures m >= 0.0
    ensures exists k :: start <= k < start + n && m == Magnitude(data[k])
    ensures forall k :: start <= k < start + n ==> Magnitude(data[k]) <= m
  {
    var last := Magnitude(data[start + n - 1]);
    if n == 1 then last
    else
      var m := Largest(data, start, n - 1);
      if m < last then last else m
  }

  /** The chunk around position p lies within the data. */
  lemma {:induction false} ChunkWithin(p: nat, n: nat, size: nat)
    requires size > 0 && p < n && n % size == 0
    ensures Start(p, size) + size <= n
  {
    Divided(n, size);
    SplitBelow(p, n / size, size);
    Monotone(p / size + 1, n / size, size);
  }

  function Rescaled(data: Vector, size: nat): (d: Vector)
    requires size > 0 && |data| % size == 0
    ensures |d| == |data|
  {
    seq(|data|, p requires 0 <= p < |data| =>
      ChunkWithin(p, |data|, size);
      Magnitude(data[p]) / (Largest(data, Start(p, size), size) + EPSILON))
  }

  lemma {:induction false} SizeDivides(w: Weight, s: Strategy)
    requires w.Valid() && LayoutOf(w, s).Some?
    ensures var l := LayoutOf(w, s).value; l.size > 0 && |l.data| == |w.data| && |l.data| % l.size == 0
  {
    match s
    case PerTensor =>
      SplitUnique(1, 0, |w.data|);
    case PerChannel =>
      SplitUnique(w.rows, 0, w.cols);
    case PerGroup(size) =>
    case PerBlock(height, width) =>
      var b := BlocksOf(w, height, width);
      PairBelow(0, 0, height, width);
      BlockSize(b);
      SplitUnique(b.nH * b.nW, 0, height * width);
  }

  /** Every weight over the largest in its chunk, in rows and columns again; nothing where the source raises. */
  function Normalised(w: Weight, s: Strategy): (d: Option<Vector>)
    requires w.Valid()
    ensures d.Some? <==> LayoutOf(w, s).Some?
    ensures d.Some? ==> |d.value| == |w.data|
  {
    match LayoutOf(w, s)
    case None => None
    case Some(l) =>
      SizeDivides(w, s);
      Some(Restored(w, s, Rescaled(l.data, l.size)))
  }

  ghost predicate IsLargestTogether(w: Weight, s: Strategy, r: nat, c: nat, m: real)
    requires w.Valid() && LayoutOf(w, s).Some?
  {
    && (exists r1, c1 :: w.Has(r1, c1) && Together(w, s, r, c, r1, c1) && m == Magnitude(w.At(r1, c1)))
    && (forall r1, c1 :: w.Has(r1, c1) && Together(w, s, r, c, r1, c1) ==> Magnitude(w.At(r1, c1)) <= m)
  }

  lemma {:induction false} InChunk(p: nat, q: nat, size: nat)
    requires size > 0
    ensures p / size == q / size <==> Start(p, size) <= q < Start(p, size) + size
  {
    Split(q, size);
    if p / size < q / size {
      Monotone(p / size + 1, q / size, size);
    } else if q / size < p / size {
      Monotone(q / size + 1, p / size, size);
    }
  }

  lemma {:induction false} TogetherInChunk(w: Weight, s: Strategy, r: nat, c: nat, r1: nat, c1: nat, l: Layout)
    requires w.Valid() && LayoutOf(w, s) == Some(l) && w.Has(r, c) && w.Has(r1, c1)
    ensures l.size > 0 && |l.data| == |w.data| && Position(w, s, r1, c1) < |l.data|
    ensures l.data[Position(w, s, r1, c1)] == w.At(r1, c1)
    ensures Together(w, s, r, c, r1, c1) <==>
            var start := Start(Position(w, s, r, c), l.size); start <= Position(w, s, r1, c1) < start + l.size
  {
    hide LayoutOf, Position, Together, Join, Start;
    ChunksAreTogether(w, s, r, c, r1, c1);
    LayoutHasEntry(w, s, r1, c1);
    InChunk(Position(w, s, r, c), Position(w, s, r1, c1), l.size);
  }

  lemma {:induction false} LargestOfChunk(w: Weight, s: Strategy, r: nat, c: nat, l: Layout, start: nat)
    requires w.Valid() && LayoutOf(w, s) == Some(l) && w.Has(r, c)
    requires l.size > 0 && |l.data| == |w.data|
    requires start == Start(Position(w, s, r, c), l.size) && start + l.size <= |l.data|
    ensures IsLargestTogether(w, s, r, c, Largest(l.data, start, l.size))
  {
    hide LayoutOf, Position, Together, Join, Start, Largest, Magnitude;
    var m := Largest(l.data, start, l.size);
    var k :| start <= k < start + l.size && m == Magnitude(l.data[k]);
    var rk, ck := EntryAtPosition(w, s, k);
    TogetherInChunk(w, s, r, c, rk, ck, l);
    forall r1: nat, c1: nat | w.Has(r1, c1)
      ensures Together(w, s, r, c, r1, c1) ==> Magnitude(w.At(r1, c1)) <= m
    {
      TogetherInChunk(w, s, r, c, r1, c1, l);
    }
  }

  function Row(d: Vector, rows: nat, cols: nat, r: nat): (v: Vector)
    requires |d| == rows * cols && r < rows
    ensures |v| == cols
  {
    seq(cols, c requires 0 <= c < cols => PairBelow(r, c, rows, cols); d[Join(r, c, cols)])
  }

  /** The rows of a matrix. */
  function RowsOf(d: Vector, rows: nat, cols: nat): (t: seq<Vector>)
    requires |d| == rows * cols
    ensures |t| == rows
    ensures forall r :: 0 <= r < rows ==> |t[r]| == cols
  {
    seq(rows, r requires 0 <= r < rows => Row(d, rows, cols, r))
  }

  lemma {:induction false} RowsOfAt(d: Vector, rows: nat, cols: nat, r: nat, c: nat)
    requires |d| == rows * cols && r < rows && c < cols
    ensures Join(r, c, cols) < |d| && RowsOf(d, rows, cols)[r][c] == d[Join(r, c, cols)]
  {
    PairBelow(r, c, rows, cols);
  }

  /** Every entry is divided by the largest of those it is quantized together with. */
  lemma {:induction false} NormalisedEntry(w: Weight, s: Strategy, r: nat, c: nat)
    requires w.Valid() && LayoutOf(w, s).Some? && r < w.rows && c < w.cols
    ensures exists m :: m >= 0.0 && IsLargestTogether(w, s, r, c, m) &&
                        RowsOf(Normalised(w, s).value, w.rows, w.cols)[r][c] == Magnitude(w.At(r, c)) / (m + EPSILON)
  {
    hide RowsOf, LayoutOf, Position, Join, Start, Largest, Restored, IsLargestTogether, Magnitude;
    var l := LayoutOf(w, s).value;
    SizeDivides(w, s);
    var p := Position(w, s, r, c);
    LayoutHasEntry(w, s, r, c);
    ChunkWithin(p, |l.data|, l.size);
    var start := Start(p, l.size);
    LargestOfChunk(w, s, r, c, l, start);
    RestoredHasEntry(w, s, Rescaled(l.data, l.size), r, c);
    RowsOfAt(Normalised(w, s).value, w.rows, w.cols, r, c);
    var m := Largest(l.data, start, l.size);
    assert IsLargestTogether(w, s, r, c, m);
  }

  // ----- The mean over the rows of all layers

  /** The sum of a column. */
  function ColumnSum(rows: seq<Vector>, c: nat): real
    requires forall i :: 0 <= i < |rows| ==> c < |rows[i]|
  {
    if rows == [] then 0.0 else ColumnSum(rows[..|rows| - 1], c) + rows[|rows| - 1][c]
  }

  function EntryOf(rows: seq<Vector>, c: nat, r: int): real
    requires forall i :: 0 <= i < |rows| ==> c < |rows[i]|
  {
    if 0 <= r < |rows| then rows[r][c] else 0.0
  }

  lemma {:induction false} ColumnSumIsSum(rows: seq<Vector>, c: nat)
    requires forall i :: 0 <= i < |rows| ==> c < |rows[i]|
    ensures ColumnSum(rows, c) == Sum(|rows|, r => EntryOf(rows, c, r))
  {
    if rows != [] {
      var n := |rows| - 1;
      ColumnSumIsSum(rows[..n], c);
      SumEqual(n, r => EntryOf(rows[..n], c, r), r => EntryOf(rows, c, r));
    }
  }

  predicate IsTable(rows: seq<Vector>, width: nat) {
    forall i :: 0 <= i < |rows| ==> |rows[i]| == width
  }

  lemma {:induction false} ColumnSumAppend(a: seq<Vector>, b: seq<Vector>, c: nat, width: nat)
    requires IsTable(a, width) && IsTable(b, width) && c < width
    ensures IsTable(a + b, width) && ColumnSum(a + b, c) == ColumnSum(a, c) + ColumnSum(b, c)
  {
    if b == [] {
      assert a + b == a;
    } else {
      var front := b[..|b| - 1];
      ColumnSumAppend(a, front, c, width);
      assert (a + b)[..|a + b| - 1] == a + front;
    }
  }

  /** A module: it may lack a weight or a quantization scheme. */
  datatype Layer = Layer(weight: Option<Weight>, scheme: Option<Strategy>)
  {
    predicate Counts() {
      weight.Some? && scheme.Some?
    }
  }

  ghost predicate AreLayers(layers: seq<Layer>, width: nat) {
    forall i :: 0 <= i < |layers| && layers[i].weight.Some? ==>
      layers[i].weight.value.Valid() && layers[i].weight.value.cols == width
  }

  /** Whether some layer that counts cannot be laid out in chunks. */
  ghost predicate Misfits(layers: seq<Layer>, width: nat)
    requires AreLayers(layers, width)
  {
    exists i :: 0 <= i < |layers| && layers[i].Counts() && LayoutOf(layers[i].weight.value, layers[i].scheme.value).None?
  }

  ghost predicate SomeCounts(layers: seq<Layer>) {
    exists i :: 0 <= i < |layers| && layers[i].Counts()
  }

  /** All normalised rows of all layers that count. */
  ghost function Population(layers: seq<Layer>, width: nat): (rows: seq<Vector>)
    requires AreLayers(layers, width) && !Misfits(layers, width)
    ensures IsTable(rows, width)
  {
    if layers == [] then []
    else
      var front, last := layers[..|layers| - 1], layers[|layers| - 1];
      assert forall i :: 0 <= i < |front| ==> front[i] == layers[i];
      var rest := Population(front, width);
      if last.Counts() then
        assert layers[|layers| - 1].Counts();
        var w := last.weight.value;
        rest + RowsOf(Normalised(w, last.scheme.value).value, w.rows, width)
      else rest
  }

  /** What a mean comes to: the source may raise, or divide a tensor by zero. */
  datatype Outcome = Raised | NotANumber | Mean(values: Vector)

  ghost predicate IsMeanOf(values: Vector, rows: seq<Vector>, width: nat)
    requires IsTable(rows, width)
  {
    |rows| > 0 && |values| == width &&
    forall c :: 0 <= c < width ==> values[c] == ColumnSum(rows, c) / |rows| as real
  }

  ghost predicate AreSumsOf(sums: Vector, rows: seq<Vector>, width: nat)
    requires IsTable(rows, width)
  {
    |sums| == width && forall c :: 0 <= c < width ==> sums[c] == ColumnSum(rows, c)
  }

  function Added(a: Vector, b: Vector): Vector
    requires |a| == |b|
  {
    seq(|a|, c requires 0 <= c < |a| => a[c] + b[c])
  }

  function Scaled(a: Vector, x: real): Vector {
    seq(|a|, c requires 0 <= c < |a| => Times(a[c], x))
  }

  function Over(a: Vector, n: nat): Vector
    requires n > 0
  {
    seq(|a|, c requires 0 <= c < |a| => a[c] / n as real)
  }

  lemma {:induction false} SumsAppend(a: Vector, b: Vector, s: seq<Vector>, t: seq<Vector>, width: nat)
    requires IsTable(s, width) && IsTable(t, width) && AreSumsOf(a, s, width) && AreSumsOf(b, t, width)
    ensures IsTable(s + t, width) && AreSumsOf(Added(a, b), s + t, width)
  {
    forall c | 0 <= c < width
      ensures ColumnSum(s + t, c) == a[c] + b[c]
    {
      ColumnSumAppend(s, t, c, width);
    }
  }

  function SumOverRows(rows: seq<Vector>, width: nat): (sums: Vector)
    requires IsTable(rows, width)
    ensures AreSumsOf(sums, rows, width)
  {
    seq(width, c requires 0 <= c < width => ColumnSum(rows, c))
  }

  lemma {:induction false} SumsOver(sums: Vector, rows: seq<Vector>, width: nat)
    requires IsTable(rows, width) && AreSumsOf(sums, rows, width) && rows != []
    ensures IsMeanOf(Over(sums, |rows|), rows, width)
  {
  }

  /** Running totals give the mean over all rows of all layers, without ever holding them. */
  method ComputeLayerMeans(layers: seq<Layer>, width: nat) returns (mean: Outcome)
    requires AreLayers(layers, width)
    ensures mean.Raised? <==> Misfits(layers, width) || !SomeCounts(layers)
    ensures mean.NotANumber? ==> Population(layers, width) == []
    ensures mean.Mean? ==> IsMeanOf(mean.values, Population(layers, width), width)
  {
    hide Normalised, LayoutOf, AreSumsOf, ColumnSum;
    var totalCount: nat := 0;
    var totalSum := SumOverRows([], width);
    var counted := false;
    for i := 0 to |layers|
      invariant !Misfits(layers[..i], width)
      invariant counted <==> SomeCounts(layers[..i])
      invariant totalCount == |Population(layers[..i], width)|
      invariant AreSumsOf(totalSum, Population(layers[..i], width), width)
    {
      var layer := layers[i];
      ghost var before := Population(layers[..i], width);
      assert layers[..i + 1] == layers[..i] + [layer];
      assert layers[..i + 1][..i] == layers[..i];
      if layer.Counts() {
        assert layers[..i + 1][i].Counts();
        var w := layer.weight.value;
        var normalised := Normalised(w, layer.scheme.value);
        if normalised.None? {
          return Raised;
        }
        var rows := RowsOf(normalised.value, w.rows, width);
        var added := SumOverRows(rows, width);
        SumsAppend(totalSum, added, before, rows, width);
        totalCount := totalCount + w.rows;
        totalSum := Added(totalSum, added);
        counted := true;
      }
    }
    assert layers[..|layers|] == layers;
    if !counted {
      return Raised;
    }
    if totalCount == 0 {
      return NotANumber;
    }
    mean := Mean(Over(totalSum, totalCount));
    SumsOver(totalSum, Population(layers, width), width);
  }

  // ----- The mean of activations, kept up to date

  /** The mean so far, which is nothing when it is not a number, and the number of rows it is a mean of. */
  datatype Running = Running(mean: Option<Vector>, count: nat)

  function AccumulateMean(rows: seq<Vector>, prev: Option<Running>, width: nat): Running
    requires IsTable(rows, width)
    requires prev.Some? && prev.value.mean.Some? ==> |prev.value.mean.value| == width
  {
    var added := SumOverRows(rows, width);
    match prev
    case None =>
      Running(if rows == [] then None else Some(Over(added, |rows|)), |rows|)
    case Some(Running(mean, count)) =>
      var newCount := count + |rows|;
      if mean.None? || newCount == 0 then Running(None, newCount)
      else Running(Some(Over(Added(Scaled(mean.value, count as real), added), newCount)), newCount)
  }

  function Pooled(batches: seq<seq<Vector>>): seq<Vector> {
    if batches == [] then [] else Pooled(batches[..|batches| - 1]) + batches[|batches| - 1]
  }

  ghost predicate AreTables(batches: seq<seq<Vector>>, width: nat) {
    forall i :: 0 <= i < |batches| ==> IsTable(batches[i], width)
  }

  lemma {:induction false} PooledIsTable(batches: seq<seq<Vector>>, width: nat)
    requires AreTables(batches, width)
    ensures IsTable(Pooled(batches), width)
  {
    if batches != [] {
      PooledIsTable(batches[..|batches| - 1], width);
    }
  }

  /** The running mean is that of all rows of all batches, provided the first batch has a row; otherwise it never is a number. */
  ghost predicate IsPooledMean(r: Running, batches: seq<seq<Vector>>, width: nat)
    requires AreTables(batches, width)
  {
    PooledIsTable(batches, width);
    && batches != []
    && r.count == |Pooled(batches)|
    && (r.mean.Some? <==> batches[0] != [])
    && (r.mean.Some? ==> IsMeanOf(r.mean.value, Pooled(batches), width))
  }

  lemma {:induction false} MeanTimesCount(mean: Vector, rows: seq<Vector>, width: nat)
    requires IsTable(rows, width) && IsMeanOf(mean, rows, width)
    ensures AreSumsOf(Scaled(mean, |rows| as real), rows, width)
  {
    forall c | 0 <= c < width
      ensures Times(mean[c], |rows| as real) == ColumnSum(rows, c)
    {
    }
  }

  lemma {:induction false} FirstMean(rows: seq<Vector>, width: nat)
    requires IsTable(rows, width)
    ensures AreTables([rows], width) && IsPooledMean(AccumulateMean(rows, None, width), [rows], width)
  {
    hide ColumnSum, SumOverRows, Over;
    assert [rows][..0] == [];
    assert Pooled([rows]) == rows;
    if rows != [] {
      SumsOver(SumOverRows(rows, width), rows, width);
    }
  }

  lemma {:induction false} NextMean(r: Running, batches: seq<seq<Vector>>, rows: seq<Vector>, width: nat)
    requires AreTables(batches, width) && IsTable(rows, width) && IsPooledMean(r, batches, width)
    ensures AreTables(batches + [rows], width)
    ensures IsPooledMean(AccumulateMean(rows, Some(r), width), batches + [rows], width)
  {
    hide ColumnSum, SumOverRows, Over, Added, Scaled;
    var all := batches + [rows];
    assert all[..|all| - 1] == batches;
    PooledIsTable(batches, width);
    PooledIsTable(all, width);
    if r.mean.Some? {
      var pooled, added := Pooled(batches), SumOverRows(rows, width);
      MeanTimesCount(r.mean.value, pooled, width);
      SumsAppend(Scaled(r.mean.value, r.count as real), added, pooled, rows, width);
      SumsOver(Added(Scaled(r.mean.value, r.count as real), added), pooled + rows, width);
    }
  }

  /** The rows a loss mask keeps. */
  function Kept(rows: seq<Vector>, mask: Option<seq<bool>>): (k: seq<Vector>)
    requires mask.Some? ==> |mask.value| == |rows|
    ensures mask.None? ==> k == rows
    ensures forall v :: v in k ==> v in rows
    decreases |rows|
  {
    if mask.None? || rows == [] then rows
    else
      var n := |rows| - 1;
      Kept(rows[..n], Some(mask.value[..n])) + (if mask.value[n] then [rows[n]] else [])
  }

  /** The rows kept are those where the mask is true, in order: at are their positions. */
  ghost predicate KeepsRows(rows: seq<Vector>, mask: seq<bool>, at: seq<nat>, kept: seq<Vector>)
    requires |mask| == |rows|
  {
    Picks(rows, at, kept) && forall i :: 0 <= i < |rows| ==> (i in at <==> mask[i])
  }

  lemma {:induction false} KeepsOneMore(rows: seq<Vector>, mask: seq<bool>, at: seq<nat>, kept: seq<Vector>)
    requires |mask| == |rows| > 0 && KeepsRows(rows[..|rows| - 1], mask[..|rows| - 1], at, kept)
    ensures var n := |rows| - 1;
            if mask[n] then KeepsRows(rows, mask, at + [n], kept + [rows[n]]) else KeepsRows(rows, mask, at, kept)
  {
    hide Picks;
    var n := |rows| - 1;
    PicksNext(rows, at, kept);
    forall i | 0 <= i < n
      ensures i in at <==> mask[i]
    {
      assert mask[..n][i] == mask[i];
    }
  }

  /** A loss mask keeps the rows where it is true, in order. */
  lemma {:induction false} KeptWhereTrue(rows: seq<Vector>, mask: seq<bool>) returns (at: seq<nat>)
    requires |mask| == |rows|
    ensures KeepsRows(rows, mask, at, Kept(rows, Some(mask)))
  {
    at := [];
    if rows != [] {
      var n := |rows| - 1;
      at := KeptWhereTrue(rows[..n], mask[..n]);
      KeepsOneMore(rows, mask, at, Kept(rows[..n], Some(mask[..n])));
      at := if mask[n] then at + [n] else at;
    }
  }

  lemma {:induction false} KeptIsTable(rows: seq<Vector>, mask: Option<seq<bool>>, width: nat)
    requires IsTable(rows, width) && (mask.Some? ==> |mask.value| == |rows|)
    ensures IsTable(Kept(rows, mask), width)
  {
    forall i | 0 <= i < |Kept(rows, mask)|
      ensures |Kept(rows, mask)[i]| == width
    {
      assert Kept(rows, mask)[i] in rows;
    }
  }

  function Magnitudes(row: Vector): (m: Vector)
    ensures |m| == |row|
  {
    seq(|row|, c requires 0 <= c < |row| => Magnitude(row[c]))
  }

  function RowMagnitudes(rows: seq<Vector>): (m: seq<Vector>)
    ensures |m| == |rows| && forall i :: 0 <= i < |rows| ==> m[i] == Magnitudes(rows[i])
  {
    seq(|rows|, i requires 0 <= i < |rows| => Magnitudes(rows[i]))
  }

  lemma {:induction false} MeanWidth(r: Running, batches: seq<seq<Vector>>, width: nat)
    requires AreTables(batches, width) && IsPooledMean(r, batches, width)
    ensures r.mean.Some? ==> |r.mean.value| == width
  {
  }

  class ActivationMeans {
    const width: nat
    var means: map<string, Running>
    /** The batches every smooth layer has seen, as kept by their loss masks. */
    ghost var seen: map<string, seq<seq<Vector>>>

    constructor (width: nat)
      ensures this.width == width && means == map[] && Valid() && seen == map[]
    {
      this.width, means, seen := width, map[], map[];
    }

    ghost predicate Valid()
      reads this
    {
      && means.Keys == seen.Keys
      && forall n :: n in seen ==> AreTables(seen[n], width) && IsPooledMean(means[n], seen[n], width)
    }

    /** The hook on the inputs of a balance layer. */
    method CacheActivations(name: string, activations: seq<Vector>, mask: Option<seq<bool>>)
      requires Valid() && IsTable(activations, width) && (mask.Some? ==> |mask.value| == |activations|)
      modifies this
      ensures Valid()
      ensures var kept := Kept(RowMagnitudes(activations), mask);
              seen == old(seen)[name := (if name in old(seen) then old(seen)[name] else []) + [kept]]
      ensures forall n :: n != name && n in old(means) ==> n in means && means[n] == old(means)[n]
    {
      hide AccumulateMean, IsPooledMean, Kept;
      var kept := Kept(RowMagnitudes(activations), mask);
      KeptIsTable(RowMagnitudes(activations), mask, width);
      if name in means {
        NextMean(means[name], seen[name], kept, width);
        MeanWidth(means[name], seen[name], width);
        means := means[name := AccumulateMean(kept, Some(means[name]), width)];
        seen := seen[name := seen[name] + [kept]];
      } else {
        FirstMean(kept, width);
        means := means[name := AccumulateMean(kept, None, width)];
        seen := seen[name := [kept]];
        assert [] + [kept] == [kept];
      }
    }
  }
}
