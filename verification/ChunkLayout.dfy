/**
  How weights are laid out in the chunks that are quantized together, by the observers and for the means that smoothing
  uses. A tensor is the sequence of its entries in row-major order, so reshaping it changes nothing; only transposing does.
  */
module ChunkLayout {
  import opened Collections

  // ----- Division with remainder

  /** The number with quotient q and remainder r by d. */
  function Join(q: nat, r: nat, d: nat): nat {
    q * d + r
  }

  /** The first number with the quotient that p has by d. */
  function Start(p: nat, d: nat): nat
    requires d > 0
  {
    Join(p / d, 0, d)
  }

  lemma {:induction false} Split(x: nat, d: nat)
    requires d > 0
    ensures x == Join(x / d, x % d, d) && x % d < d
  {
  }

  lemma {:induction false} Monotone(a: nat, b: nat, d: nat)
    requires a <= b
    ensures a * d <= b * d
  {
  }

  /** Quotient and remainder are determined by the number. */
  lemma {:induction false} SplitUnique(q: nat, r: nat, d: nat)
    requires r < d
    ensures Join(q, r, d) / d == q && Join(q, r, d) % d == r
  {
    var x := Join(q, r, d);
    Split(x, d);
    if x / d < q {
      Monotone(x / d + 1, q, d);
    } else if q < x / d {
      Monotone(q + 1, x / d, d);
    }
  }

  lemma {:induction false} JoinInjective(q: nat, r: nat, q1: nat, r1: nat, d: nat)
    requires r < d && r1 < d
    ensures Join(q, r, d) == Join(q1, r1, d) <==> q == q1 && r == r1
  {
    SplitUnique(q, r, d);
    SplitUnique(q1, r1, d);
  }

  /** A pair of digits below its bounds makes a number below their product. */
  lemma {:induction false} PairBelow(q: nat, r: nat, n: nat, d: nat)
    requires q < n && r < d
    ensures Join(q, r, d) < n * d
  {
    Monotone(q + 1, n, d);
  }

  lemma {:induction false} SplitBelow(x: nat, n: nat, d: nat)
    requires d > 0 && x < n * d
    ensures x / d < n
  {
    Split(x, d);
    if x / d >= n {
      Monotone(n, x / d, d);
    }
  }

  // ----- Block layouts

  /** A matrix of nH times nW blocks of bh rows and bw columns. */
  datatype Blocks = Blocks(nH: nat, nW: nat, bh: nat, bw: nat)
  {
    predicate Valid() {
      bh > 0 && bw > 0
    }

    function Rows(): nat {
      nH * bh
    }

    function Cols(): nat {
      nW * bw
    }

    function ChunkOf(r: nat, c: nat): nat
      requires Valid()
    {
      Join(r / bh, c / bw, nW)
    }

    function OffsetOf(r: nat, c: nat): nat
      requires Valid()
    {
      Join(r % bh, c % bw, bw)
    }

    /** The row and column of the entry at an offset of a chunk. */
    function RowOf(q: nat, o: nat): nat
      requires Valid() && nW > 0
    {
      Join(q / nW, o / bw, bh)
    }

    function ColOf(q: nat, o: nat): nat
      requires Valid() && nW > 0
    {
      Join(q % nW, o % bw, bw)
    }
  }

  /** Where an entry goes, and back again. */
  lemma {:induction false} EntryToChunk(b: Blocks, r: nat, c: nat)
    requires b.Valid() && r < b.Rows() && c < b.Cols()
    ensures b.nW > 0 && b.ChunkOf(r, c) < b.nH * b.nW && b.OffsetOf(r, c) < b.bh * b.bw
    ensures b.RowOf(b.ChunkOf(r, c), b.OffsetOf(r, c)) == r && b.ColOf(b.ChunkOf(r, c), b.OffsetOf(r, c)) == c
  {
    SplitBelow(r, b.nH, b.bh);
    SplitBelow(c, b.nW, b.bw);
    Split(r, b.bh);
    Split(c, b.bw);
    PairBelow(r / b.bh, c / b.bw, b.nH, b.nW);
    PairBelow(r % b.bh, c % b.bw, b.bh, b.bw);
    SplitUnique(r / b.bh, c / b.bw, b.nW);
    SplitUnique(r % b.bh, c % b.bw, b.bw);
  }

  /** Where an offset of a chunk comes from, and there again: the layout is a bijection. */
  lemma {:induction false} ChunkToEntry(b: Blocks, q: nat, o: nat)
    requires b.Valid() && q < b.nH * b.nW && o < b.bh * b.bw
    ensures b.nW > 0 && b.RowOf(q, o) < b.Rows() && b.ColOf(q, o) < b.Cols()
    ensures b.ChunkOf(b.RowOf(q, o), b.ColOf(q, o)) == q && b.OffsetOf(b.RowOf(q, o), b.ColOf(q, o)) == o
  {
    SplitBelow(q, b.nH, b.nW);
    SplitBelow(o, b.bh, b.bw);
    Split(q, b.nW);
    Split(o, b.bw);
    PairBelow(q / b.nW, o / b.bw, b.nH, b.bh);
    PairBelow(q % b.nW, o % b.bw, b.nW, b.bw);
    SplitUnique(q / b.nW, o / b.bw, b.bh);
    SplitUnique(q % b.nW, o % b.bw, b.bw);
  }

  // ----- Transposing

  /**
    A tensor of shape (a, b, c, d) whose middle dimensions are transposed holds at position p the entry that the tensor
    holds at position Source(p, b, c, d).
    */
  function Source(p: nat, b: nat, c: nat, d: nat): nat
    requires b > 0 && c > 0 && d > 0
  {
    var inner := p / d;
    var outer := inner / b;
    Join(Join(Join(outer / c, inner % b, b), outer % c, c), p % d, d)
  }

  lemma {:induction false} SourceOfDigits(i: nat, j: nat, k: nat, l: nat, b: nat, c: nat, d: nat)
    requires j < b && k < c && l < d
    ensures Source(Join(Join(Join(i, k, c), j, b), l, d), b, c, d) == Join(Join(Join(i, j, b), k, c), l, d)
  {
    SplitUnique(Join(Join(i, k, c), j, b), l, d);
    SplitUnique(Join(i, k, c), j, b);
    SplitUnique(i, k, c);
  }

  lemma {:induction false} LastDigit(x: nat, n: nat, d: nat) returns (q: nat, r: nat)
    requires d > 0 && x < n * d
    ensures q < n && r < d && x == Join(q, r, d)
  {
    q, r := x / d, x % d;
    Split(x, d);
    SplitBelow(x, n, d);
  }

  lemma {:induction false} Digits(p: nat, a: nat, b: nat, c: nat, d: nat) returns (i: nat, j: nat, k: nat, l: nat)
    requires b > 0 && c > 0 && d > 0 && p < a * c * b * d
    ensures i < a && j < b && k < c && l < d && p == Join(Join(Join(i, k, c), j, b), l, d)
  {
    hide Join;
    var inner, outer;
    inner, l := LastDigit(p, a * c * b, d);
    outer, j := LastDigit(inner, a * c, b);
    i, k := LastDigit(outer, a, c);
  }

  lemma {:induction false} MiddleCommutes(a: nat, b: nat, c: nat, d: nat)
    ensures a * c * b * d == a * b * c * d
  {
    assert a * c * b == a * b * c;
  }

  lemma {:induction false} SourceBelow(p: nat, a: nat, b: nat, c: nat, d: nat)
    requires b > 0 && c > 0 && d > 0 && p < a * b * c * d
    ensures Source(p, b, c, d) < a * b * c * d
  {
    MiddleCommutes(a, b, c, d);
    var i, j, k, l := Digits(p, a, b, c, d);
    SourceOfDigits(i, j, k, l, b, c, d);
    PairBelow(i, j, a, b);
    PairBelow(Join(i, j, b), k, a * b, c);
    PairBelow(Join(Join(i, j, b), k, c), l, a * b * c, d);
  }

  function Transposed<T>(data: seq<T>, a: nat, b: nat, c: nat, d: nat): (t: seq<T>)
    requires |data| == a * b * c * d
    ensures |t| == |data|
  {
    if b == 0 || c == 0 || d == 0 then data
    else seq(|data|, p requires 0 <= p < |data| => SourceBelow(p, a, b, c, d); data[Source(p, b, c, d)])
  }

  /** Transposing the same dimensions again undoes it. */
  lemma {:induction false} TransposedBack<T>(data: seq<T>, a: nat, b: nat, c: nat, d: nat)
    requires |data| == a * b * c * d
    ensures a * c * b * d == |data| && Transposed(Transposed(data, a, b, c, d), a, c, b, d) == data
  {
    hide Source;
    MiddleCommutes(a, b, c, d);
    if b == 0 || c == 0 || d == 0 {
      return;
    }
    var t := Transposed(data, a, b, c, d);
    forall p | 0 <= p < |data|
      ensures Transposed(t, a, c, b, d)[p] == data[p]
    {
      var i, j, k, l := Digits(p, a, c, b, d);
      SourceOfDigits(i, j, k, l, c, b, d);
      SourceBelow(p, a, c, b, d);
      SourceOfDigits(i, k, j, l, b, c, d);
    }
  }

  // ----- Weights

  datatype Weight = Weight(rows: nat, cols: nat, data: seq<real>)
  {
    predicate Valid() {
      |data| == rows * cols
    }

    ghost predicate Has(r: nat, c: nat) {
      r < rows && c < cols
    }

    function At(r: nat, c: nat): real
      requires Valid() && r < rows && c < cols
    {
      PairBelow(r, c, rows, cols);
      data[Join(r, c, cols)]
    }
  }

  datatype Strategy = PerTensor | PerChannel | PerGroup(size: nat) | PerBlock(height: nat, width: nat)

  /** Entries in an order in which those quantized together are consecutive. */
  datatype Layout = Layout(data: seq<real>, size: nat)

  lemma {:induction false} Regroup(x: nat, y: nat, d: nat)
    ensures x * y * d == x * (y * d)
  {
  }

  lemma {:induction false} Divided(x: nat, d: nat)
    requires d > 0 && x % d == 0
    ensures x == x / d * d
  {
  }

  predicate SplitsIntoBlocks(w: Weight, height: nat, width: nat) {
    height > 0 && width > 0 && w.rows % height == 0 && w.cols % width == 0
  }

  function BlocksOf(w: Weight, height: nat, width: nat): (b: Blocks)
    requires w.Valid() && SplitsIntoBlocks(w, height, width)
    ensures b.Valid() && b.bh == height && b.bw == width && b.Rows() == w.rows && b.Cols() == w.cols
    ensures |w.data| == b.nH * b.bh * b.nW * b.bw
  {
    Divided(w.rows, height);
    Divided(w.cols, width);
    Regroup(w.rows, w.cols / width, width);
    Blocks(w.rows / height, w.cols / width, height, width)
  }

  /** The layout the means are computed in, or nothing where the source raises. */
  function LayoutOf(w: Weight, s: Strategy): Option<Layout>
    requires w.Valid()
  {
    match s
    case PerTensor => if |w.data| == 0 then None else Some(Layout(w.data, |w.data|))
    case PerChannel => if w.cols == 0 then None else Some(Layout(w.data, w.cols))
    case PerGroup(size) => if size == 0 || |w.data| % size != 0 then None else Some(Layout(w.data, size))
    case PerBlock(height, width) =>
      if SplitsIntoBlocks(w, height, width) then
        var b := BlocksOf(w, height, width);
        Some(Layout(Transposed(w.data, b.nH, b.bh, b.nW, b.bw), height * width))
      else None
  }

  /** Back from the layout to rows and columns. */
  function Restored(w: Weight, s: Strategy, data: seq<real>): (d: seq<real>)
    requires w.Valid() && LayoutOf(w, s).Some? && |data| == |w.data|
    ensures |d| == |w.data|
  {
    if s.PerBlock? then
      var b := BlocksOf(w, s.height, s.width);
      MiddleCommutes(b.nH, b.bh, b.nW, b.bw);
      Transposed(data, b.nH, b.nW, b.bh, b.bw)
    else data
  }

  lemma {:induction false} RestoredLayout(w: Weight, s: Strategy)
    requires w.Valid() && LayoutOf(w, s).Some?
    ensures |LayoutOf(w, s).value.data| == |w.data| && Restored(w, s, LayoutOf(w, s).value.data) == w.data
  {
    hide Transposed;
    if s.PerBlock? {
      var b := BlocksOf(w, s.height, s.width);
      TransposedBack(w.data, b.nH, b.bh, b.nW, b.bw);
    }
  }

  // ----- Where the entries are

  /** Where the layout has the entry at row r and column c. */
  function Position(w: Weight, s: Strategy, r: nat, c: nat): nat
    requires w.Valid() && LayoutOf(w, s).Some?
  {
    if s.PerBlock? then
      var b := BlocksOf(w, s.height, s.width);
      Join(b.ChunkOf(r, c), b.OffsetOf(r, c), s.height * s.width)
    else Join(r, c, w.cols)
  }

  lemma {:induction false} JoinAgain(q: nat, j: nat, x: nat, l: nat, y: nat)
    ensures Join(Join(q, j, x), l, y) == Join(q, Join(j, l, y), x * y)
  {
    Regroup(q, x, y);
    assert (q * x + j) * y == q * x * y + j * y;
  }

  lemma {:induction false} BlockPosition(b: Blocks, r: nat, c: nat, row: nat, rowIn: nat, col: nat, colIn: nat)
    requires b.Valid() && r < b.Rows() && c < b.Cols()
    requires row == r / b.bh && rowIn == r % b.bh && col == c / b.bw && colIn == c % b.bw
    ensures rowIn < b.bh && col < b.nW && colIn < b.bw
    ensures Join(b.ChunkOf(r, c), b.OffsetOf(r, c), b.bh * b.bw) == Join(Join(Join(row, col, b.nW), rowIn, b.bh), colIn, b.bw)
    ensures Join(r, c, b.Cols()) == Join(Join(Join(row, rowIn, b.bh), col, b.nW), colIn, b.bw)
  {
    Split(r, b.bh);
    Split(c, b.bw);
    SplitBelow(c, b.nW, b.bw);
    JoinAgain(Join(row, col, b.nW), rowIn, b.bh, colIn, b.bw);
    JoinAgain(r, col, b.nW, colIn, b.bw);
  }

  lemma {:induction false} BlockSize(b: Blocks)
    ensures b.nH * b.bh * b.nW * b.bw == b.nH * b.nW * b.bh * b.bw == b.nH * b.nW * (b.bh * b.bw)
  {
    MiddleCommutes(b.nH, b.nW, b.bh, b.bw);
    Regroup(b.nH * b.nW, b.bh, b.bw);
  }

  lemma {:induction false} PositionBelow(w: Weight, s: Strategy, r: nat, c: nat)
    requires w.Valid() && LayoutOf(w, s).Some? && r < w.rows && c < w.cols
    ensures Position(w, s, r, c) < |w.data|
  {
    hide LayoutOf;
    if s.PerBlock? {
      SizeOfBlock(w, s);
      var b := BlocksOf(w, s.height, s.width);
      EntryToChunk(b, r, c);
      PairBelow(b.ChunkOf(r, c), b.OffsetOf(r, c), b.nH * b.nW, b.bh * b.bw);
      BlockSize(b);
    } else {
      PairBelow(r, c, w.rows, w.cols);
    }
  }

  lemma {:induction false} SizeOfBlock(w: Weight, s: Strategy)
    requires w.Valid() && LayoutOf(w, s).Some? && s.PerBlock?
    ensures SplitsIntoBlocks(w, s.height, s.width) && LayoutOf(w, s).value.size == s.height * s.width
    ensures var b := BlocksOf(w, s.height, s.width);
            LayoutOf(w, s).value.data == Transposed(w.data, b.nH, b.bh, b.nW, b.bw)
  {
  }

  lemma {:induction false} TransposedAt<T>(data: seq<T>, a: nat, b: nat, c: nat, d: nat, i: nat, j: nat, k: nat, l: nat)
    requires |data| == a * b * c * d && j < b && k < c && l < d
    requires Join(Join(Join(i, k, c), j, b), l, d) < |data|
    ensures Join(Join(Join(i, j, b), k, c), l, d) < |data|
    ensures Transposed(data, a, b, c, d)[Join(Join(Join(i, k, c), j, b), l, d)] == data[Join(Join(Join(i, j, b), k, c), l, d)]
  {
    hide Source, Join;
    SourceOfDigits(i, j, k, l, b, c, d);
    SourceBelow(Join(Join(Join(i, k, c), j, b), l, d), a, b, c, d);
  }

  /** The layout has every entry in its place: for blocks, at its offset of the chunk of its block. */
  lemma {:induction false} LayoutHasEntry(w: Weight, s: Strategy, r: nat, c: nat)
    requires w.Valid() && LayoutOf(w, s).Some? && r < w.rows && c < w.cols
    ensures |LayoutOf(w, s).value.data| == |w.data| && Position(w, s, r, c) < |w.data|
    ensures LayoutOf(w, s).value.data[Position(w, s, r, c)] == w.At(r, c)
  {
    hide Transposed;
    PositionBelow(w, s, r, c);
    if s.PerBlock? {
      hide LayoutOf;
      SizeOfBlock(w, s);
      var b := BlocksOf(w, s.height, s.width);
      BlockPosition(b, r, c, r / b.bh, r % b.bh, c / b.bw, c % b.bw);
      TransposedAt(w.data, b.nH, b.bh, b.nW, b.bw, r / b.bh, r % b.bh, c / b.bw, c % b.bw);
    }
  }

  /** Undoing the layout takes what is in an entry's place back to the entry. */
  lemma {:induction false} RestoredHasEntry(w: Weight, s: Strategy, data: seq<real>, r: nat, c: nat)
    requires w.Valid() && LayoutOf(w, s).Some? && |data| == |w.data| && r < w.rows && c < w.cols
    ensures Position(w, s, r, c) < |data| && Join(r, c, w.cols) < |data|
    ensures Restored(w, s, data)[Join(r, c, w.cols)] == data[Position(w, s, r, c)]
  {
    hide Transposed, LayoutOf;
    PositionBelow(w, s, r, c);
    PairBelow(r, c, w.rows, w.cols);
    if s.PerBlock? {
      SizeOfBlock(w, s);
      var b := BlocksOf(w, s.height, s.width);
      MiddleCommutes(b.nH, b.bh, b.nW, b.bw);
      BlockPosition(b, r, c, r / b.bh, r % b.bh, c / b.bw, c % b.bw);
      TransposedAt(data, b.nH, b.nW, b.bh, b.bw, r / b.bh, c / b.bw, r % b.bh, c % b.bw);
    }
  }

  /** Every place of the layout is that of an entry. */
  lemma {:induction false} EntryAtPosition(w: Weight, s: Strategy, p: nat) returns (r: nat, c: nat)
    requires w.Valid() && LayoutOf(w, s).Some? && p < |w.data|
    ensures r < w.rows && c < w.cols && Position(w, s, r, c) == p
  {
    hide LayoutOf;
    if s.PerBlock? {
      SizeOfBlock(w, s);
      var b := BlocksOf(w, s.height, s.width);
      BlockSize(b);
      var size := b.bh * b.bw;
      r, c := BlockEntry(b, p, size);
    } else {
      r, c := p / w.cols, p % w.cols;
      Split(p, w.cols);
      SplitBelow(p, w.rows, w.cols);
    }
  }

  lemma {:induction false} BlockEntry(b: Blocks, p: nat, size: nat) returns (r: nat, c: nat)
    requires b.Valid() && size == b.bh * b.bw && p < b.nH * b.nW * size
    ensures r < b.Rows() && c < b.Cols() && Join(b.ChunkOf(r, c), b.OffsetOf(r, c), size) == p
  {
    PairBelow(0, 0, b.bh, b.bw);
    var q, o := p / size, p % size;
    Split(p, size);
    SplitBelow(p, b.nH * b.nW, size);
    ChunkToEntry(b, q, o);
    r, c := b.RowOf(q, o), b.ColOf(q, o);
  }

  // ----- What is quantized together

  /** Whether two entries are quantized together. */
  predicate Together(w: Weight, s: Strategy, r: nat, c: nat, r1: nat, c1: nat) {
    match s
    case PerTensor => true
    case PerChannel => r == r1
    case PerGroup(size) => size > 0 && Join(r, c, w.cols) / size == Join(r1, c1, w.cols) / size
    case PerBlock(height, width) => height > 0 && width > 0 && r / height == r1 / height && c / width == c1 / width
  }

  /** The chunks of the layout are the sets of entries that are quantized together. */
  lemma {:induction false} ChunksAreTogether(w: Weight, s: Strategy, r: nat, c: nat, r1: nat, c1: nat)
    requires w.Valid() && LayoutOf(w, s).Some? && r < w.rows && c < w.cols && r1 < w.rows && c1 < w.cols
    ensures LayoutOf(w, s).value.size > 0
    ensures Position(w, s, r, c) / LayoutOf(w, s).value.size == Position(w, s, r1, c1) / LayoutOf(w, s).value.size <==>
            Together(w, s, r, c, r1, c1)
  {
    hide Transposed;
    match s
    case PerTensor =>
      PositionBelow(w, s, r, c);
      PositionBelow(w, s, r1, c1);
      SplitUnique(0, Position(w, s, r, c), |w.data|);
      SplitUnique(0, Position(w, s, r1, c1), |w.data|);
    case PerChannel =>
      SplitUnique(r, c, w.cols);
      SplitUnique(r1, c1, w.cols);
    case PerGroup(size) =>
    case PerBlock(height, width) =>
      hide LayoutOf;
      SizeOfBlock(w, s);
      var b := BlocksOf(w, height, width);
      PairBelow(0, 0, height, width);
      ChunkNumber(b, r, c);
      ChunkNumber(b, r1, c1);
  }

  lemma {:induction false} ChunkNumber(b: Blocks, r: nat, c: nat)
    requires b.Valid() && r < b.Rows() && c < b.Cols()
    ensures b.bh * b.bw > 0 && b.nW > 0
    ensures Join(b.ChunkOf(r, c), b.OffsetOf(r, c), b.bh * b.bw) / (b.bh * b.bw) == b.ChunkOf(r, c)
    ensures b.ChunkOf(r, c) / b.nW == r / b.bh && b.ChunkOf(r, c) % b.nW == c / b.bw
  {
    EntryToChunk(b, r, c);
    PairBelow(0, 0, b.bh, b.bw);
    SplitUnique(b.ChunkOf(r, c), b.OffsetOf(r, c), b.bh * b.bw);
    SplitBelow(c, b.nW, b.bw);
    SplitUnique(r / b.bh, c / b.bw, b.nW);
  }

  // ----- The observers' layout

  lemma {:induction false} RowsOfGroups(w: Weight, size: nat, n: nat, r: nat, c: nat)
    requires size > 0 && w.cols == n * size && r < w.rows && c < w.cols
    ensures Join(r, c, w.cols) / size == Join(r, c / size, n) && c / size < n
  {
    Split(c, size);
    SplitBelow(c, n, size);
    JoinAgain(r, c / size, n, c % size, size);
    SplitUnique(Join(r, c / size, n), c % size, size);
  }

  /** When the group size divides the columns, groups stay within rows. */
  lemma {:induction false} GroupsStayInRows(w: Weight, size: nat, n: nat, r: nat, c: nat, r1: nat, c1: nat)
    requires size > 0 && w.cols == n * size && r < w.rows && c < w.cols && r1 < w.rows && c1 < w.cols
    ensures Together(w, PerGroup(size), r, c, r1, c1) <==> r == r1 && c / size == c1 / size
  {
    hide Join;
    RowsOfGroups(w, size, n, r, c);
    RowsOfGroups(w, size, n, r1, c1);
    JoinInjective(r, c / size, r1, c1 / size, n);
  }

  function RoundedUp(n: nat, d: nat): nat
    requires d > 0
  {
    (n + d - 1) / d * d
  }

  lemma {:induction false} RoundedUpMultiple(n: nat, d: nat)
    requires d > 0 && n % d == 0
    ensures RoundedUp(n, d) == n
  {
    Divided(n, d);
    SplitUnique(n / d, d - 1, d);
  }

  /** The weight with zeros after its rows and columns, so that blocks fit. */
  function Padded(w: Weight, height: nat, width: nat): (v: Weight)
    requires w.Valid() && height > 0 && width > 0
    ensures v.Valid()
  {
    var rows, cols := RoundedUp(w.rows, height), RoundedUp(w.cols, width);
    Weight(rows, cols, seq(rows * cols, p requires 0 <= p < rows * cols =>
      if p / cols < w.rows && p % cols < w.cols then w.At(p / cols, p % cols) else 0.0))
  }

  lemma {:induction false} PaddedDivisible(w: Weight, height: nat, width: nat)
    requires w.Valid() && SplitsIntoBlocks(w, height, width)
    ensures Padded(w, height, width) == w
  {
    RoundedUpMultiple(w.rows, height);
    RoundedUpMultiple(w.cols, width);
    forall p | 0 <= p < |w.data|
      ensures w.cols > 0 && p / w.cols < w.rows && p % w.cols < w.cols && p == Join(p / w.cols, p % w.cols, w.cols)
    {
      Split(p, w.cols);
      SplitBelow(p, w.rows, w.cols);
    }
  }

  lemma {:induction false} PaddedSplits(w: Weight, height: nat, width: nat)
    requires w.Valid() && height > 0 && width > 0
    ensures SplitsIntoBlocks(Padded(w, height, width), height, width)
  {
    SplitUnique((w.rows + height - 1) / height, 0, height);
    SplitUnique((w.cols + width - 1) / width, 0, width);
  }

  /** How an observer flattens a weight: the last dimension holds what is quantized together. */
  function Observed(w: Weight, s: Strategy): Option<Layout>
    requires w.Valid()
  {
    match s
    case PerTensor => Some(Layout(w.data, |w.data|))
    case PerChannel => Some(Layout(w.data, w.cols))
    case PerGroup(size) => if size == 0 || w.cols % size != 0 then None else Some(Layout(w.data, size))
    case PerBlock(height, width) =>
      if height == 0 || width == 0 then None
      else
        PaddedSplits(w, height, width);
        var v := Padded(w, height, width);
        var b := BlocksOf(v, height, width);
        Some(Layout(Transposed(v.data, b.nH, b.bh, b.nW, b.bw), height * width))
  }

  predicate Divides(w: Weight, s: Strategy) {
    match s
    case PerTensor => true
    case PerChannel => true
    case PerGroup(size) => size > 0 && w.cols % size == 0
    case PerBlock(height, width) => SplitsIntoBlocks(w, height, width)
  }

  lemma {:induction false} RowsDivide(w: Weight, size: nat)
    requires w.Valid() && size > 0 && w.cols % size == 0
    ensures |w.data| % size == 0
  {
    Divided(w.cols, size);
    Regroup(w.rows, w.cols / size, size);
    SplitUnique(w.rows * (w.cols / size), 0, size);
  }

  /** Observers and the means of smoothing lay a weight out alike exactly when its shape is divisible. */
  lemma {:induction false} ObserverAgrees(w: Weight, s: Strategy)
    requires w.Valid() && w.rows > 0 && w.cols > 0
    ensures LayoutOf(w, s).Some? && Observed(w, s) == LayoutOf(w, s) <==> Divides(w, s)
  {
    hide Transposed, Padded;
    PairBelow(0, 0, w.rows, w.cols);
    match s
    case PerTensor =>
    case PerChannel =>
    case PerGroup(size) =>
      if Divides(w, s) {
        RowsDivide(w, size);
      }
    case PerBlock(height, width) =>
      if Divides(w, s) {
        PaddedDivisible(w, height, width);
      }
  }
}
