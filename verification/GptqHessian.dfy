/** The calibration Hessian of a linear module: twice the Gram matrix of every token seen, with a count of samples. */
module GptqHessian {
  import opened Collections
  import opened Sums
  import opened GptqColumns

  type Token = seq<real>

  /**
    The first argument of the calibrated module: one sequence of tokens, or a batch of sequences; for a convolution, images
    unfolded into patches.
    */
  datatype Input = Sequence(tokens: seq<Token>) | Batch(sequences: seq<seq<Token>>) | Images(patches: seq<seq<Token>>)
  {
    /** inp.shape[0] once a lone sequence has been given a batch dimension. */
    function NumAdded(): nat {
      match this
      case Sequence(_) => 1
      case Batch(sequences) => |sequences|
      case Images(patches) => |patches|
    }

    /** The rows of the matrix whose Gram matrix is added: inp.reshape((-1, inp.shape[-1])), or the patches of all images. */
    function Tokens(): seq<Token> {
      match this
      case Sequence(tokens) => tokens
      case Batch(sequences) => Concat(sequences)
      case Images(patches) => Concat(patches)
    }
  }

  function Concat(sequences: seq<seq<Token>>): seq<Token> {
    if sequences == [] then [] else Concat(sequences[..|sequences| - 1]) + sequences[|sequences| - 1]
  }

  ghost predicate HasFeatures(inp: Input, n: nat) {
    forall t :: t in inp.Tokens() ==> |t| == n
  }

  function Feature(t: Token, i: nat): real {
    if i < |t| then t[i] else 0.0
  }

  /** Entry (i, j) of the product of the scaled input with its transpose; the scale sqrt(2) enters twice. */
  ghost function Gram(tokens: seq<Token>, i: nat, j: nat): real {
    if tokens == [] then 0.0
    else
      var t := tokens[|tokens| - 1];
      Gram(tokens[..|tokens| - 1], i, j) + 2.0 * Times(Feature(t, i), Feature(t, j))
  }

  /** The Hessian entry after the given batches. */
  ghost function Entry(batches: seq<Input>, i: nat, j: nat): real {
    if batches == [] then 0.0
    else Entry(batches[..|batches| - 1], i, j) + Gram(batches[|batches| - 1].Tokens(), i, j)
  }

  function Samples(batches: seq<Input>): nat {
    if batches == [] then 0 else Samples(batches[..|batches| - 1]) + batches[|batches| - 1].NumAdded()
  }

  ghost function HessianMatrix(n: nat, batches: seq<Input>): (h: Matrix)
    ensures Shaped(h, n, n)
    ensures forall i, j :: 0 <= i < n && 0 <= j < n ==> h[i][j] == Entry(batches, i, j)
  {
    seq(n, i requires 0 <= i < n => seq(n, j requires 0 <= j < n => Entry(batches, i, j)))
  }

  /** H += inp * inp^T, and the sample count goes up by the batch dimension. */
  method AccumulateHessian(inp: Input, n: nat, H: Matrix, numSamples: nat) returns (sum: Matrix, total: nat)
    requires Shaped(H, n, n) && HasFeatures(inp, n)
    ensures Shaped(sum, n, n)
    ensures forall i, j :: 0 <= i < n && 0 <= j < n ==> sum[i][j] == H[i][j] + Gram(inp.Tokens(), i, j)
    ensures total == numSamples + inp.NumAdded()
  {
    var tokens := inp.Tokens();
    sum := H;
    for k := 0 to |tokens|
      invariant Shaped(sum, n, n)
      invariant forall i, j :: 0 <= i < n && 0 <= j < n ==> sum[i][j] == H[i][j] + Gram(tokens[..k], i, j)
    {
      var t := tokens[k];
      assert tokens[..k + 1][..k] == tokens[..k];
      sum := seq(n, i requires 0 <= i < n =>
                 seq(n, j requires 0 <= j < n => sum[i][j] + 2.0 * Times(Feature(t, i), Feature(t, j))));
    }
    assert tokens[..|tokens|] == tokens;
    total := numSamples + inp.NumAdded();
  }

  // ----- Pooling

  lemma {:induction false} EntryAppend(a: seq<Input>, b: seq<Input>, i: nat, j: nat)
    ensures Entry(a + b, i, j) == Entry(a, i, j) + Entry(b, i, j)
    ensures Samples(a + b) == Samples(a) + Samples(b)
  {
    hide Entry, Samples, Gram;
    if b == [] {
      assert a + b == a;
      NothingYet(i, j);
    } else {
      var front, last := b[..|b| - 1], b[|b| - 1];
      EntryAppend(a, front, i, j);
      OneMore(front, last, i, j);
      OneMore(a + front, last, i, j);
      assert b == front + [last] && a + b == a + front + [last];
    }
  }

  lemma {:induction false} NothingYet(i: nat, j: nat)
    ensures Entry([], i, j) == 0.0 && Samples([]) == 0
  {
  }

  lemma {:induction false} OneMore(a: seq<Input>, x: Input, i: nat, j: nat)
    ensures Entry(a + [x], i, j) == Entry(a, i, j) + Gram(x.Tokens(), i, j)
    ensures Samples(a + [x]) == Samples(a) + x.NumAdded()
  {
    assert (a + [x])[..|a|] == a;
  }

  // ----- What one call adds

  lemma {:induction false} GramAppend(a: seq<Token>, b: seq<Token>, i: nat, j: nat)
    ensures Gram(a + b, i, j) == Gram(a, i, j) + Gram(b, i, j)
  {
    if b == [] {
      assert a + b == a;
    } else {
      var front, last := b[..|b| - 1], b[|b| - 1];
      GramAppend(a, front, i, j);
      assert (a + b)[..|a + b| - 1] == a + front;
    }
  }

  /** The contribution of token k to entry (i, j). */
  function ProductAt(tokens: seq<Token>, i: nat, j: nat, k: int): real
    requires forall t :: t in tokens ==> i < |t| && j < |t|
  {
    if 0 <= k < |tokens| then Times(tokens[k][i], tokens[k][j]) else 0.0
  }

  /** Entry (i, j) of a Gram matrix is twice the sum, over the tokens, of the product of features i and j. */
  lemma {:induction false} GramIsSum(tokens: seq<Token>, i: nat, j: nat)
    requires forall t :: t in tokens ==> i < |t| && j < |t|
    ensures Gram(tokens, i, j) == 2.0 * Sum(|tokens|, k => ProductAt(tokens, i, j, k))
  {
    if tokens != [] {
      var n := |tokens| - 1;
      GramIsSum(tokens[..n], i, j);
      SumEqual(n, k => ProductAt(tokens[..n], i, j, k), k => ProductAt(tokens, i, j, k));
    }
  }

  /** The sequences of a batch as calls of their own. */
  function OneByOne(sequences: seq<seq<Token>>): (inputs: seq<Input>)
    ensures |inputs| == |sequences| && forall k :: 0 <= k < |inputs| ==> inputs[k] == Sequence(sequences[k])
  {
    seq(|sequences|, k requires 0 <= k < |sequences| => Sequence(sequences[k]))
  }

  lemma {:induction false} OneMoreSequence(sequences: seq<seq<Token>>)
    requires sequences != []
    ensures OneByOne(sequences) == OneByOne(sequences[..|sequences| - 1]) + [Sequence(sequences[|sequences| - 1])]
  {
  }

  lemma {:induction false} ConcatAddsAll(sequences: seq<seq<Token>>, i: nat, j: nat)
    ensures Gram(Concat(sequences), i, j) == Entry(OneByOne(sequences), i, j)
    ensures Samples(OneByOne(sequences)) == |sequences|
  {
    if sequences == [] {
      NothingYet(i, j);
    } else {
      hide Entry, Samples, Gram;
      var front, last := sequences[..|sequences| - 1], sequences[|sequences| - 1];
      ConcatAddsAll(front, i, j);
      GramAppend(Concat(front), last, i, j);
      OneMoreSequence(sequences);
      OneMore(OneByOne(front), Sequence(last), i, j);
    }
  }

  /** A batch, and the images of a convolution's input, add what their sequences add one by one, and count as many samples. */
  lemma {:induction false} BatchIsItsSequences(sequences: seq<seq<Token>>, i: nat, j: nat)
    ensures Entry([Batch(sequences)], i, j) == Entry([Images(sequences)], i, j) == Entry(OneByOne(sequences), i, j)
    ensures Samples([Batch(sequences)]) == Samples([Images(sequences)]) == Samples(OneByOne(sequences)) == |sequences|
  {
    ConcatAddsAll(sequences, i, j);
    NothingYet(i, j);
    OneMore([], Batch(sequences), i, j);
    OneMore([], Images(sequences), i, j);
    assert [] + [Batch(sequences)] == [Batch(sequences)] && [] + [Images(sequences)] == [Images(sequences)];
  }

  lemma {:induction false} TakeOut(b: seq<Input>, x: Input) returns (before: seq<Input>, after: seq<Input>)
    requires x in multiset(b)
    ensures b == before + [x] + after
    ensures multiset(before + after) == multiset(b) - multiset{x}
  {
    var k :| 0 <= k < |b| && b[k] == x;
    before, after := b[..k], b[k + 1..];
    assert b == before + [x] + after;
    assert multiset(b) == multiset(before) + multiset{x} + multiset(after);
  }

  lemma {:induction false} EntryWithout(before: seq<Input>, x: Input, after: seq<Input>, i: nat, j: nat)
    ensures Entry(before + [x] + after, i, j) == Entry(before + after, i, j) + Gram(x.Tokens(), i, j)
    ensures Samples(before + [x] + after) == Samples(before + after) + x.NumAdded()
  {
    hide Entry, Samples, Gram;
    EntryAppend(before + [x], after, i, j);
    EntryAppend(before, after, i, j);
    OneMore(before, x, i, j);
  }

  /** The order of the batches does not matter. */
  lemma {:induction false} EntryOfRearranged(a: seq<Input>, b: seq<Input>, i: nat, j: nat)
    requires multiset(a) == multiset(b)
    ensures Entry(a, i, j) == Entry(b, i, j)
    ensures Samples(a) == Samples(b)
  {
    hide Entry, Samples, Gram;
    if a == [] {
      assert |multiset(b)| == 0;
    } else {
      var front, last := a[..|a| - 1], a[|a| - 1];
      FrontOf(a, front, last);
      var before, after := TakeOut(b, last);
      EntryOfRearranged(front, before + after, i, j);
      EntryWithout(before, last, after, i, j);
      OneMore(front, last, i, j);
    }
  }

  lemma {:induction false} FrontOf(a: seq<Input>, front: seq<Input>, last: Input)
    requires a != [] && front == a[..|a| - 1] && last == a[|a| - 1]
    ensures a == front + [last] && last in multiset(a) && multiset(front) == multiset(a) - multiset{last}
  {
    assert a == front + [last];
  }
}
