/** The calibration forward passes of mixture-of-experts layers: tokens are gathered expert by expert and scattered back. */
module MoeDispatch {
  import opened Collections
  import opened Sums

  type Row = seq<real>
  type Matrix = seq<Row>

  /** A layer with its experts, which act on every row by itself, its flattened input, and what the gate chose. */
  datatype Layer = Layer(width: nat, experts: seq<Row -> Row>, hidden: Matrix,
                         topK: nat, selected: seq<seq<nat>>, weights: Matrix)
  {
    ghost predicate Valid() {
      && Shaped(hidden, |hidden|, width)
      && (forall e, row :: 0 <= e < |experts| && |row| == width ==> |experts[e](row)| == width)
      && |selected| == |hidden| && Shaped(weights, |hidden|, topK)
      && (forall t :: 0 <= t < |selected| ==> |selected[t]| == topK)
      && (forall t, k :: 0 <= t < |selected| && 0 <= k < topK ==> selected[t][k] < |experts|)
    }

    function Tokens(): nat {
      |hidden|
    }

    /** The mask of expert e. */
    predicate Routed(e: nat, t: nat, k: nat) {
      t < |selected| && k < |selected[t]| && selected[t][k] == e
    }

    /** What choice k contributes to coordinate c of token t. */
    function Term(t: nat, k: nat, c: nat): real
      requires Valid() && t < Tokens() && k < topK && c < width
    {
      Times(weights[t][k], experts[selected[t][k]](hidden[t])[c])
    }

    /** Coordinate c of the sum over the first n choices of the weight times the chosen expert's output. */
    ghost function Mixture(t: nat, c: nat, n: nat): real
      requires Valid() && t < Tokens() && c < width && n <= topK
    {
      if n == 0 then 0.0 else Mixture(t, c, n - 1) + Term(t, n - 1, c)
    }

    /** The same with the choices of experts before e only. */
    ghost function Before(e: nat, t: nat, c: nat, n: nat): real
      requires Valid() && t < Tokens() && c < width && n <= topK
    {
      if n == 0 then 0.0 else Before(e, t, c, n - 1) + if selected[t][n - 1] < e then Term(t, n - 1, c) else 0.0
    }

    /** The same with the given choices only. */
    ghost function Among(pairs: seq<(nat, nat)>, t: nat, c: nat, n: nat): real
      requires Valid() && t < Tokens() && c < width && n <= topK
    {
      if n == 0 then 0.0 else Among(pairs, t, c, n - 1) + if (t, n - 1) in pairs then Term(t, n - 1, c) else 0.0
    }
  }

  // ----- torch.where on a mask

  ghost predicate RowMajor(found: seq<(nat, nat)>) {
    forall i, j :: 0 <= i < j < |found| ==> found[i].0 < found[j].0 || (found[i].0 == found[j].0 && found[i].1 < found[j].1)
  }

  function WhereInRow(mask: (nat, nat) -> bool, r: nat, cols: nat): (found: seq<(nat, nat)>)
    ensures forall q :: q in found <==> q.0 == r && q.1 < cols && mask(r, q.1)
    ensures Distinct(found) && RowMajor(found)
  {
    if cols == 0 then []
    else
      var before := WhereInRow(mask, r, cols - 1);
      if mask(r, cols - 1) then before + [(r, cols - 1)] else before
  }

  /** The positions of the mask in row-major order. */
  function Where(mask: (nat, nat) -> bool, rows: nat, cols: nat): (found: seq<(nat, nat)>)
    ensures forall q :: q in found <==> q.0 < rows && q.1 < cols && mask(q.0, q.1)
    ensures Distinct(found) && RowMajor(found)
  {
    if rows == 0 then [] else Where(mask, rows - 1, cols) + WhereInRow(mask, rows - 1, cols)
  }

  /** Every choice of expert e, once, as (token, choice). */
  ghost predicate ChoicesOf(L: Layer, e: nat, pairs: seq<(nat, nat)>) {
    && Distinct(pairs)
    && (forall q :: q in pairs <==> q.0 < L.Tokens() && q.1 < L.topK && L.Routed(e, q.0, q.1))
  }

  // ----- Regrouping the choices by expert

  lemma {:induction false} AmongNext(L: Layer, pairs: seq<(nat, nat)>, q: (nat, nat), t: nat, c: nat, n: nat)
    requires L.Valid() && t < L.Tokens() && c < L.width && n <= L.topK && q !in pairs && q.1 < L.topK
    ensures L.Among(pairs + [q], t, c, n)
         == L.Among(pairs, t, c, n) + if q.0 == t && q.1 < n then L.Term(t, q.1, c) else 0.0
  {
    if n > 0 {
      AmongNext(L, pairs, q, t, c, n - 1);
      assert (t, n - 1) in pairs + [q] <==> (t, n - 1) in pairs || (t, n - 1) == q;
    }
  }

  lemma {:induction false} AmongChoices(L: Layer, e: nat, pairs: seq<(nat, nat)>, t: nat, c: nat, n: nat)
    requires L.Valid() && t < L.Tokens() && c < L.width && n <= L.topK && ChoicesOf(L, e, pairs)
    ensures L.Before(e, t, c, n) + L.Among(pairs, t, c, n) == L.Before(e + 1, t, c, n)
  {
    if n > 0 {
      AmongChoices(L, e, pairs, t, c, n - 1);
      assert (t, n - 1) in pairs <==> L.Routed(e, t, n - 1);
    }
  }

  lemma {:induction false} NoExperts(L: Layer, t: nat, c: nat, n: nat)
    requires L.Valid() && t < L.Tokens() && c < L.width && n <= L.topK
    ensures L.Before(0, t, c, n) == 0.0
  {
    if n > 0 {
      NoExperts(L, t, c, n - 1);
    }
  }

  lemma {:induction false} AllExperts(L: Layer, t: nat, c: nat, n: nat)
    requires L.Valid() && t < L.Tokens() && c < L.width && n <= L.topK
    ensures L.Before(|L.experts|, t, c, n) == L.Mixture(t, c, n)
  {
    if n > 0 {
      AllExperts(L, t, c, n - 1);
    }
  }

  lemma {:induction false} AmongNothing(L: Layer, t: nat, c: nat, n: nat)
    requires L.Valid() && t < L.Tokens() && c < L.width && n <= L.topK
    ensures L.Among([], t, c, n) == 0.0
  {
    if n > 0 {
      AmongNothing(L, t, c, n - 1);
    }
  }

  // ----- Gathering and scattering

  function Gather(m: Matrix, indices: seq<(nat, nat)>): (g: Matrix)
    requires forall q :: q in indices ==> q.0 < |m|
    ensures |g| == |indices| && forall p :: 0 <= p < |g| ==> g[p] == m[indices[p].0]
  {
    seq(|indices|, p requires 0 <= p < |indices| => assert indices[p] in indices; m[indices[p].0])
  }

  function Forward(expert: Row -> Row, rows: Matrix): (out: Matrix)
    ensures |out| == |rows| && forall r :: 0 <= r < |out| ==> out[r] == expert(rows[r])
  {
    seq(|rows|, r requires 0 <= r < |rows| => expert(rows[r]))
  }

  /** The running output holds what the experts before e contribute. */
  ghost predicate Holds(L: Layer, final: array2<real>, e: nat)
    requires L.Valid() && final.Length0 == L.Tokens() && final.Length1 == L.width
    reads final
  {
    forall t, c :: 0 <= t < L.Tokens() && 0 <= c < L.width ==> final[t, c] == L.Before(e, t, c, L.topK)
  }

  /** final.index_add_(0, token_indices, expert_output * expert_weights) */
  method AddRouted(L: Layer, e: nat, pairs: seq<(nat, nat)>, output: Matrix, final: array2<real>)
    requires L.Valid() && e < |L.experts| && ChoicesOf(L, e, pairs)
    requires final.Length0 == L.Tokens() && final.Length1 == L.width && Holds(L, final, e)
    requires |output| == |pairs|
    requires forall p :: 0 <= p < |pairs| ==>
               pairs[p].0 < L.Tokens() && output[p] == L.experts[e](L.hidden[pairs[p].0])
    modifies final
    ensures Holds(L, final, e + 1)
  {
    forall t: nat, c: nat | t < L.Tokens() && c < L.width
      ensures L.Among([], t, c, L.topK) == 0.0
    {
      AmongNothing(L, t, c, L.topK);
    }
    assert pairs[..0] == [];
    for p := 0 to |pairs|
      invariant forall t: nat, c: nat :: t < L.Tokens() && c < L.width ==>
                  final[t, c] == L.Before(e, t, c, L.topK) + L.Among(pairs[..p], t, c, L.topK)
    {
      AddRow(L, e, pairs, p, output[p], final);
    }
    assert pairs[..|pairs|] == pairs;
    forall t: nat, c: nat | t < L.Tokens() && c < L.width
      ensures final[t, c] == L.Before(e + 1, t, c, L.topK)
    {
      AmongChoices(L, e, pairs, t, c, L.topK);
    }
  }

  method AddRow(L: Layer, e: nat, pairs: seq<(nat, nat)>, p: nat, row: Row, final: array2<real>)
    requires L.Valid() && e < |L.experts| && ChoicesOf(L, e, pairs) && p < |pairs|
    requires final.Length0 == L.Tokens() && final.Length1 == L.width
    requires pairs[p].0 < L.Tokens() && row == L.experts[e](L.hidden[pairs[p].0])
    requires forall t: nat, c: nat :: t < L.Tokens() && c < L.width ==>
               final[t, c] == L.Before(e, t, c, L.topK) + L.Among(pairs[..p], t, c, L.topK)
    modifies final
    ensures forall t: nat, c: nat :: t < L.Tokens() && c < L.width ==>
              final[t, c] == L.Before(e, t, c, L.topK) + L.Among(pairs[..p + 1], t, c, L.topK)
  {
    var (token, k) := pairs[p];
    assert pairs[p] in pairs;
    for c := 0 to L.width
      invariant forall t: nat, d: nat :: t < L.Tokens() && d < L.width ==>
                  final[t, d] == old(final[t, d]) + if t == token && d < c then L.Term(token, k, d) else 0.0
    {
      final[token, c] := final[token, c] + Times(L.weights[token][k], row[c]);
    }
    assert pairs[..p + 1] == pairs[..p] + [pairs[p]];
    forall t: nat, c: nat | t < L.Tokens() && c < L.width
      ensures final[t, c] == L.Before(e, t, c, L.topK) + L.Among(pairs[..p + 1], t, c, L.topK)
    {
      AmongNext(L, pairs[..p], pairs[p], t, c, L.topK);
    }
  }

  /** An expert that no token is routed to contributes nothing. */
  lemma {:induction false} NothingRouted(L: Layer, e: nat, final: array2<real>)
    requires L.Valid() && ChoicesOf(L, e, [])
    requires final.Length0 == L.Tokens() && final.Length1 == L.width && Holds(L, final, e)
    ensures Holds(L, final, e + 1)
  {
    forall t: nat, c: nat | t < L.Tokens() && c < L.width
      ensures final[t, c] == L.Before(e + 1, t, c, L.topK)
    {
      AmongNothing(L, t, c, L.topK);
      AmongChoices(L, e, [], t, c, L.topK);
    }
  }

  /** torch.where(expert_mask[e]) of the mask permuted to (experts, tokens, choices): the tokens of the expert in order. */
  function TokensThenChoices(L: Layer, e: nat): (pairs: seq<(nat, nat)>)
    requires L.Valid()
    ensures ChoicesOf(L, e, pairs) && forall q :: q in pairs ==> q.0 < |L.hidden|
    ensures RowMajor(pairs)
  {
    Where((t: nat, k: nat) => L.Routed(e, t, k), L.Tokens(), L.topK)
  }

  /** The rows of the output matrix. */
  method Rows(L: Layer, final: array2<real>) returns (m: Matrix)
    requires final.Length0 == L.Tokens() && final.Length1 == L.width
    ensures Shaped(m, L.Tokens(), L.width)
    ensures forall t, c :: 0 <= t < L.Tokens() && 0 <= c < L.width ==> m[t][c] == final[t, c]
  {
    m := [];
    for t := 0 to L.Tokens()
      invariant Shaped(m, t, L.width)
      invariant forall r, c :: 0 <= r < t && 0 <= c < L.width ==> m[r][c] == final[r, c]
    {
      var row := [];
      for c := 0 to L.width
        invariant |row| == c && forall d :: 0 <= d < c ==> row[d] == final[t, d]
      {
        row := row + [final[t, c]];
      }
      m := m + [row];
    }
  }

  /** What each expert was called with, if it was called. */
  type Calls = seq<Option<Matrix>>

  /** Calibrating all experts shows every one of them every token. */
  ghost predicate SawAllTokens(L: Layer, calls: Calls) {
    |calls| == |L.experts| && forall e :: 0 <= e < |calls| ==> calls[e] == Some(L.hidden)
  }

  /** Otherwise an expert is called only if it has tokens, with those. */
  ghost predicate SawOwnTokens(L: Layer, calls: Calls)
    requires L.Valid()
  {
    |calls| == |L.experts| && forall e :: 0 <= e < |calls| ==> calls[e] == OwnTokens(L, e)
  }

  ghost function OwnTokens(L: Layer, e: nat): Option<Matrix>
    requires L.Valid()
  {
    if TokensThenChoices(L, e) == [] then None else Some(Gather(L.hidden, TokensThenChoices(L, e)))
  }

  /** The mixture plus what the shared experts make of the layer's input. */
  ghost predicate IsMixture(L: Layer, extra: Matrix, out: Matrix)
    requires L.Valid() && Shaped(extra, L.Tokens(), L.width)
  {
    && Shaped(out, L.Tokens(), L.width)
    && forall t, c :: 0 <= t < L.Tokens() && 0 <= c < L.width ==>
         out[t][c] == L.Mixture(t, c, L.topK) + extra[t][c]
  }

  /** There is one such output, so calibrating all experts does not change what the layer computes. */
  lemma {:induction false} MixtureIsUnique(L: Layer, extra: Matrix, a: Matrix, b: Matrix)
    requires L.Valid() && Shaped(extra, L.Tokens(), L.width) && IsMixture(L, extra, a) && IsMixture(L, extra, b)
    ensures a == b
  {
    forall t | 0 <= t < L.Tokens()
      ensures a[t] == b[t]
    {
    }
  }

  method AddMatrices(L: Layer, a: Matrix, b: Matrix) returns (sum: Matrix)
    requires Shaped(a, L.Tokens(), L.width) && Shaped(b, L.Tokens(), L.width)
    ensures Shaped(sum, L.Tokens(), L.width)
    ensures forall t, c :: 0 <= t < L.Tokens() && 0 <= c < L.width ==> sum[t][c] == a[t][c] + b[t][c]
  {
    sum := seq(L.Tokens(), t requires 0 <= t < L.Tokens() => seq(L.width, c requires 0 <= c < L.width => a[t][c] + b[t][c]));
  }

  method Finish(L: Layer, final: array2<real>, extra: Matrix) returns (out: Matrix)
    requires L.Valid() && Shaped(extra, L.Tokens(), L.width)
    requires final.Length0 == L.Tokens() && final.Length1 == L.width && Holds(L, final, |L.experts|)
    ensures IsMixture(L, extra, out)
  {
    var rows := Rows(L, final);
    out := AddMatrices(L, rows, extra);
    forall t: nat, c: nat | t < L.Tokens() && c < L.width
      ensures out[t][c] == L.Mixture(t, c, L.topK) + extra[t][c]
    {
      AllExperts(L, t, c, L.topK);
    }
  }

  method Zeros(L: Layer) returns (final: array2<real>)
    requires L.Valid()
    ensures fresh(final) && final.Length0 == L.Tokens() && final.Length1 == L.width && Holds(L, final, 0)
  {
    final := new real[L.Tokens(), L.width]((t, c) => 0.0);
    forall t: nat, c: nat | t < L.Tokens() && c < L.width
      ensures final[t, c] == L.Before(0, t, c, L.topK)
    {
      NoExperts(L, t, c, L.topK);
    }
  }

  // ----- The three forward passes

  method DeepseekV3Forward(L: Layer, calibrateAllExperts: bool, shared: Matrix -> Matrix) returns (out: Matrix,
                           calls: Calls)
    requires L.Valid() && Shaped(shared(L.hidden), L.Tokens(), L.width)
    ensures IsMixture(L, shared(L.hidden), out)
    ensures if calibrateAllExperts then SawAllTokens(L, calls) else SawOwnTokens(L, calls)
  {
    hide IsMixture, IsMixtureAlone, Holds, ChoicesOf, TokensThenChoices, ChoicesThenTokens, Where, RowMajor, Layer.Valid,
      Layer.Before;
    var final := Zeros(L);
    calls := [];
    for e := 0 to |L.experts|
      invariant Holds(L, final, e) && |calls| == e
      invariant forall d :: 0 <= d < e ==> if calibrateAllExperts then calls[d] == Some(L.hidden) else calls[d] == OwnTokens(L, d)
    {
      var expert, pairs := L.experts[e], TokensThenChoices(L, e);
      var hasTokens := |pairs| > 0;
      if calibrateAllExperts {
        var expertOutput := Forward(expert, L.hidden);
        calls := calls + [Some(L.hidden)];
        if hasTokens {
          AddRouted(L, e, pairs, Gather(expertOutput, pairs), final);
        } else {
          NothingRouted(L, e, final);
        }
      } else {
        if hasTokens {
          var expertInput := Gather(L.hidden, pairs);
          calls := calls + [Some(expertInput)];
          AddRouted(L, e, pairs, Forward(expert, expertInput), final);
        } else {
          calls := calls + [None];
          NothingRouted(L, e, final);
        }
      }
    }
    out := Finish(L, final, shared(L.hidden));
  }

  method Glm4MoeForward(L: Layer, calibrateAllExperts: bool, shared: Matrix -> Matrix) returns (out: Matrix,
                        calls: Calls)
    requires L.Valid() && Shaped(shared(L.hidden), L.Tokens(), L.width)
    ensures IsMixture(L, shared(L.hidden), out)
    ensures if calibrateAllExperts then SawAllTokens(L, calls) else SawOwnTokens(L, calls)
  {
    hide IsMixture, IsMixtureAlone, Holds, ChoicesOf, TokensThenChoices, ChoicesThenTokens, Where, RowMajor, Layer.Valid,
      Layer.Before;
    var final := Zeros(L);
    calls := [];
    for e := 0 to |L.experts|
      invariant Holds(L, final, e) && |calls| == e
      invariant forall d :: 0 <= d < e ==> if calibrateAllExperts then calls[d] == Some(L.hidden) else calls[d] == OwnTokens(L, d)
    {
      var expert, pairs := L.experts[e], TokensThenChoices(L, e);
      var hasTokens := |pairs| > 0;
      var expertOutput;
      if calibrateAllExperts {
        var expertOutputFull := Forward(expert, L.hidden);
        calls := calls + [Some(L.hidden)];
        if !hasTokens {
          NothingRouted(L, e, final);
          continue;
        }
        expertOutput := Gather(expertOutputFull, pairs);
      } else {
        if !hasTokens {
          calls := calls + [None];
          NothingRouted(L, e, final);
          continue;
        }
        expertOutput := Forward(expert, Gather(L.hidden, pairs));
        calls := calls + [Some(Gather(L.hidden, pairs))];
      }
      AddRouted(L, e, pairs, expertOutput, final);
    }
    out := Finish(L, final, shared(L.hidden));
  }

  // ----- Qwen3: the mask is transposed, and an expert without tokens is called too

  function Swap(pairs: seq<(nat, nat)>): (swapped: seq<(nat, nat)>)
    ensures |swapped| == |pairs| && forall p :: 0 <= p < |pairs| ==> swapped[p] == (pairs[p].1, pairs[p].0)
  {
    seq(|pairs|, p requires 0 <= p < |pairs| => (pairs[p].1, pairs[p].0))
  }

  /** torch.where(expert_mask[e]) of the mask permuted to (experts, choices, tokens): first choices first. */
  function ChoicesThenTokens(L: Layer, e: nat): (pairs: seq<(nat, nat)>)
    requires L.Valid()
    ensures ChoicesOf(L, e, pairs) && forall q :: q in pairs ==> q.0 < |L.hidden|
    ensures RowMajor(Swap(pairs))
  {
    var found := Where((k: nat, t: nat) => L.Routed(e, t, k), L.topK, L.Tokens());
    assert forall q: (nat, nat) :: q in Swap(found) <==> (q.1, q.0) in found by {
      forall q: (nat, nat) | (q.1, q.0) in found
        ensures q in Swap(found)
      {
        var p :| 0 <= p < |found| && found[p] == (q.1, q.0);
        assert Swap(found)[p] == q;
      }
    }
    assert Swap(Swap(found)) == found;
    Swap(found)
  }

  ghost predicate SawChosenTokens(L: Layer, calls: Calls)
    requires L.Valid()
  {
    |calls| == |L.experts| && forall e :: 0 <= e < |calls| ==> calls[e] == Some(Gather(L.hidden, ChoicesThenTokens(L, e)))
  }

  ghost predicate IsMixtureAlone(L: Layer, out: Matrix)
    requires L.Valid()
  {
    && Shaped(out, L.Tokens(), L.width)
    && forall t, c :: 0 <= t < L.Tokens() && 0 <= c < L.width ==>
         out[t][c] == L.Mixture(t, c, L.topK)
  }

  /** Fails with one choice per token: squeezing the mask then leaves one dimension, and where gives one index. */
  method Qwen3MoeForward(L: Layer, calibrateAllExperts: bool) returns (out: Option<Matrix>, calls: Calls)
    requires L.Valid()
    ensures out.None? <==> L.topK == 1 && |L.experts| > 0
    ensures out.Some? ==>
              && IsMixtureAlone(L, out.value)
              && if calibrateAllExperts then SawAllTokens(L, calls) else SawChosenTokens(L, calls)
  {
    hide IsMixture, IsMixtureAlone, Holds, ChoicesOf, TokensThenChoices, ChoicesThenTokens, Where, RowMajor, Layer.Valid,
      Layer.Before;
    var final := Zeros(L);
    calls := [];
    for e := 0 to |L.experts|
      invariant Holds(L, final, e) && |calls| == e && (L.topK == 1 ==> e == 0)
      invariant forall d :: 0 <= d < e ==>
                  calls[d] == Some(if calibrateAllExperts then L.hidden else Gather(L.hidden, ChoicesThenTokens(L, d)))
    {
      if L.topK == 1 {
        return None, calls;
      }
      var expert, pairs := L.experts[e], ChoicesThenTokens(L, e);
      var expertOut;
      if calibrateAllExperts {
        expertOut := Gather(Forward(expert, L.hidden), pairs);
        calls := calls + [Some(L.hidden)];
      } else {
        expertOut := Forward(expert, Gather(L.hidden, pairs));
        calls := calls + [Some(Gather(L.hidden, pairs))];
      }
      if |pairs| > 0 {
        AddRouted(L, e, pairs, expertOut, final);
      } else {
        NothingRouted(L, e, final);
      }
    }
    var rows := FinishAlone(L, final);
    out := Some(rows);
  }

  method FinishAlone(L: Layer, final: array2<real>) returns (rows: Matrix)
    requires L.Valid() && final.Length0 == L.Tokens() && final.Length1 == L.width && Holds(L, final, |L.experts|)
    ensures IsMixtureAlone(L, rows)
  {
    rows := Rows(L, final);
    forall t: nat, c: nat | t < L.Tokens() && c < L.width
      ensures rows[t][c] == L.Mixture(t, c, L.topK)
    {
      AllExperts(L, t, c, L.topK);
    }
  }
}
