/**
  The work splitter of distributed GPTQ: items are sorted by descending weight, then each one goes to the
  bin that is lightest so far. Graham's bounds on the heaviest bin are proved against every other assignment.
  */
module BinPacking {
  import opened Collections
  import opened Sums

  // ----- Python's list.sort(key=weight, reverse=True), which is stable

  function InsertDescending<T>(s: seq<T>, x: T, weight: T -> real): seq<T> {
    if s == [] || weight(s[|s| - 1]) >= weight(x) then s + [x]
    else InsertDescending(s[..|s| - 1], x, weight) + [s[|s| - 1]]
  }

  function SortDescending<T>(s: seq<T>, weight: T -> real): seq<T> {
    if s == [] then [] else InsertDescending(SortDescending(s[..|s| - 1], weight), s[|s| - 1], weight)
  }

  function Weights<T>(s: seq<T>, weight: T -> real): (w: seq<real>)
    ensures |w| == |s| && forall i :: 0 <= i < |s| ==> w[i] == weight(s[i])
  {
    seq(|s|, i requires 0 <= i < |s| => weight(s[i]))
  }

  ghost predicate Descending(w: seq<real>) {
    forall i, j :: 0 <= i <= j < |w| ==> w[i] >= w[j]
  }

  lemma {:induction false} InsertDescendingRearranges<T>(s: seq<T>, x: T, weight: T -> real)
    ensures multiset(InsertDescending(s, x, weight)) == multiset(s) + multiset{x}
  {
    if !(s == [] || weight(s[|s| - 1]) >= weight(x)) {
      InsertDescendingRearranges(s[..|s| - 1], x, weight);
      assert s == s[..|s| - 1] + [s[|s| - 1]];
    }
  }

  ghost predicate SortedDescending<T>(s: seq<T>, weight: T -> real) {
    forall i, j :: 0 <= i <= j < |s| ==> weight(s[i]) >= weight(s[j])
  }

  lemma {:induction false} InsertDescendingSorts<T>(s: seq<T>, x: T, weight: T -> real)
    requires SortedDescending(s, weight)
    ensures SortedDescending(InsertDescending(s, x, weight), weight)
    ensures forall y :: y in InsertDescending(s, x, weight) ==> y in s || y == x
  {
    if !(s == [] || weight(s[|s| - 1]) >= weight(x)) {
      var last := s[|s| - 1];
      InsertDescendingSorts(s[..|s| - 1], x, weight);
      forall y | y in InsertDescending(s[..|s| - 1], x, weight)
        ensures weight(y) >= weight(last)
      {
        if y in s[..|s| - 1] {
          var k :| 0 <= k < |s| - 1 && s[k] == y;
          assert weight(s[k]) >= weight(s[|s| - 1]);
        }
      }
    }
  }

  /** Sorting only rearranges the items, and leaves them by descending weight. */
  lemma {:induction false} SortDescendingSorts<T>(s: seq<T>, weight: T -> real)
    ensures multiset(SortDescending(s, weight)) == multiset(s)
    ensures SortedDescending(SortDescending(s, weight), weight)
  {
    if s != [] {
      SortDescendingSorts(s[..|s| - 1], weight);
      InsertDescendingRearranges(SortDescending(s[..|s| - 1], weight), s[|s| - 1], weight);
      InsertDescendingSorts(SortDescending(s[..|s| - 1], weight), s[|s| - 1], weight);
      assert s == s[..|s| - 1] + [s[|s| - 1]];
    }
  }

  /** The items of one weight, in the order of the sequence. */
  function OfWeight<T>(s: seq<T>, weight: T -> real, w: real): seq<T> {
    if s == [] then []
    else OfWeight(s[..|s| - 1], weight, w) + if weight(s[|s| - 1]) == w then [s[|s| - 1]] else []
  }

  lemma {:induction false} OfWeightAppend<T>(s: seq<T>, x: T, weight: T -> real, w: real)
    ensures OfWeight(s + [x], weight, w) == OfWeight(s, weight, w) + if weight(x) == w then [x] else []
  {
    assert (s + [x])[..|s|] == s;
  }

  lemma {:induction false} InsertIsStable<T>(s: seq<T>, x: T, weight: T -> real, w: real)
    ensures OfWeight(InsertDescending(s, x, weight), weight, w) == OfWeight(s + [x], weight, w)
  {
    OfWeightAppend(s, x, weight, w);
    if !(s == [] || weight(s[|s| - 1]) >= weight(x)) {
      var front, last := s[..|s| - 1], s[|s| - 1];
      InsertIsStable(front, x, weight, w);
      OfWeightAppend(front, x, weight, w);
      OfWeightAppend(InsertDescending(front, x, weight), last, weight, w);
    }
  }

  /** Sorting is stable: items of equal weight stay in the order they had. */
  lemma {:induction false} SortIsStable<T>(s: seq<T>, weight: T -> real, w: real)
    ensures OfWeight(SortDescending(s, weight), weight, w) == OfWeight(s, weight, w)
  {
    if s != [] {
      var front, last := s[..|s| - 1], s[|s| - 1];
      SortIsStable(front, weight, w);
      InsertIsStable(SortDescending(front, weight), last, weight, w);
      OfWeightAppend(SortDescending(front, weight), last, weight, w);
    }
  }

  lemma {:induction false} OfWeightHas<T>(s: seq<T>, weight: T -> real, w: real)
    ensures OfWeight(s, weight, w) != [] <==> exists i :: 0 <= i < |s| && weight(s[i]) == w
  {
    if s != [] {
      var n := |s| - 1;
      OfWeightHas(s[..n], weight, w);
      if i :| 0 <= i < n && weight(s[..n][i]) == w {
        assert weight(s[i]) == w;
      }
      if i :| 0 <= i < n && weight(s[i]) == w {
        assert weight(s[..n][i]) == w;
      }
    }
  }

  ghost predicate SameOfEachWeight<T>(s: seq<T>, t: seq<T>, weight: T -> real) {
    forall w: real :: OfWeight(s, weight, w) == OfWeight(t, weight, w)
  }

  lemma {:induction false} LastWeightAtMost<T>(s: seq<T>, t: seq<T>, weight: T -> real)
    requires SortedDescending(t, weight) && SameOfEachWeight(s, t, weight) && s != []
    ensures t != [] && weight(t[|t| - 1]) <= weight(s[|s| - 1])
  {
    var w := weight(s[|s| - 1]);
    OfWeightHas(s, weight, w);
    OfWeightHas(t, weight, w);
    var i :| 0 <= i < |t| && weight(t[i]) == w;
  }

  lemma {:induction false} AppendCancels<T>(s: seq<T>, x: T, t: seq<T>, y: T)
    requires s + [x] == t + [y]
    ensures s == t && x == y
  {
    assert |s| == |t| && (s + [x])[..|s|] == s && (t + [y])[..|s|] == t;
    assert (s + [x])[|s|] == x && (t + [y])[|s|] == y;
  }

  lemma {:induction false} LastIsSame<T>(s: seq<T>, x: T, t: seq<T>, y: T, weight: T -> real)
    requires weight(x) == weight(y) && SameOfEachWeight(s + [x], t + [y], weight)
    ensures x == y && SameOfEachWeight(s, t, weight)
  {
    hide OfWeight;
    forall w: real
      ensures OfWeight(s, weight, w) == OfWeight(t, weight, w) && (weight(x) == w ==> x == y)
    {
      OfWeightAppend(s, x, weight, w);
      OfWeightAppend(t, y, weight, w);
      var before, after := OfWeight(s, weight, w), OfWeight(t, weight, w);
      assert OfWeight(s + [x], weight, w) == OfWeight(t + [y], weight, w);
      if weight(x) == w {
        AppendCancels(before, x, after, y);
      } else {
        assert before + [] == before && after + [] == after;
      }
    }
    assert OfWeight(s, weight, weight(x)) == OfWeight(t, weight, weight(x));
  }

  /** There is one such order: descending, with items of equal weight as they were. */
  lemma {:induction false} StableOrderIsUnique<T>(s: seq<T>, t: seq<T>, weight: T -> real)
    requires SortedDescending(s, weight) && SortedDescending(t, weight) && SameOfEachWeight(s, t, weight)
    ensures s == t
    decreases |s|
  {
    if s == [] {
      if t != [] {
        LastWeightAtMost(t, s, weight);
      }
    } else {
      LastWeightAtMost(s, t, weight);
      LastWeightAtMost(t, s, weight);
      var front, before, x, y := s[..|s| - 1], t[..|t| - 1], s[|s| - 1], t[|t| - 1];
      assert s == front + [x] && t == before + [y];
      LastIsSame(front, x, before, y, weight);
      StableOrderIsUnique(front, before, weight);
    }
  }

  /** Items of one weight are left as they are. */
  lemma {:induction false} EqualWeightsStay<T>(s: seq<T>, weight: T -> real)
    requires forall i, j :: 0 <= i < |s| && 0 <= j < |s| ==> weight(s[i]) == weight(s[j])
    ensures SortDescending(s, weight) == s
  {
    SortDescendingSorts(s, weight);
    forall w: real
      ensures OfWeight(SortDescending(s, weight), weight, w) == OfWeight(s, weight, w)
    {
      SortIsStable(s, weight, w);
    }
    StableOrderIsUnique(SortDescending(s, weight), s, weight);
  }

  // ----- Loads

  /** The weight that assignment a puts into bin b. */
  function BinLoad(w: seq<real>, a: seq<nat>, b: nat): real
    requires |w| == |a|
  {
    if w == [] then 0.0
    else BinLoad(w[..|w| - 1], a[..|w| - 1], b) + (if a[|w| - 1] == b then w[|w| - 1] else 0.0)
  }

  ghost function LoadOfFirstBins(w: seq<real>, a: seq<nat>, k: nat): real
    requires |w| == |a|
  {
    if k == 0 then 0.0 else LoadOfFirstBins(w, a, k - 1) + BinLoad(w, a, k - 1)
  }

  ghost predicate IsAssignment(w: seq<real>, a: seq<nat>, m: nat) {
    |a| == |w| && forall i :: 0 <= i < |a| ==> a[i] < m
  }

  ghost predicate LoadsAtMost(w: seq<real>, a: seq<nat>, m: nat, bound: real)
    requires |w| == |a|
  {
    forall b: nat :: b < m ==> BinLoad(w, a, b) <= bound
  }

  // ----- The greedy choice

  /** The first position holding the least value: bin_weights.index(min(bin_weights)). */
  function FirstMinimum(loads: seq<real>): (t: nat)
    requires loads != []
    ensures t < |loads|
    ensures forall b :: 0 <= b < |loads| ==> loads[t] <= loads[b]
    ensures forall b :: 0 <= b < t ==> loads[t] < loads[b]
  {
    if |loads| == 1 then 0
    else
      var t := FirstMinimum(loads[..|loads| - 1]);
      if loads[|loads| - 1] < loads[t] then |loads| - 1 else t
  }

  function Loads(w: seq<real>, a: seq<nat>, m: nat): (loads: seq<real>)
    requires |w| == |a|
    ensures |loads| == m && forall b: nat :: b < m ==> loads[b] == BinLoad(w, a, b)
  {
    seq(m, b requires 0 <= b < m => BinLoad(w, a, b))
  }

  /** The bin of each item, in list order. */
  function Greedy(w: seq<real>, m: nat): (a: seq<nat>)
    requires m >= 1 || w == []
    ensures |a| == |w| && forall i :: 0 <= i < |a| ==> a[i] < m
  {
    if w == [] then []
    else
      var rest := w[..|w| - 1];
      var a := Greedy(rest, m);
      a + [FirstMinimum(Loads(rest, a, m))]
  }

  /** The items that assignment a puts into bin b, in list order. */
  function ItemsOfBin<T>(s: seq<T>, a: seq<nat>, b: nat): seq<T>
    requires |s| == |a|
  {
    if s == [] then []
    else ItemsOfBin(s[..|s| - 1], a[..|s| - 1], b) + (if a[|s| - 1] == b then [s[|s| - 1]] else [])
  }

  /** The bin an item is recorded under: the one of its last occurrence. */
  function BinOfItem<T(==)>(s: seq<T>, a: seq<nat>): (r: map<T, nat>)
    requires |s| == |a|
    ensures r.Keys == set x | x in s
  {
    if s == [] then map[]
    else
      assert s == s[..|s| - 1] + [s[|s| - 1]];
      BinOfItem(s[..|s| - 1], a[..|s| - 1])[s[|s| - 1] := a[|s| - 1]]
  }

  /** The packer's three tables describe assignment a of the items s. */
  ghost predicate Packed<T>(s: seq<T>, w: seq<real>, a: seq<nat>, m: nat,
                            binToItems: seq<seq<T>>, itemToBin: map<T, nat>, binWeights: seq<real>)
    requires |s| == |w| == |a|
  {
    && |binToItems| == |binWeights| == m
    && (forall b: nat :: b < m ==> binWeights[b] == BinLoad(w, a, b))
    && (forall b: nat :: b < m ==> binToItems[b] == ItemsOfBin(s, a, b))
    && itemToBin == BinOfItem(s, a)
  }

  lemma {:induction false} PackOne<T>(s: seq<T>, w: seq<real>, a: seq<nat>, m: nat,
                   binToItems: seq<seq<T>>, itemToBin: map<T, nat>, binWeights: seq<real>, x: T, wx: real, t: nat)
    requires |s| == |w| == |a| && t < m
    requires Packed(s, w, a, m, binToItems, itemToBin, binWeights)
    ensures Packed(s + [x], w + [wx], a + [t], m,
                   binToItems[t := binToItems[t] + [x]], itemToBin[x := t], binWeights[t := binWeights[t] + wx])
  {
    assert (s + [x])[..|s|] == s && (w + [wx])[..|s|] == w && (a + [t])[..|s|] == a;
    forall b: nat | b < m
      ensures BinLoad(w + [wx], a + [t], b) == BinLoad(w, a, b) + (if t == b then wx else 0.0)
      ensures ItemsOfBin(s + [x], a + [t], b) == ItemsOfBin(s, a, b) + (if t == b then [x] else [])
    {
    }
  }

  lemma {:induction false} PrefixGrows<T>(s: seq<T>, i: nat)
    requires i < |s|
    ensures s[..i + 1] == s[..i] + [s[i]]
  {
  }

  lemma {:induction false} PackNext<T>(s: seq<T>, w: seq<real>, m: nat, i: nat,
                    binToItems: seq<seq<T>>, itemToBin: map<T, nat>, binWeights: seq<real>)
    requires m >= 1 && |s| == |w| && i < |s|
    requires Packed(s[..i], w[..i], Greedy(w[..i], m), m, binToItems, itemToBin, binWeights)
    ensures var t := FirstMinimum(binWeights);
            Packed(s[..i + 1], w[..i + 1], Greedy(w[..i + 1], m), m,
                   binToItems[t := binToItems[t] + [s[i]]], itemToBin[s[i] := t], binWeights[t := binWeights[t] + w[i]])
  {
    var a, t := Greedy(w[..i], m), FirstMinimum(binWeights);
    assert binWeights == Loads(w[..i], a, m);
    PackOne(s[..i], w[..i], a, m, binToItems, itemToBin, binWeights, s[i], w[i], t);
    PrefixGrows(w, i);
    PrefixGrows(s, i);
    assert w[..i + 1][..i] == w[..i];
  }

  method GreedyBinPacking<T(==)>(items: array<T>, numBins: nat, weight: T -> real)
    returns (binToItems: seq<seq<T>>, itemToBin: map<T, nat>)
    requires numBins >= 1 || items.Length == 0
    modifies items
    ensures items[..] == SortDescending(old(items[..]), weight)
    ensures var a := Greedy(Weights(items[..], weight), numBins);
            && |binToItems| == numBins
            && (forall b: nat :: b < numBins ==> binToItems[b] == ItemsOfBin(items[..], a, b))
            && itemToBin == BinOfItem(items[..], a)
  {
    SortItems(items, weight);
    ghost var w := Weights(items[..], weight);
    ghost var binWeights;
    binToItems, itemToBin, binWeights := PackItems(items, numBins, weight, w);
    PackedMeans(items[..], w, Greedy(w, numBins), numBins, binToItems, itemToBin, binWeights);
  }

  /** The loop over the sorted items: each goes to the lightest bin. */
  method PackItems<T(==)>(items: array<T>, numBins: nat, weight: T -> real, ghost w: seq<real>)
    returns (binToItems: seq<seq<T>>, itemToBin: map<T, nat>, binWeights: seq<real>)
    requires (numBins >= 1 || items.Length == 0) && w == Weights(items[..], weight)
    ensures Packed(items[..], w, Greedy(w, numBins), numBins, binToItems, itemToBin, binWeights)
  {
    ghost var sorted := items[..];
    binToItems := seq(numBins, _ => []);
    itemToBin := map[];
    binWeights := seq(numBins, _ => 0.0);
    PackNone(sorted, w, numBins, binToItems, binWeights);
    for i := 0 to items.Length
      invariant Packed(sorted[..i], w[..i], Greedy(w[..i], numBins), numBins, binToItems, itemToBin, binWeights)
    {
      binToItems, itemToBin, binWeights := PackItem(items[i], weight, binToItems, itemToBin, binWeights, sorted, w, i, numBins);
    }
    assert w[..items.Length] == w && sorted[..items.Length] == sorted;
  }

  /** One item goes to the lightest bin. */
  method PackItem<T(==)>(item: T, weight: T -> real, binToItems: seq<seq<T>>, itemToBin: map<T, nat>,
                    binWeights: seq<real>,
                         ghost sorted: seq<T>, ghost w: seq<real>, ghost i: nat, numBins: nat)
    returns (binToItems': seq<seq<T>>, itemToBin': map<T, nat>, binWeights': seq<real>)
    requires numBins >= 1 && |sorted| == |w| && i < |sorted| && item == sorted[i] && weight(item) == w[i]
    requires Packed(sorted[..i], w[..i], Greedy(w[..i], numBins), numBins, binToItems, itemToBin, binWeights)
    ensures Packed(sorted[..i + 1], w[..i + 1], Greedy(w[..i + 1], numBins), numBins, binToItems', itemToBin', binWeights')
  {
    PackNext(sorted, w, numBins, i, binToItems, itemToBin, binWeights);
    var targetBin := FirstMinimum(binWeights);
    binToItems' := binToItems[targetBin := binToItems[targetBin] + [item]];
    itemToBin' := itemToBin[item := targetBin];
    binWeights' := binWeights[targetBin := binWeights[targetBin] + weight(item)];
  }

  lemma {:induction false} PackNone<T>(s: seq<T>, w: seq<real>, m: nat, binToItems: seq<seq<T>>, binWeights: seq<real>)
    requires |s| == |w| && (m >= 1 || s == [])
    requires |binToItems| == |binWeights| == m
    requires forall b :: 0 <= b < m ==> binToItems[b] == [] && binWeights[b] == 0.0
    ensures Packed(s[..0], w[..0], Greedy(w[..0], m), m, binToItems, map[], binWeights)
  {
  }

  lemma {:induction false} PackedMeans<T>(s: seq<T>, w: seq<real>, a: seq<nat>, m: nat,
                                          binToItems: seq<seq<T>>, itemToBin: map<T, nat>, binWeights: seq<real>)
    requires |s| == |w| == |a| && Packed(s, w, a, m, binToItems, itemToBin, binWeights)
    ensures |binToItems| == m && (forall b: nat :: b < m ==> binToItems[b] == ItemsOfBin(s, a, b))
    ensures itemToBin == BinOfItem(s, a)
  {
  }

  method SortItems<T>(items: array<T>, weight: T -> real)
    modifies items
    ensures items[..] == SortDescending(old(items[..]), weight)
  {
    var sorted := SortDescending(items[..], weight);
    SortDescendingSorts(items[..], weight);
    assert |sorted| == |multiset(sorted)| == |multiset(items[..])| == items.Length;
    forall i | 0 <= i < items.Length {
      items[i] := sorted[i];
    }
    assert items[..] == sorted;
  }

  // ----- The bins split the items

  lemma {:induction false} ItemsOfBinMembers<T>(s: seq<T>, a: seq<nat>, b: nat, x: T)
    requires |s| == |a|
    ensures x in ItemsOfBin(s, a, b) <==> exists i :: 0 <= i < |s| && s[i] == x && a[i] == b
  {
    if s != [] {
      var n := |s| - 1;
      ItemsOfBinMembers(s[..n], a[..n], b, x);
      if x in ItemsOfBin(s[..n], a[..n], b) {
        var i :| 0 <= i < n && s[..n][i] == x && a[..n][i] == b;
        assert s[i] == x && a[i] == b;
      } else {
        forall i | 0 <= i < n && s[i] == x
          ensures a[i] != b
        {
          assert s[..n][i] == x && a[..n][i] == a[i];
        }
      }
    }
  }

  lemma {:induction false} BinOfItemRecords<T>(s: seq<T>, a: seq<nat>, i: nat)
    requires |s| == |a| && i < |s|
    requires forall j, k :: 0 <= j < k < |s| ==> s[j] != s[k]
    ensures BinOfItem(s, a)[s[i]] == a[i]
  {
    var n := |s| - 1;
    var front, before := s[..n], a[..n];
    assert BinOfItem(s, a) == BinOfItem(front, before)[s[n] := a[n]];
    if i < n {
      assert front[i] == s[i] && before[i] == a[i] && s[i] != s[n];
      assert forall j, k :: 0 <= j < k < |front| ==> front[j] != front[k];
      hide BinOfItem;
      BinOfItemRecords(front, before, i);
    }
  }

  /** For distinct items every item is in the one bin that itemToBin names, once, and in no other. */
  lemma {:induction false} BinsPartitionItems<T>(items: seq<T>, m: nat, weight: T -> real, x: T, b: nat)
    requires m >= 1 && b < m && x in items
    requires forall j, k :: 0 <= j < k < |items| ==> items[j] != items[k]
    ensures var s := SortDescending(items, weight);
            var a := Greedy(Weights(s, weight), m);
            && x in BinOfItem(s, a) && BinOfItem(s, a)[x] < m
            && multiset(ItemsOfBin(s, a, b))[x] == if BinOfItem(s, a)[x] == b then 1 else 0
  {
    var s := SortDescending(items, weight);
    var a := Greedy(Weights(s, weight), m);
    SortDescendingSorts(items, weight);
    DistinctByMultiset(items, s);
    assert x in multiset(s);
    var i :| 0 <= i < |s| && s[i] == x;
    BinOfItemRecords(s, a, i);
    OccurrencesInBin(s, a, b, i);
  }

  lemma {:induction false} OccurrencesAtMostOne<T>(s: seq<T>, x: T)
    requires forall j, k :: 0 <= j < k < |s| ==> s[j] != s[k]
    ensures multiset(s)[x] <= 1
  {
    if s != [] {
      var n := |s| - 1;
      assert s == s[..n] + [s[n]];
      OccurrencesAtMostOne(s[..n], x);
      if s[n] == x {
        assert x !in s[..n];
        assert x !in multiset(s[..n]);
      }
    }
  }

  lemma {:induction false} TwoOccurrences<T>(t: seq<T>, j: nat, k: nat)
    requires j < k < |t|
    ensures t[j] == t[k] ==> multiset(t)[t[j]] >= 2
  {
    assert t == t[..j] + [t[j]] + t[j + 1..k] + [t[k]] + t[k + 1..];
  }

  lemma {:induction false} DistinctByMultiset<T>(s: seq<T>, t: seq<T>)
    requires multiset(s) == multiset(t)
    requires forall j, k :: 0 <= j < k < |s| ==> s[j] != s[k]
    ensures forall j, k :: 0 <= j < k < |t| ==> t[j] != t[k]
  {
    forall j, k | 0 <= j < k < |t|
      ensures t[j] != t[k]
    {
      OccurrencesAtMostOne(s, t[j]);
      TwoOccurrences(t, j, k);
    }
  }

  lemma {:induction false} OccurrencesInBin<T>(s: seq<T>, a: seq<nat>, b: nat, i: nat)
    requires |s| == |a| && i < |s|
    requires forall j, k :: 0 <= j < k < |s| ==> s[j] != s[k]
    ensures multiset(ItemsOfBin(s, a, b))[s[i]] == if a[i] == b then 1 else 0
  {
    var n := |s| - 1;
    if i < n {
      OccurrencesInBin(s[..n], a[..n], b, i);
      assert s[..n][i] == s[i] != s[n];
    } else {
      ItemsOfBinMembers(s[..n], a[..n], b, s[n]);
      assert s[n] !in ItemsOfBin(s[..n], a[..n], b);
      assert s[n] !in multiset(ItemsOfBin(s[..n], a[..n], b));
    }
  }

  /** The load of a bin is the weight of the items listed for it. */
  lemma {:induction false} LoadIsWeightOfItems<T>(s: seq<T>, a: seq<nat>, b: nat, weight: T -> real)
    requires |s| == |a|
    ensures BinLoad(Weights(s, weight), a, b) == Total(Weights(ItemsOfBin(s, a, b), weight))
  {
    if s != [] {
      var n := |s| - 1;
      LoadIsWeightOfItems(s[..n], a[..n], b, weight);
      assert Weights(s, weight)[..n] == Weights(s[..n], weight);
      var items := ItemsOfBin(s[..n], a[..n], b);
      if a[n] == b {
        var all := Weights(items + [s[n]], weight);
        assert all[..|all| - 1] == Weights(items, weight);
      } else {
        assert items + [] == items;
      }
    }
  }

  /** The items are those that assignment a puts into bin b, in list order: at are their positions. */
  ghost predicate ListsBin<T>(s: seq<T>, a: seq<nat>, b: nat, at: seq<nat>, items: seq<T>)
    requires |s| == |a|
  {
    Picks(s, at, items) && forall i :: 0 <= i < |s| ==> (i in at <==> a[i] == b)
  }

  lemma {:induction false} ListsOneMore<T>(s: seq<T>, a: seq<nat>, b: nat, at: seq<nat>, items: seq<T>)
    requires |s| == |a| > 0 && ListsBin(s[..|s| - 1], a[..|s| - 1], b, at, items)
    ensures var n := |s| - 1;
            if a[n] == b then ListsBin(s, a, b, at + [n], items + [s[n]]) else ListsBin(s, a, b, at, items)
  {
    hide Picks;
    var n := |s| - 1;
    PicksNext(s, at, items);
    forall i | 0 <= i < n
      ensures i in at <==> a[i] == b
    {
      assert a[..n][i] == a[i];
    }
  }

  /** A bin lists exactly its items, in the order of the list. */
  lemma {:induction false} BinInListOrder<T>(s: seq<T>, a: seq<nat>, b: nat) returns (at: seq<nat>)
    requires |s| == |a|
    ensures ListsBin(s, a, b, at, ItemsOfBin(s, a, b))
  {
    at := [];
    if s != [] {
      var n := |s| - 1;
      at := BinInListOrder(s[..n], a[..n], b);
      ListsOneMore(s, a, b, at, ItemsOfBin(s[..n], a[..n], b));
      at := if a[n] == b then at + [n] else at;
    }
  }

  /** An item listed more than once is recorded under the bin of its last occurrence. */
  lemma {:induction false} LastOccurrenceIsRecorded<T>(s: seq<T>, a: seq<nat>, i: nat)
    requires |s| == |a| && i < |s| && forall j :: i < j < |s| ==> s[j] != s[i]
    ensures BinOfItem(s, a)[s[i]] == a[i]
  {
    var n := |s| - 1;
    if i < n {
      assert s[n] != s[i];
      LastOccurrenceIsRecorded(s[..n], a[..n], i);
    }
  }

  // ----- Equal weights

  /** The load of bin b after q full rounds and r items more, each of weight c. */
  function RoundLoad(q: nat, r: nat, b: nat, c: real): real {
    Times(if b < r then (q + 1) as real else q as real, c)
  }

  lemma {:induction false} RoundNext(q: nat, r: nat, m: nat, b: nat, c: real)
    requires r < m && b < m
    ensures (if r + 1 < m then RoundLoad(q, r + 1, b, c) else RoundLoad(q + 1, 0, b, c))
         == RoundLoad(q, r, b, c) + if b == r then c else 0.0
  {
    TimesCommutes((q + 1) as real, c);
    TimesCommutes(q as real, c);
    TimesDistributes(c, q as real, 1.0);
    TimesUnits(c);
  }

  lemma {:induction false} MultipleBeyond(k: int, m: nat)
    ensures k <= 0 || k * m >= m
  {
  }

  lemma {:induction false} RoundStart(q: nat, r: nat, m: nat)
    requires r < m && q * m + r == 0
    ensures q == 0 && r == 0
  {
    MultipleBeyond(q, m);
  }

  lemma {:induction false} RoundBefore(q: nat, r: nat, m: nat, n: nat)
    requires r < m && n + 1 == q * m + r
    ensures r == 0 ==> q > 0 && n == (q - 1) * m + (m - 1)
    ensures r > 0 ==> n == q * m + (r - 1)
  {
  }

  lemma {:induction false} NextInRound(q: nat, r: nat, m: nat, n: nat)
    requires r < m && n == q * m + r
    ensures n % m == r
  {
    var d := n / m;
    assert n == d * m + n % m;
    assert (d - q) * m == d * m - q * m;
    assert (q - d) * m == q * m - d * m;
    MultipleBeyond(d - q, m);
    MultipleBeyond(q - d, m);
  }

  lemma {:induction false} RoundFirst(loads: seq<real>, q: nat, r: nat, c: real)
    requires c > 0.0 && r < |loads| && forall b: nat :: b < |loads| ==> loads[b] == RoundLoad(q, r, b, c)
    ensures FirstMinimum(loads) == r
  {
    RoundNext(q, 0, 1, 0, c);
    var t := FirstMinimum(loads);
    assert loads[t] <= loads[r];
  }

  lemma {:induction false} DealOne(w: seq<real>, m: nat, c: real, q: nat, r: nat)
    requires c > 0.0 && r < m && w != [] && w[|w| - 1] == c
    requires forall b: nat :: b < m ==> BinLoad(w[..|w| - 1], Greedy(w[..|w| - 1], m), b) == RoundLoad(q, r, b, c)
    ensures Greedy(w, m) == Greedy(w[..|w| - 1], m) + [r]
    ensures forall b: nat :: b < m ==>
              BinLoad(w, Greedy(w, m), b) == if r + 1 < m then RoundLoad(q, r + 1, b, c) else RoundLoad(q + 1, 0, b, c)
  {
    var n := |w| - 1;
    var rest := w[..n];
    var a := Greedy(rest, m);
    RoundFirst(Loads(rest, a, m), q, r, c);
    assert (a + [r])[..n] == a;
    forall b: nat | b < m
      ensures BinLoad(w, a + [r], b) == if r + 1 < m then RoundLoad(q, r + 1, b, c) else RoundLoad(q + 1, 0, b, c)
    {
      assert BinLoad(w, a + [r], b) == BinLoad(rest, a, b) + if r == b then c else 0.0;
      RoundNext(q, r, m, b, c);
    }
  }

  lemma {:induction false} RoundRobinFrom(w: seq<real>, m: nat, c: real, q: nat, r: nat)
    requires c > 0.0 && r < m && |w| == q * m + r && forall i :: 0 <= i < |w| ==> w[i] == c
    ensures forall b: nat :: b < m ==> BinLoad(w, Greedy(w, m), b) == RoundLoad(q, r, b, c)
    ensures forall i :: 0 <= i < |w| ==> Greedy(w, m)[i] == i % m
    decreases |w|
  {
    if w == [] {
      RoundStart(q, r, m);
      TimesCommutes(0.0, c);
      TimesUnits(c);
    } else {
      hide Greedy, BinLoad, RoundLoad;
      var n := |w| - 1;
      RoundBefore(q, r, m, n);
      var q0, r0 := if r > 0 then q else q - 1, if r > 0 then r - 1 else m - 1;
      RoundRobinFrom(w[..n], m, c, q0, r0);
      DealOne(w, m, c, q0, r0);
      NextInRound(q0, r0, m, n);
    }
  }

  /** Items of one positive weight keep their order and are dealt out in turn. */
  lemma {:induction false} EqualWeightsRoundRobin<T>(s: seq<T>, weight: T -> real, m: nat, c: real)
    requires m >= 1 && c > 0.0 && forall i :: 0 <= i < |s| ==> weight(s[i]) == c
    ensures SortDescending(s, weight) == s
    ensures forall i :: 0 <= i < |s| ==> Greedy(Weights(s, weight), m)[i] == i % m
  {
    EqualWeightsStay(s, weight);
    assert |s| == |s| / m * m + |s| % m;
    RoundRobinFrom(Weights(s, weight), m, c, |s| / m, |s| % m);
  }

  // ----- Conservation of weight

  lemma {:induction false} AddItem(w: seq<real>, a: seq<nat>, k: nat)
    requires |w| == |a| > 0
    ensures LoadOfFirstBins(w, a, k)
         == LoadOfFirstBins(w[..|w| - 1], a[..|w| - 1], k) + (if a[|w| - 1] < k then w[|w| - 1] else 0.0)
  {
    if k > 0 {
      AddItem(w, a, k - 1);
    }
  }

  lemma {:induction false} EmptyBins(k: nat)
    ensures LoadOfFirstBins([], [], k) == 0.0
  {
    if k > 0 {
      EmptyBins(k - 1);
    }
  }

  /** No weight is lost: the bin loads add up to the total weight. */
  lemma {:induction false} LoadsAddUp(w: seq<real>, a: seq<nat>, m: nat)
    requires IsAssignment(w, a, m)
    ensures LoadOfFirstBins(w, a, m) == Total(w)
  {
    if w == [] {
      EmptyBins(m);
    } else {
      AddItem(w, a, m);
      LoadsAddUp(w[..|w| - 1], a[..|w| - 1], m);
    }
  }

  lemma {:induction false} BoundedBins(w: seq<real>, a: seq<nat>, k: nat, lo: real, hi: real)
    requires |w| == |a|
    requires forall b: nat :: b < k ==> lo <= BinLoad(w, a, b) <= hi
    ensures k as real * lo <= LoadOfFirstBins(w, a, k) <= k as real * hi
  {
    if k > 0 {
      BoundedBins(w, a, k - 1, lo, hi);
      assert k as real * lo == (k - 1) as real * lo + lo;
      assert k as real * hi == (k - 1) as real * hi + hi;
    }
  }

  lemma {:induction false} LoadNonNegative(w: seq<real>, a: seq<nat>, b: nat)
    requires |w| == |a|
    requires forall i :: 0 <= i < |w| ==> w[i] >= 0.0
    ensures BinLoad(w, a, b) >= 0.0
    ensures forall i :: 0 <= i < |w| && a[i] == b ==> w[i] <= BinLoad(w, a, b)
  {
    if w != [] {
      var n := |w| - 1;
      LoadNonNegative(w[..n], a[..n], b);
      forall i | 0 <= i < |w| && a[i] == b
        ensures w[i] <= BinLoad(w, a, b)
      {
        if i < n {
          assert w[..n][i] == w[i] && a[..n][i] == b;
        }
      }
    }
  }

  /** No bin at or above the maximum of all loads: a lower bound on what any assignment can reach. */
  lemma {:induction false} TotalAtMost(w: seq<real>, a: seq<nat>, m: nat, bound: real)
    requires IsAssignment(w, a, m)
    requires LoadsAtMost(w, a, m, bound)
    requires forall i :: 0 <= i < |w| ==> w[i] >= 0.0
    ensures Total(w) <= m as real * bound
    ensures forall i :: 0 <= i < |w| ==> w[i] <= bound
  {
    forall b: nat | b < m
      ensures 0.0 <= BinLoad(w, a, b) <= bound
    {
      LoadNonNegative(w, a, b);
    }
    forall i | 0 <= i < |w|
      ensures w[i] <= bound
    {
      LoadNonNegative(w, a, a[i]);
    }
    BoundedBins(w, a, m, 0.0, bound);
    LoadsAddUp(w, a, m);
  }

  ghost predicate Lightest(w: seq<real>, a: seq<nat>, m: nat, t: nat)
    requires |w| == |a|
  {
    && t < m && (forall b: nat :: b < m ==> BinLoad(w, a, t) <= BinLoad(w, a, b))
    && (forall b: nat :: b < t ==> BinLoad(w, a, t) < BinLoad(w, a, b))
  }

  /** Every item went to the first of the bins that were lightest when the item's turn came. */
  ghost predicate ListScheduled(w: seq<real>, a: seq<nat>, m: nat)
    requires |w| == |a|
  {
    w != [] ==>
      var n := |w| - 1;
      ListScheduled(w[..n], a[..n], m) && Lightest(w[..n], a[..n], m, a[n])
  }

  lemma {:induction false} GreedyIsListScheduled(w: seq<real>, m: nat)
    requires m >= 1
    ensures ListScheduled(w, Greedy(w, m), m)
  {
    if w != [] {
      var rest := w[..|w| - 1];
      var a := Greedy(rest, m);
      GreedyIsListScheduled(rest, m);
      var loads := Loads(rest, a, m);
      var t := FirstMinimum(loads);
      assert Greedy(w, m) == a + [t] && (a + [t])[..|w| - 1] == a;
      forall b: nat | b < m
        ensures BinLoad(rest, a, t) <= BinLoad(rest, a, b)
      {
        assert loads[t] <= loads[b];
      }
    }
  }

  // ----- Graham's list-scheduling bound

  ghost function LargestOf(s: seq<real>): (r: real)
    ensures forall i :: 0 <= i < |s| ==> s[i] <= r
  {
    if s == [] then 0.0
    else
      var r := LargestOf(s[..|s| - 1]);
      if s[|s| - 1] > r then s[|s| - 1] else r
  }

  lemma {:induction false} AverageAtLeast(w: seq<real>, a: seq<nat>, m: nat, lo: real)
    requires IsAssignment(w, a, m)
    requires forall b: nat :: b < m ==> lo <= BinLoad(w, a, b)
    ensures m as real * lo <= Total(w)
  {
    var hi := LargestOf(Loads(w, a, m));
    forall b: nat | b < m
      ensures BinLoad(w, a, b) <= hi
    {
      assert Loads(w, a, m)[b] <= hi;
    }
    BoundedBins(w, a, m, lo, hi);
    LoadsAddUp(w, a, m);
  }

  // The arithmetic of the two bounds, kept apart from the packing: m bins, a bin loaded with before + last.

  lemma {:induction false} ScaleMonotone(c: real, x: real, y: real)
    requires c >= 0.0 && x <= y
    ensures c * x <= c * y
  {
  }

  lemma {:induction false} AverageAndLast(m: real, before: real, last: real, rest: real)
    requires m * before <= rest
    ensures BelowAverage(before + last, rest + last, last, m)
  {
  }

  /** load is at most the average plus all but a share of the last item. */
  ghost predicate BelowAverage(load: real, total: real, last: real, m: real) {
    m * load <= total + (m - 1.0) * last
  }

  lemma {:induction false} BelowLargerAverage(load: real, total: real, more: real, last: real, m: real)
    requires BelowAverage(load, total, last, m) && more >= 0.0
    ensures BelowAverage(load, total + more, last, m)
  {
  }

  lemma {:induction false} TwiceOpt(m: real, load: real, total: real, last: real, opt: real)
    requires m >= 1.0 && last <= opt && total <= m * opt
    requires BelowAverage(load, total, last, m)
    ensures m * load <= (2.0 * m - 1.0) * opt
  {
    ScaleMonotone(m - 1.0, last, opt);
  }

  lemma {:induction false} FourThirdsOpt(m: real, load: real, total: real, last: real, opt: real)
    requires m >= 1.0 && 0.0 <= opt && total <= m * opt
    requires load <= opt || (BelowAverage(load, total, last, m) && 3.0 * last <= opt)
    ensures 3.0 * (m * load) <= (4.0 * m - 1.0) * opt
  {
    ScaleMonotone(m - 1.0, 0.0, opt);
    if load <= opt {
      ScaleMonotone(m, load, opt);
    } else {
      ScaleMonotone(m - 1.0, 3.0 * last, opt);
    }
  }

  lemma {:induction false} PlaceItem(w: seq<real>, x: real, a: seq<nat>, t: nat, b: nat)
    requires |w| == |a|
    ensures BinLoad(w + [x], a + [t], b) == BinLoad(w, a, b) + (if t == b then x else 0.0)
    ensures Total(w + [x]) == Total(w) + x
  {
    assert (w + [x])[..|w|] == w && (a + [t])[..|a|] == a;
  }

  /** m * load <= total + (m - 1) * (weight of the item placed last in the bin). */
  lemma {:induction false} ListSchedulingBound(w: seq<real>, a: seq<nat>, m: nat, b: nat, last: nat)
    requires m >= 1 && b < m && last < |w|
    requires IsAssignment(w, a, m) && ListScheduled(w, a, m)
    requires forall i :: 0 <= i < |w| ==> w[i] >= 0.0
    requires a[last] == b && forall i :: last < i < |w| ==> a[i] != b
    ensures BelowAverage(BinLoad(w, a, b), Total(w), w[last], m as real)
  {
    hide BelowAverage;
    var n := |w| - 1;
    if last < n {
      ListSchedulingBound(w[..n], a[..n], m, b, last);
      BelowLargerAverage(BinLoad(w[..n], a[..n], b), Total(w[..n]), w[n], w[last], m as real);
    } else {
      AverageAtLeast(w[..n], a[..n], m, BinLoad(w[..n], a[..n], b));
      AverageAndLast(m as real, BinLoad(w[..n], a[..n], b), w[n], Total(w[..n]));
    }
  }

  /** load is at most 2 - 1/m times opt. */
  ghost predicate WithinTwice(load: real, m: nat, opt: real) {
    m as real * load <= (2.0 * m as real - 1.0) * opt
  }

  /** load is at most 4/3 - 1/(3m) times opt. */
  ghost predicate WithinFourThirds(load: real, m: nat, opt: real) {
    3.0 * (m as real * load) <= (4.0 * m as real - 1.0) * opt
  }

  /** Whatever the order of the items, no bin exceeds 2 - 1/m times the bound any assignment o meets. */
  lemma {:induction false} TwoApproximation(w: seq<real>, a: seq<nat>, m: nat, b: nat, o: seq<nat>, opt: real)
    requires m >= 1 && b < m
    requires IsAssignment(w, a, m) && ListScheduled(w, a, m)
    requires forall i :: 0 <= i < |w| ==> w[i] >= 0.0
    requires IsAssignment(w, o, m) && LoadsAtMost(w, o, m, opt)
    ensures WithinTwice(BinLoad(w, a, b), m, opt)
  {
    hide WithinTwice;
    if w == [] {
      NothingPlaced(m, o, opt);
    } else if a[|w| - 1] != b {
      RestWithin(w, o, m, opt);
      TwoApproximation(w[..|w| - 1], a[..|w| - 1], m, b, o[..|w| - 1], opt);
    } else {
      TotalAtMost(w, o, m, opt);
      TwiceOptAtLast(w, a, m, opt);
    }
  }

  lemma {:induction false} TwiceOptAtLast(w: seq<real>, a: seq<nat>, m: nat, opt: real)
    requires m >= 1 && |w| > 0
    requires IsAssignment(w, a, m) && ListScheduled(w, a, m)
    requires forall i :: 0 <= i < |w| ==> 0.0 <= w[i] <= opt
    requires Total(w) <= m as real * opt
    ensures WithinTwice(BinLoad(w, a, a[|w| - 1]), m, opt)
  {
    hide BelowAverage, BinLoad, Total;
    ListSchedulingBound(w, a, m, a[|w| - 1], |w| - 1);
    TwiceOpt(m as real, BinLoad(w, a, a[|w| - 1]), Total(w), w[|w| - 1], opt);
  }

  lemma {:induction false} FourThirdsOptAtLast(w: seq<real>, a: seq<nat>, m: nat, opt: real)
    requires m >= 1 && |w| > 0
    requires IsAssignment(w, a, m) && ListScheduled(w, a, m)
    requires forall i :: 0 <= i < |w| ==> 0.0 <= w[i] <= opt
    requires Total(w) <= m as real * opt
    requires 3.0 * w[|w| - 1] > opt ==> BinLoad(w, a, a[|w| - 1]) <= opt
    ensures WithinFourThirds(BinLoad(w, a, a[|w| - 1]), m, opt)
  {
    hide BelowAverage, BinLoad, Total;
    ListSchedulingBound(w, a, m, a[|w| - 1], |w| - 1);
    FourThirdsOpt(m as real, BinLoad(w, a, a[|w| - 1]), Total(w), w[|w| - 1], opt);
  }

  lemma {:induction false} NothingPlaced(m: nat, o: seq<nat>, opt: real)
    requires m >= 1 && o == [] && LoadsAtMost([], o, m, opt)
    ensures WithinTwice(0.0, m, opt) && WithinFourThirds(0.0, m, opt)
  {
    assert BinLoad([], o, 0) <= opt;
    ScaleMonotone(m as real, 0.0, opt);
    TwiceOpt(m as real, 0.0, 0.0, 0.0, opt);
    FourThirdsOpt(m as real, 0.0, 0.0, 0.0, opt);
  }

  // ----- The bound for sorted items

  /** Two points for an item that leaves no room for another of weight z within opt, one for any other item. */
  ghost function Points(w: seq<real>, opt: real, z: real): (p: seq<real>)
    ensures |p| == |w| && forall i :: 0 <= i < |w| ==> p[i] == if w[i] > opt - z then 2.0 else 1.0
  {
    seq(|w|, i requires 0 <= i < |w| => if w[i] > opt - z then 2.0 else 1.0)
  }

  /** A bin that stays within opt earns at most two points. */
  lemma {:induction false} FewPointsWithin(w: seq<real>, a: seq<nat>, b: nat, opt: real, z: real)
    requires |w| == |a|
    requires 0.0 <= z <= opt && 3.0 * z > opt
    requires forall i :: 0 <= i < |w| ==> w[i] >= z
    ensures var p := BinLoad(Points(w, opt, z), a, b);
            var load := BinLoad(w, a, b);
            || (p == 0.0 && load == 0.0)
            || (p == 1.0 && load >= z)
            || (p == 2.0 && load > opt - z)
            || (p >= 3.0 && load > opt)
  {
    if w != [] {
      var n := |w| - 1;
      FewPointsWithin(w[..n], a[..n], b, opt, z);
      assert Points(w, opt, z)[..n] == Points(w[..n], opt, z);
    }
  }

  /** A bin loaded beyond opt - z has earned at least two points. */
  lemma {:induction false} ManyPointsBeyond(w: seq<real>, a: seq<nat>, b: nat, opt: real, z: real)
    requires |w| == |a|
    requires 0.0 <= z <= opt
    ensures var p := BinLoad(Points(w, opt, z), a, b);
            p >= 2.0 || (p == 1.0 && BinLoad(w, a, b) <= opt - z) || (p == 0.0 && BinLoad(w, a, b) == 0.0)
  {
    if w != [] {
      var n := |w| - 1;
      ManyPointsBeyond(w[..n], a[..n], b, opt, z);
      assert Points(w, opt, z)[..n] == Points(w[..n], opt, z);
    }
  }

  /** When every item weighs more than a third of opt, the bin that takes the last item stays within opt. */
  lemma {:induction false} LargeItemsFit(w: seq<real>, z: real, a: seq<nat>, t: nat, m: nat, o: seq<nat>, opt: real)
    requires m >= 1
    requires IsAssignment(w, a, m) && Lightest(w, a, m, t)
    requires IsAssignment(w + [z], o, m) && LoadsAtMost(w + [z], o, m, opt)
    requires z >= 0.0 && forall i :: 0 <= i < |w| ==> w[i] >= z
    requires 3.0 * z > opt
    ensures BinLoad(w, a, t) + z <= opt
  {
    var all := w + [z];
    TotalAtMost(all, o, m, opt);
    assert all[|w|] == z;
    if BinLoad(w, a, t) + z > opt {
      var earned := Points(w, opt, z);
      var due := Points(all, opt, z);
      assert due == earned + [due[|w|]];
      PlaceItem(earned, due[|w|], a, t, t);
      forall b: nat | b < m
        ensures 2.0 <= BinLoad(earned, a, b)
      {
        ManyPointsBeyond(w, a, b, opt, z);
        assert BinLoad(w, a, t) <= BinLoad(w, a, b);
      }
      AverageAtLeast(earned, a, m, 2.0);
      forall b: nat | b < m
        ensures BinLoad(due, o, b) <= 2.0
      {
        FewPointsWithin(all, o, b, opt, z);
        assert BinLoad(all, o, b) <= opt;
      }
      TotalAtMost(due, o, m, 2.0);
      assert false;
    }
  }

  /** On items sorted by descending weight no bin exceeds 4/3 - 1/(3m) times what any assignment o meets. */
  lemma {:induction false} FourThirdsApproximation(w: seq<real>, a: seq<nat>, m: nat, b: nat, o: seq<nat>, opt: real)
    requires m >= 1 && b < m
    requires IsAssignment(w, a, m) && ListScheduled(w, a, m)
    requires Descending(w) && forall i :: 0 <= i < |w| ==> w[i] >= 0.0
    requires IsAssignment(w, o, m) && LoadsAtMost(w, o, m, opt)
    ensures WithinFourThirds(BinLoad(w, a, b), m, opt)
  {
    hide WithinFourThirds;
    if w == [] {
      NothingPlaced(m, o, opt);
    } else if a[|w| - 1] != b {
      RestWithin(w, o, m, opt);
      FourThirdsApproximation(w[..|w| - 1], a[..|w| - 1], m, b, o[..|w| - 1], opt);
    } else {
      TotalAtMost(w, o, m, opt);
      LastFits(w, a, m, o, opt);
      FourThirdsOptAtLast(w, a, m, opt);
    }
  }

  lemma {:induction false} LastFits(w: seq<real>, a: seq<nat>, m: nat, o: seq<nat>, opt: real)
    requires m >= 1 && w != [] && IsAssignment(w, a, m) && ListScheduled(w, a, m)
    requires Descending(w) && forall i :: 0 <= i < |w| ==> w[i] >= 0.0
    requires IsAssignment(w, o, m) && LoadsAtMost(w, o, m, opt)
    ensures 3.0 * w[|w| - 1] > opt ==> BinLoad(w, a, a[|w| - 1]) <= opt
  {
    var n := |w| - 1;
    if 3.0 * w[n] > opt {
      assert w == w[..n] + [w[n]];
      LargeItemsFit(w[..n], w[n], a[..n], a[n], m, o, opt);
    }
  }

  /**
    The packing that GreedyBinPacking returns, against any assignment of the same (sorted) items to as many bins:
    its heaviest bin is within 4/3 - 1/(3m), for non-negative weights.
    */
  lemma {:induction false} PackingWithinFourThirds<T>(items: seq<T>, weight: T -> real, s: seq<T>, w: seq<real>,
                                   m: nat, b: nat, o: seq<nat>, opt: real)
    requires m >= 1 && b < m
    requires forall x :: x in items ==> weight(x) >= 0.0
    requires s == SortDescending(items, weight) && w == Weights(s, weight)
    requires IsAssignment(w, o, m) && LoadsAtMost(w, o, m, opt)
    ensures WithinFourThirds(BinLoad(w, Greedy(w, m), b), m, opt)
  {
    SortedWeights(items, weight);
    GreedyWithinFourThirds(w, m, b, o, opt);
  }

  lemma {:induction false} GreedyWithinFourThirds(w: seq<real>, m: nat, b: nat, o: seq<nat>, opt: real)
    requires m >= 1 && b < m
    requires Descending(w) && forall i :: 0 <= i < |w| ==> w[i] >= 0.0
    requires IsAssignment(w, o, m) && LoadsAtMost(w, o, m, opt)
    ensures WithinFourThirds(BinLoad(w, Greedy(w, m), b), m, opt)
  {
    GreedyIsListScheduled(w, m);
    FourThirdsApproximation(w, Greedy(w, m), m, b, o, opt);
  }

  lemma {:induction false} SortedWeights<T>(items: seq<T>, weight: T -> real)
    requires forall x :: x in items ==> weight(x) >= 0.0
    ensures var w := Weights(SortDescending(items, weight), weight);
            Descending(w) && forall i :: 0 <= i < |w| ==> w[i] >= 0.0
  {
    var s := SortDescending(items, weight);
    SortDescendingSorts(items, weight);
    forall i | 0 <= i < |s|
      ensures weight(s[i]) >= 0.0
    {
      assert s[i] in multiset(items);
    }
  }

  lemma {:induction false} RestWithin(w: seq<real>, o: seq<nat>, m: nat, opt: real)
    requires |w| > 0 && forall i :: 0 <= i < |w| ==> w[i] >= 0.0
    requires IsAssignment(w, o, m) && LoadsAtMost(w, o, m, opt)
    ensures LoadsAtMost(w[..|w| - 1], o[..|w| - 1], m, opt)
  {
    var rest, before := w[..|w| - 1], o[..|w| - 1];
    forall b: nat | b < m
      ensures BinLoad(rest, before, b) <= opt
    {
      assert BinLoad(w, o, b) <= opt;
    }
  }
}
