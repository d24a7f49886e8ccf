/** Moving fused weights into the same file: incomplete sets are carried over to the next file. */
module ReindexFusedWeights {
  import opened Collections
  import opened FusedNames

  type Tensor = seq<real>

  type Tensors = map<string, Tensor>

  datatype File = File(name: string, tensors: Tensors)

  /** A saved file, with its tensor names in the order in which they are indexed. */
  datatype Saved = Saved(name: string, names: seq<string>, tensors: Tensors)

  /** An item of the weight map. */
  datatype Entry = Entry(tensor: string, file: string)

  // ----- Taking incomplete sets out of a file

  datatype Split = Split(tensors: Tensors, names: seq<string>, carry: Tensors)

  ghost predicate Exactly(names: seq<string>, tensors: Tensors) {
    Distinct(names) && forall n :: n in names <==> n in tensors
  }

  function Only(tensors: Tensors, names: set<string>): Tensors {
    map n | n in tensors && n in names :: tensors[n]
  }

  method MoveUnmatched(tensors: Tensors, names: seq<string>, unmatched: seq<NamesSet>) returns (r: Result<Split>)
    requires LeftNames(unmatched) <= tensors.Keys
    ensures r.Ok? <==> SharesNothing(unmatched)
    ensures r.Ok? ==>
              r.value == Split(tensors - LeftNames(unmatched), Without(names, LeftNames(unmatched)),
                               Only(tensors, LeftNames(unmatched)))
    ensures r.Err? ==> r.error == MissingKey
  {
    hide SharesNothing, LeftNames, Only, Without;
    var left := tensors;
    var kept := names;
    var carry: Tensors := map[];
    NothingTaken(tensors, names, unmatched);
    for i := 0 to |unmatched|
      invariant SharesNothing(unmatched[..i])
      invariant Split(left, kept, carry) == Taken(tensors, names, LeftNames(unmatched[..i]))
    {
      var keys := LeftNames([unmatched[i]]);
      LeftNamesNext(unmatched, i);
      TakenNext(tensors, names, LeftNames(unmatched[..i]), keys);
      if !(keys <= left.Keys) {
        return Err(MissingKey);
      }
      var taken := Only(left, keys);
      carry := carry + taken;
      kept := Without(kept, keys);
      left := left - keys;
    }
    assert unmatched[..|unmatched|] == unmatched;
    r := Ok(Split(left, kept, carry));
  }

  /** The tensors with some names taken out, and those taken. */
  ghost function Taken(tensors: Tensors, names: seq<string>, taken: set<string>): Split {
    Split(tensors - taken, Without(names, taken), Only(tensors, taken))
  }

  lemma {:induction false} NothingTaken(tensors: Tensors, names: seq<string>, unmatched: seq<NamesSet>)
    ensures SharesNothing(unmatched[..0])
    ensures Taken(tensors, names, LeftNames(unmatched[..0])) == Split(tensors, names, map[])
  {
    assert LeftNames(unmatched[..0]) == {};
    WithoutNothing(names);
  }

  lemma {:induction false} WithoutNothing(s: seq<string>)
    ensures Without(s, {}) == s
    decreases |s|
  {
    if s != [] {
      WithoutNothing(s[..|s| - 1]);
    }
  }

  lemma {:induction false} TakenNext(tensors: Tensors, names: seq<string>, before: set<string>, keys: set<string>)
    requires keys <= tensors.Keys
    ensures keys <= (tensors - before).Keys <==> before !! keys
    ensures before !! keys ==>
              Taken(tensors, names, before + keys)
              == Split(tensors - before - keys, Without(Without(names, before), keys),
                       Only(tensors, before) + Only(tensors - before, keys))
  {
    WithoutTwice(names, before, keys);
    assert tensors - (before + keys) == tensors - before - keys;
    if before !! keys {
      assert Only(tensors, before + keys) == Only(tensors, before) + Only(tensors - before, keys);
    }
  }

  /** The next set's names are new if and only if it shares none with those before. */
  lemma {:induction false} LeftNamesNext(unmatched: seq<NamesSet>, i: nat)
    requires i < |unmatched| && SharesNothing(unmatched[..i])
    ensures LeftNames(unmatched[..i + 1]) == LeftNames(unmatched[..i]) + LeftNames([unmatched[i]])
    ensures SharesNothing(unmatched[..i + 1]) <==> LeftNames(unmatched[..i]) !! LeftNames([unmatched[i]])
    ensures LeftNames([unmatched[i]]) <= LeftNames(unmatched)
    ensures SharesNothing(unmatched) ==> SharesNothing(unmatched[..i + 1])
  {
    hide InSet;
    var next := unmatched[..i + 1];
    assert forall k :: 0 <= k < i ==> next[k] == unmatched[..i][k];
    assert next[i] == unmatched[i];
    assert forall n :: n in LeftNames([unmatched[i]]) <==> InSet(unmatched[i], n) by {
      assert [unmatched[i]][0] == unmatched[i];
    }
  }

  lemma {:induction false} WithoutTwice(s: seq<string>, a: set<string>, b: set<string>)
    ensures Without(Without(s, a), b) == Without(s, a + b)
    decreases |s|
  {
    if s != [] {
      var front, last := s[..|s| - 1], s[|s| - 1];
      WithoutTwice(front, a, b);
      if last !in a {
        WithoutLast(Without(front, a), last, b);
      }
    }
  }

  // ----- All files

  /** Every tensor is in one file only, as the index of a checkpoint has it, and the files are listed once each. */
  ghost predicate IsCheckpoint(files: seq<File>) {
    forall i, j :: 0 <= i < j < |files| ==> files[i].name != files[j].name && files[i].tensors.Keys !! files[j].tensors.Keys
  }

  /** sorted(list(keys)): some order of the keys. */
  ghost predicate Lists(sorted: set<string> -> seq<string>) {
    forall keys: set<string> :: Distinct(sorted(keys)) && forall n :: n in sorted(keys) <==> n in keys
  }

  ghost function Loaded(files: seq<File>): Tensors {
    if files == [] then map[] else Loaded(files[..|files| - 1]) + files[|files| - 1].tensors
  }

  ghost function Stored(saved: seq<Saved>): Tensors {
    if saved == [] then map[] else Stored(saved[..|saved| - 1]) + saved[|saved| - 1].tensors
  }

  function FileEntries(names: seq<string>, file: string): (entries: seq<Entry>)
    ensures |entries| == |names| && forall k :: 0 <= k < |names| ==> entries[k] == Entry(names[k], file)
  {
    seq(|names|, k requires 0 <= k < |names| => Entry(names[k], file))
  }

  /** The weight map, in the order in which it is filled. */
  ghost function EntriesOf(saved: seq<Saved>): seq<Entry> {
    if saved == [] then []
    else
      var last := saved[|saved| - 1];
      EntriesOf(saved[..|saved| - 1]) + FileEntries(last.names, last.name)
  }

  /** Conservation: no tensor is lost or duplicated between the files saved so far and what is carried over. */
  ghost predicate Conserved(loaded: Tensors, saved: seq<Saved>, carry: Tensors) {
    && Stored(saved) + carry == loaded
    && Stored(saved).Keys !! carry.Keys
    && (forall i :: 0 <= i < |saved| ==> Exactly(saved[i].names, saved[i].tensors))
    && (forall i, j :: 0 <= i < j < |saved| ==> saved[i].tensors.Keys !! saved[j].tensors.Keys)
  }

  ghost predicate NothingUnmatched(M: Matcher, mappings: seq<seq<string>>, names: seq<string>) {
    FusedOf(M, mappings, names).Ok? && FusedOf(M, mappings, names).value.unmatched == []
  }

  /** What is carried over after the given files: the incomplete sets of the last one and of what was carried into it. */
  ghost function CarriedAfter(M: Matcher, mappings: seq<seq<string>>, sorted: set<string> -> seq<string>,
                              files: seq<File>): Tensors {
    if files == [] then map[]
    else
      var tensors := files[|files| - 1].tensors + CarriedAfter(M, mappings, sorted, files[..|files| - 1]);
      var fused := FusedOf(M, mappings, sorted(tensors.Keys));
      if fused.Ok? then Only(tensors, LeftNames(fused.value.unmatched)) else map[]
  }

  datatype Reindexed = Reindexed(saved: seq<Saved>, weightMap: seq<Entry>, carriedOver: Tensors)

  lemma {:induction false} StoredHas(saved: seq<Saved>, i: nat)
    requires i < |saved|
    ensures saved[i].tensors.Keys <= Stored(saved).Keys
    decreases |saved|
  {
    if i < |saved| - 1 {
      StoredHas(saved[..|saved| - 1], i);
    }
  }

  lemma {:induction false} LoadedHas(files: seq<File>, i: nat, j: nat)
    requires IsCheckpoint(files) && i <= j < |files|
    ensures files[j].tensors.Keys !! Loaded(files[..i]).Keys
    decreases i
  {
    if i > 0 {
      assert files[..i][..i - 1] == files[..i - 1];
      LoadedHas(files, i - 1, j);
    }
  }

  lemma {:induction false} StillConserved(loaded: Tensors, more: Tensors, saved: seq<Saved>, carry: Tensors,
                                          name: string, names: seq<string>, taken: set<string>)
    requires Conserved(loaded, saved, carry) && more.Keys !! loaded.Keys && Exactly(names, more + carry)
    ensures var s := Taken(more + carry, names, taken);
            Conserved(loaded + more, saved + [Saved(name, s.names, s.tensors)], s.carry)
  {
    var s := Taken(more + carry, names, taken);
    var x := Saved(name, s.names, s.tensors);
    var after := saved + [x];
    assert Stored(after) == Stored(saved) + x.tensors by {
      assert after[..|saved|] == saved;
    }
    TakenAway(Stored(saved), carry, loaded, more, taken);
    assert Exactly(x.names, x.tensors) by {
      WithoutDistinct(names, taken);
    }
    forall i | 0 <= i < |saved|
      ensures saved[i].tensors.Keys !! x.tensors.Keys
    {
      StoredHas(saved, i);
    }
  }

  lemma {:induction false} OnlyAndRest(all: Tensors, taken: set<string>)
    ensures (all - taken) + Only(all, taken) == all
    ensures (all - taken).Keys !! Only(all, taken).Keys
    ensures (all - taken).Keys <= all.Keys && Only(all, taken).Keys <= all.Keys
  {
  }

  lemma {:induction false} MergeAgain(a: Tensors, b: Tensors, c: Tensors)
    ensures a + b + c == a + (b + c) && (a + b).Keys == a.Keys + b.Keys
    ensures b.Keys !! c.Keys ==> b + c == c + b
  {
  }

  lemma {:induction false} TakenAway(stored: Tensors, carry: Tensors, loaded: Tensors, more: Tensors,
                                     taken: set<string>)
    requires stored + carry == loaded && stored.Keys !! carry.Keys && more.Keys !! loaded.Keys
    ensures var all := more + carry;
            && stored + (all - taken) + Only(all, taken) == loaded + more
            && (stored + (all - taken)).Keys !! Only(all, taken).Keys
            && stored.Keys !! (all - taken).Keys
  {
    hide Only;
    var all := more + carry;
    MergeAgain(stored, carry, more);
    MergeAgain(more, carry, map[]);
    OnlyAndRest(all, taken);
    MergeAgain(stored, all - taken, Only(all, taken));
    MergeAgain(carry, more, map[]);
    assert carry.Keys !! more.Keys;
    MergeAgain(stored, more, carry);
    assert all == carry + more;
  }

  lemma {:induction false} WithoutDistinct(s: seq<string>, drop: set<string>)
    requires Distinct(s)
    ensures Distinct(Without(s, drop))
    decreases |s|
  {
    if s != [] {
      WithoutDistinct(s[..|s| - 1], drop);
    }
  }

  // ----- Counting the names that match a target

  ghost function MatchSet(M: Matcher, names: set<string>, target: string): set<string> {
    set n | n in names && M.matches(n, target)
  }

  /** How many of the names match the target. */
  ghost function CountOf(M: Matcher, names: set<string>, target: string): nat {
    |MatchSet(M, names, target)|
  }

  /** All targets of the mapping match equally many of the names. */
  ghost predicate Balanced(M: Matcher, targets: seq<string>, names: set<string>) {
    forall t, u :: t in targets && u in targets ==> CountOf(M, names, t) == CountOf(M, names, u)
  }

  ghost predicate AllBalanced(M: Matcher, mappings: seq<seq<string>>, names: set<string>) {
    forall k :: 0 <= k < |mappings| ==> Balanced(M, mappings[k], names)
  }

  function NameSet(names: seq<string>): (s: set<string>)
    ensures forall n :: n in s <==> n in names
  {
    set n | n in names
  }

  lemma {:induction false} CountAdds(M: Matcher, a: set<string>, b: set<string>, target: string)
    requires a !! b
    ensures CountOf(M, a + b, target) == CountOf(M, a, target) + CountOf(M, b, target)
  {
    assert MatchSet(M, a + b, target) == MatchSet(M, a, target) + MatchSet(M, b, target);
  }

  lemma {:induction false} CountNone(M: Matcher, target: string)
    ensures CountOf(M, {}, target) == 0
  {
    assert MatchSet(M, {}, target) == {};
  }

  lemma {:induction false} CountOne(M: Matcher, n: string, target: string)
    ensures CountOf(M, {n}, target) == if M.matches(n, target) then 1 else 0
  {
    assert MatchSet(M, {n}, target) == if M.matches(n, target) then {n} else {};
  }

  lemma {:induction false} CountMatching(M: Matcher, names: seq<string>, target: string)
    requires Distinct(names)
    ensures |Matching(M, names, target)| == CountOf(M, NameSet(names), target)
    decreases |names|
  {
    if names == [] {
      assert NameSet(names) == {};
      CountNone(M, target);
    } else {
      var front, last := names[..|names| - 1], names[|names| - 1];
      assert names == front + [last];
      hide CountOf;
      CountMatching(M, front, target);
      assert NameSet(names) == NameSet(front) + {last} by {
        hide CountOf, Matching;
      }
      CountAdds(M, NameSet(front), {last}, target);
      CountOne(M, last, target);
    }
  }

  /** Every target matches one name for each complete set, and one more if the incomplete set has it. */
  lemma {:induction false} CountInSets(M: Matcher, targets: seq<string>, names: seq<string>, target: string)
    requires Distinct(targets) && targets != [] && Distinct(names) && MatchNames(M, targets, names).Ok? && target in targets
    ensures var m := MatchNames(M, targets, names).value;
            CountOf(M, NameSet(names), target) == |m.sets| + if target in m.left then 1 else 0
  {
    hide MatchNames, Matching, CountOf, Column;
    var sorted := NaturalSort(M, names);
    SortDistinct(M, names);
    assert NameSet(sorted) == NameSet(names);
    MatchesInTurn(M, targets, names);
    CountMatching(M, sorted, target);
    assert |Column(MatchNames(M, targets, names).value.sets, target)| == |MatchNames(M, targets, names).value.sets|;
  }

  lemma {:induction false} NothingLeft(M: Matcher, mappings: seq<seq<string>>, names: seq<string>, k: nat)
    requires NothingUnmatched(M, mappings, names) && k < |mappings|
    ensures MatchNames(M, mappings[k], names).Ok? && MatchNames(M, mappings[k], names).value.left == map[]
  {
    hide FusedOf, MatchNames;
    FusedOk(M, mappings, names, k);
    var left := MatchNames(M, mappings[k], names).value.left;
    forall t | t in left
      ensures false
    {
      assert InSet(left, left[t]);
      UnmatchedAreLeft(M, mappings, names, left[t]);
    }
    assert left.Keys == {};
  }

  /** A file without incomplete sets is balanced. */
  lemma {:induction false} CompleteIsBalanced(M: Matcher, mappings: seq<seq<string>>, names: seq<string>)
    requires Apart(M, mappings) && Distinct(names) && NothingUnmatched(M, mappings, names)
    ensures AllBalanced(M, mappings, NameSet(names))
  {
    hide FusedOf, MatchNames, CountOf, NothingUnmatched;
    forall k, t, u | 0 <= k < |mappings| && t in mappings[k] && u in mappings[k]
      ensures CountOf(M, NameSet(names), t) == CountOf(M, NameSet(names), u)
    {
      NothingLeft(M, mappings, names, k);
      CountInSets(M, mappings[k], names, t);
      CountInSets(M, mappings[k], names, u);
    }
  }

  /** Of the names taken out of a file, a target matches one if its incomplete set has it, and otherwise none. */
  lemma {:induction false} CountTaken(M: Matcher, mappings: seq<seq<string>>, names: seq<string>, k: nat, target: string)
    requires M.Valid() && Apart(M, mappings) && Distinct(names) && FusedOf(M, mappings, names).Ok? && k < |mappings|
    requires target in mappings[k]
    ensures MatchNames(M, mappings[k], names).Ok?
    ensures CountOf(M, LeftNames(FusedOf(M, mappings, names).value.unmatched), target)
         == if target in MatchNames(M, mappings[k], names).value.left then 1 else 0
  {
    hide FusedOf, MatchNames, CountOf, LeftNames, Without, Matcher.Valid, DropsLeft;
    var taken := LeftNames(FusedOf(M, mappings, names).value.unmatched);
    var kept := Without(names, taken);
    LeftOfItsMapping(M, mappings, names, k);
    RerunWithoutLeft(M, mappings[k], names, taken);
    WithoutDistinct(names, taken);
    CountInSets(M, mappings[k], names, target);
    CountInSets(M, mappings[k], kept, target);
    forall n | n in taken
      ensures n in names
    {
      LeftAreNames(M, mappings, names, n);
    }
    assert NameSet(names) == NameSet(kept) + taken;
    CountAdds(M, NameSet(kept), taken, target);
  }

  /** What is taken out of a file is balanced only if it is nothing: a set that is not complete has one target and not another. */
  lemma {:induction false} TakenIsUnbalanced(M: Matcher, mappings: seq<seq<string>>, names: seq<string>)
    requires M.Valid() && Apart(M, mappings) && Distinct(names) && FusedOf(M, mappings, names).Ok?
    ensures var taken := LeftNames(FusedOf(M, mappings, names).value.unmatched);
            AllBalanced(M, mappings, taken) <==> taken == {}
  {
    hide FusedOf, MatchNames, CountOf, LeftNames, Matcher.Valid;
    var taken := LeftNames(FusedOf(M, mappings, names).value.unmatched);
    forall k, t | 0 <= k < |mappings| && t in mappings[k] && taken == {}
      ensures CountOf(M, taken, t) == 0
    {
      CountNone(M, t);
    }
    if n :| n in taken {
      UnmatchedAreLeft(M, mappings, names, n);
      var k :| 0 <= k < |mappings| && InSet(MatchNames(M, mappings[k], names).value.left, n);
      var left := MatchNames(M, mappings[k], names).value.left;
      MatchesInTurn(M, mappings[k], names);
      var t :| t in left && left[t] == n;
      var u :| u in mappings[k] && u !in left;
      CountTaken(M, mappings, names, k, t);
      CountTaken(M, mappings, names, k, u);
      assert !Balanced(M, mappings[k], taken);
    }
  }

  lemma {:induction false} BalancedAdds(M: Matcher, mappings: seq<seq<string>>, a: set<string>, b: set<string>)
    requires a !! b && AllBalanced(M, mappings, a)
    ensures AllBalanced(M, mappings, a + b) <==> AllBalanced(M, mappings, b)
  {
    hide CountOf;
    forall k | 0 <= k < |mappings|
      ensures Balanced(M, mappings[k], a + b) <==> Balanced(M, mappings[k], b)
    {
      forall t | t in mappings[k]
        ensures CountOf(M, a + b, t) == CountOf(M, a, t) + CountOf(M, b, t)
      {
        CountAdds(M, a, b, t);
      }
      assert Balanced(M, mappings[k], a);
    }
  }

  lemma {:induction false} StoredIsBalanced(M: Matcher, mappings: seq<seq<string>>, saved: seq<Saved>)
    requires Apart(M, mappings) && forall i :: 0 <= i < |saved| ==> NothingUnmatched(M, mappings, saved[i].names)
    requires forall i :: 0 <= i < |saved| ==> Exactly(saved[i].names, saved[i].tensors)
    requires forall i, j :: 0 <= i < j < |saved| ==> saved[i].tensors.Keys !! saved[j].tensors.Keys
    ensures AllBalanced(M, mappings, Stored(saved).Keys)
    decreases |saved|
  {
    hide AllBalanced, NothingUnmatched, Apart;
    if saved == [] {
      assert Stored(saved).Keys == {};
      NothingIsBalanced(M, mappings);
    } else {
      var front, last := saved[..|saved| - 1], saved[|saved| - 1];
      StoredIsBalanced(M, mappings, front);
      CompleteIsBalanced(M, mappings, last.names);
      assert NameSet(last.names) == last.tensors.Keys;
      StoredApart(front, last);
      BalancedAdds(M, mappings, Stored(front).Keys, last.tensors.Keys);
      assert Stored(saved).Keys == Stored(front).Keys + last.tensors.Keys;
    }
  }

  lemma {:induction false} NothingIsBalanced(M: Matcher, mappings: seq<seq<string>>)
    ensures AllBalanced(M, mappings, {})
  {
    forall k, t | 0 <= k < |mappings| && t in mappings[k]
      ensures CountOf(M, {}, t) == 0
    {
      CountNone(M, t);
    }
  }

  lemma {:induction false} StoredApart(saved: seq<Saved>, x: Saved)
    requires forall i :: 0 <= i < |saved| ==> saved[i].tensors.Keys !! x.tensors.Keys
    ensures Stored(saved).Keys !! x.tensors.Keys
    decreases |saved|
  {
    if saved != [] {
      StoredApart(saved[..|saved| - 1], x);
    }
  }

  lemma {:induction false} KeptIfNothingCarried(loaded: Tensors, saved: seq<Saved>, carry: Tensors)
    requires Conserved(loaded, saved, carry)
    ensures Stored(saved) == loaded <==> carry == map[]
  {
    if Stored(saved) == loaded {
      assert carry.Keys <= (Stored(saved) + carry).Keys;
      assert carry.Keys == {};
    }
  }

  /** All tensors are kept exactly when, for every mapping, its targets match equally many of the checkpoint's names. */
  lemma {:induction false} KeptIffBalanced(M: Matcher, mappings: seq<seq<string>>, loaded: Tensors, saved: seq<Saved>,
                                           carry: Tensors)
    requires Conserved(loaded, saved, carry) && Apart(M, mappings)
    requires forall i :: 0 <= i < |saved| ==> NothingUnmatched(M, mappings, saved[i].names)
    requires AllBalanced(M, mappings, carry.Keys) <==> carry == map[]
    ensures Stored(saved) == loaded <==> AllBalanced(M, mappings, loaded.Keys)
  {
    hide AllBalanced, NothingUnmatched, Apart, Exactly;
    KeptIfNothingCarried(loaded, saved, carry);
    StoredIsBalanced(M, mappings, saved);
    BalancedAdds(M, mappings, Stored(saved).Keys, carry.Keys);
    assert loaded.Keys == Stored(saved).Keys + carry.Keys;
  }

  // ----- Reindexing

  /** The names that the i-th file has to be matched on: its own and those carried over to it. */
  ghost function NamesAt(M: Matcher, mappings: seq<seq<string>>, sorted: set<string> -> seq<string>, files: seq<File>,
                         i: nat): seq<string>
    requires i < |files|
  {
    sorted((files[i].tensors + CarriedAfter(M, mappings, sorted, files[..i])).Keys)
  }

  /** Every name only matches targets that no other target of the mapping is behind. */
  ghost predicate FileOnTurn(M: Matcher, mappings: seq<seq<string>>, names: seq<string>) {
    forall k :: 0 <= k < |mappings| ==> AllOnTurn(M, mappings[k], NaturalSort(M, names), 0)
  }

  lemma {:induction false} FusedIffOnTurn(M: Matcher, mappings: seq<seq<string>>, names: seq<string>)
    requires forall k :: 0 <= k < |mappings| ==> mappings[k] != [] && Distinct(mappings[k])
    ensures FusedOf(M, mappings, names).Ok? <==> FileOnTurn(M, mappings, names)
    decreases |mappings|
  {
    hide MatchNames, AllOnTurn, NaturalSort;
    if mappings != [] {
      var front, last := mappings[..|mappings| - 1], mappings[|mappings| - 1];
      FusedIffOnTurn(M, front, names);
      MatchesInTurn(M, last, names);
      assert forall k :: 0 <= k < |front| ==> front[k] == mappings[k];
    }
  }

  /** What reindexing the files comes to. */
  ghost predicate IsReindexed(M: Matcher, mappings: seq<seq<string>>, sorted: set<string> -> seq<string>, files: seq<File>,
                              r: Reindexed) {
    && |r.saved| == |files| && (forall i :: 0 <= i < |files| ==> r.saved[i].name == files[i].name)
    && Conserved(Loaded(files), r.saved, r.carriedOver)
    && r.weightMap == EntriesOf(r.saved)
    && r.carriedOver == CarriedAfter(M, mappings, sorted, files)
    && (Apart(M, mappings) ==>
          forall i :: 0 <= i < |files| ==> NothingUnmatched(M, mappings, r.saved[i].names))
    && (Apart(M, mappings) ==> (Stored(r.saved) == Loaded(files) <==> AllBalanced(M, mappings, Loaded(files).Keys)))
  }

  /** Where reindexing stands before the i-th file. */
  ghost predicate Reindexing(M: Matcher, mappings: seq<seq<string>>, sorted: set<string> -> seq<string>, files: seq<File>,
                             i: nat, saved: seq<Saved>, weightMap: seq<Entry>, carry: Tensors)
    requires i <= |files|
  {
    && |saved| == i && (forall j :: 0 <= j < i ==> saved[j].name == files[j].name)
    && carry == CarriedAfter(M, mappings, sorted, files[..i])
    && Conserved(Loaded(files[..i]), saved, carry) && weightMap == EntriesOf(saved)
    && (Apart(M, mappings) ==> forall j :: 0 <= j < i ==> NothingUnmatched(M, mappings, saved[j].names))
    && (Apart(M, mappings) ==> (AllBalanced(M, mappings, carry.Keys) <==> carry == map[]))
    && (forall j :: 0 <= j < i ==> FileOnTurn(M, mappings, NamesAt(M, mappings, sorted, files, j)))
  }

  lemma {:induction false} ReindexingStarts(M: Matcher, mappings: seq<seq<string>>, sorted: set<string> -> seq<string>,
                                            files: seq<File>)
    ensures Reindexing(M, mappings, sorted, files, 0, [], [], map[])
  {
    hide AllBalanced;
    NothingSaved(files);
    NothingIsBalanced(M, mappings);
    var none: Tensors := map[];
    assert none.Keys == {};
  }

  lemma {:induction false} ReindexingNext(M: Matcher, mappings: seq<seq<string>>, sorted: set<string> -> seq<string>,
                                          files: seq<File>, i: nat, saved: seq<Saved>, weightMap: seq<Entry>, carry: Tensors)
    requires M.Valid() && Lists(sorted) && IsCheckpoint(files) && i < |files|
    requires forall k :: 0 <= k < |mappings| ==> mappings[k] != [] && Distinct(mappings[k])
    requires Reindexing(M, mappings, sorted, files, i, saved, weightMap, carry)
    requires FusedOf(M, mappings, sorted((files[i].tensors + carry).Keys)).Ok?
    ensures var names := sorted((files[i].tensors + carry).Keys);
            var s := Taken(files[i].tensors + carry, names, LeftNames(FusedOf(M, mappings, names).value.unmatched));
            Reindexing(M, mappings, sorted, files, i + 1, saved + [Saved(files[i].name, s.names, s.tensors)],
                       weightMap + FileEntries(s.names, files[i].name), s.carry)
  {
    hide Conserved, FusedOf, LeftNames, Apart, Matcher.Valid, Lists, NothingUnmatched, Exactly, SharesNothing, Without, Only,
      IsCheckpoint, Loaded, EntriesOf, AllBalanced, FileOnTurn;
    var file, tensors := files[i], files[i].tensors + carry;
    var names := sorted(tensors.Keys);
    ListsKeys(sorted, tensors);
    FusedIffOnTurn(M, mappings, names);
    UnmatchedInFile(M, mappings, names, tensors);
    var taken := LeftNames(FusedOf(M, mappings, names).value.unmatched);
    NextFile(files, i, saved, carry, names, taken);
    CarryUnbalanced(M, mappings, names, tensors);
    var s := Taken(tensors, names, taken);
    EntriesNext(saved, Saved(file.name, s.names, s.tensors));
    assert files[..i + 1][..i] == files[..i];
  }

  method ReindexFusedWeights(M: Matcher, mappings: seq<seq<string>>, sorted: set<string> -> seq<string>,
                             files: seq<File>)
    returns (r: Result<Reindexed>)
    requires M.Valid() && Lists(sorted) && IsCheckpoint(files)
    requires forall i :: 0 <= i < |mappings| ==> mappings[i] != [] && Distinct(mappings[i])
    ensures r.Ok? ==> IsReindexed(M, mappings, sorted, files, r.value)
    ensures Apart(M, mappings) ==>
              (r.Ok? <==> forall i :: 0 <= i < |files| ==> FileOnTurn(M, mappings, NamesAt(M, mappings, sorted, files, i)))
    ensures r.Err? && Apart(M, mappings) ==> r.error == MatchedTwice
  {
    hide Conserved, FusedOf, LeftNames, Apart, Matcher.Valid, Lists, SharesNothing, Without, Only, IsCheckpoint, Reindexing,
      FileOnTurn, CarriedAfter, IsReindexed;
    var carry: Tensors := map[];
    var saved: seq<Saved>, weightMap: seq<Entry> := [], [];
    ReindexingStarts(M, mappings, sorted, files);
    for i := 0 to |files|
      invariant Reindexing(M, mappings, sorted, files, i, saved, weightMap, carry)
    {
      var file := files[i];
      var tensors := file.tensors + carry;
      var names := sorted(tensors.Keys);
      ListsKeys(sorted, tensors);
      MatchedAt(M, mappings, sorted, files, i, saved, weightMap, carry);
      var fused := GetFusedNames(M, mappings, names);
      if fused.Err? {
        FusedError(M, mappings, names);
        return Err(fused.error);
      }
      UnmatchedInFile(M, mappings, names, tensors);
      var split := MoveUnmatched(tensors, names, fused.value.unmatched);
      if split.Err? {
        return Err(split.error);
      }
      ReindexingNext(M, mappings, sorted, files, i, saved, weightMap, carry);
      carry := split.value.carry;
      saved := saved + [Saved(file.name, split.value.names, split.value.tensors)];
      weightMap := weightMap + FileEntries(split.value.names, file.name);
    }
    ReindexingEnds(M, mappings, sorted, files, saved, weightMap, carry);
    r := Ok(Reindexed(saved, weightMap, carry));
  }

  lemma {:induction false} MatchedAt(M: Matcher, mappings: seq<seq<string>>, sorted: set<string> -> seq<string>,
                                     files: seq<File>, i: nat, saved: seq<Saved>, weightMap: seq<Entry>, carry: Tensors)
    requires forall k :: 0 <= k < |mappings| ==> mappings[k] != [] && Distinct(mappings[k])
    requires i < |files| && Reindexing(M, mappings, sorted, files, i, saved, weightMap, carry)
    ensures sorted((files[i].tensors + carry).Keys) == NamesAt(M, mappings, sorted, files, i)
    ensures FusedOf(M, mappings, sorted((files[i].tensors + carry).Keys)).Ok?
            <==> FileOnTurn(M, mappings, NamesAt(M, mappings, sorted, files, i))
  {
    FusedIffOnTurn(M, mappings, sorted((files[i].tensors + carry).Keys));
  }

  lemma {:induction false} ReindexingEnds(M: Matcher, mappings: seq<seq<string>>, sorted: set<string> -> seq<string>,
                                          files: seq<File>, saved: seq<Saved>, weightMap: seq<Entry>, carry: Tensors)
    requires Reindexing(M, mappings, sorted, files, |files|, saved, weightMap, carry)
    ensures IsReindexed(M, mappings, sorted, files, Reindexed(saved, weightMap, carry))
    ensures forall i :: 0 <= i < |files| ==> FileOnTurn(M, mappings, NamesAt(M, mappings, sorted, files, i))
  {
    hide Conserved, Apart, NothingUnmatched, Loaded, EntriesOf, AllBalanced, FileOnTurn, CarriedAfter;
    assert files[..|files|] == files;
    if Apart(M, mappings) {
      KeptIffBalanced(M, mappings, Loaded(files), saved, carry);
    }
  }

  lemma {:induction false} CarryUnbalanced(M: Matcher, mappings: seq<seq<string>>, names: seq<string>, tensors: Tensors)
    requires M.Valid() && Exactly(names, tensors) && FusedOf(M, mappings, names).Ok?
    requires LeftNames(FusedOf(M, mappings, names).value.unmatched) <= tensors.Keys
    ensures var carry := Only(tensors, LeftNames(FusedOf(M, mappings, names).value.unmatched));
            Apart(M, mappings) ==> (AllBalanced(M, mappings, carry.Keys) <==> carry == map[])
  {
    hide FusedOf, LeftNames, Apart, Matcher.Valid, AllBalanced;
    var taken := LeftNames(FusedOf(M, mappings, names).value.unmatched);
    if Apart(M, mappings) {
      TakenIsUnbalanced(M, mappings, names);
      assert Only(tensors, taken).Keys == taken;
    }
  }

  lemma {:induction false} NothingSaved(files: seq<File>)
    ensures Conserved(Loaded(files[..0]), [], map[]) && EntriesOf([]) == []
  {
  }

  lemma {:induction false} ListsKeys(sorted: set<string> -> seq<string>, tensors: Tensors)
    requires Lists(sorted)
    ensures Exactly(sorted(tensors.Keys), tensors)
  {
  }

  lemma {:induction false} FusedError(M: Matcher, mappings: seq<seq<string>>, names: seq<string>)
    requires FusedOf(M, mappings, names).Err?
    ensures FusedOf(M, mappings, names) == Err(MatchedTwice)
    decreases |mappings|
  {
    var front, last := mappings[..|mappings| - 1], mappings[|mappings| - 1];
    if FusedOf(M, front, names).Err? {
      FusedError(M, front, names);
    } else {
      MatchError(M, last, NaturalSort(M, names), Matched([], map[]));
    }
  }

  lemma {:induction false} MatchError(M: Matcher, targets: seq<string>, names: seq<string>, m: Matched)
    requires MatchOn(M, targets, names, m).Err?
    ensures MatchOn(M, targets, names, m) == Err(MatchedTwice)
    decreases |names|
  {
    var added := AddName(M, targets, m.left, names[0]);
    if added.Err? {
      AddErr(M, targets, m.left, names[0]);
    } else {
      MatchError(M, targets, names[1..], Next(targets, m.sets, added.value));
    }
  }

  /** What is taken out of a file is in it; when no name matches two mappings it is taken once, and nothing incomplete stays. */
  lemma {:induction false} UnmatchedInFile(M: Matcher, mappings: seq<seq<string>>, names: seq<string>, tensors: Tensors)
    requires M.Valid() && Exactly(names, tensors) && FusedOf(M, mappings, names).Ok?
    requires forall i :: 0 <= i < |mappings| ==> mappings[i] != [] && Distinct(mappings[i])
    ensures LeftNames(FusedOf(M, mappings, names).value.unmatched) <= tensors.Keys
    ensures Apart(M, mappings) ==>
              && SharesNothing(FusedOf(M, mappings, names).value.unmatched)
              && NothingUnmatched(M, mappings, Without(names, LeftNames(FusedOf(M, mappings, names).value.unmatched)))
  {
    hide FusedOf, LeftNames, Apart, Matcher.Valid, SharesNothing, Without;
    forall n | n in LeftNames(FusedOf(M, mappings, names).value.unmatched)
      ensures n in tensors
    {
      LeftAreNames(M, mappings, names, n);
    }
    if Apart(M, mappings) {
      UnmatchedShareNothing(M, mappings, names);
      RerunFused(M, mappings, names);
    }
  }

  lemma {:induction false} NextFile(files: seq<File>, i: nat, saved: seq<Saved>, carry: Tensors, names: seq<string>,
                                    taken: set<string>)
    requires IsCheckpoint(files) && i < |files| && Conserved(Loaded(files[..i]), saved, carry)
    requires Exactly(names, files[i].tensors + carry)
    ensures var s := Taken(files[i].tensors + carry, names, taken);
            Conserved(Loaded(files[..i + 1]), saved + [Saved(files[i].name, s.names, s.tensors)], s.carry)
  {
    hide Conserved, Exactly;
    LoadedHas(files, i, i);
    StillConserved(Loaded(files[..i]), files[i].tensors, saved, carry, files[i].name, names, taken);
    assert files[..i + 1][..i] == files[..i];
    assert Loaded(files[..i + 1]) == Loaded(files[..i]) + files[i].tensors;
  }

  lemma {:induction false} EntriesNext(saved: seq<Saved>, x: Saved)
    ensures EntriesOf(saved + [x]) == EntriesOf(saved) + FileEntries(x.names, x.name)
  {
    assert (saved + [x])[..|saved|] == saved;
  }

  // ----- The condition is needed

  const EXACT := Matcher((name, target) => name == target, (a, b) => true)

  /** A model whose only file holds q but not k. */
  function Lonely(): seq<File> {
    [File("model", map["q" := [1.0]])]
  }

  /** Reindexing it does not fail, and loses q. */
  lemma {:induction false} IncompleteLastSetIsLost(sorted: set<string> -> seq<string>)
    requires Lists(sorted)
    ensures EXACT.Valid() && IsCheckpoint(Lonely()) && Apart(EXACT, [["q", "k"]])
    ensures FileOnTurn(EXACT, [["q", "k"]], NamesAt(EXACT, [["q", "k"]], sorted, Lonely(), 0))
    ensures forall r :: IsReindexed(EXACT, [["q", "k"]], sorted, Lonely(), r) ==> Stored(r.saved) != Loaded(Lonely())
  {
    LonelyUnbalanced();
    NamesAtQ(sorted);
    QOnTurn();
    LonelyIsCheckpoint();
    hide Loaded, Lonely, NamesAt, Conserved, CarriedAfter, Stored, EntriesOf, NothingUnmatched, FileOnTurn, Lists, AllBalanced,
      Apart, IsCheckpoint, EXACT;
  }

  lemma {:induction false} LonelyIsCheckpoint()
    ensures EXACT.Valid() && IsCheckpoint(Lonely()) && Apart(EXACT, [["q", "k"]])
  {
  }

  lemma {:induction false} LonelyUnbalanced()
    ensures !AllBalanced(EXACT, [["q", "k"]], Loaded(Lonely()).Keys)
  {
    var files, mappings := Lonely(), [["q", "k"]];
    assert Loaded(files).Keys == {"q"} by {
      assert files[..0] == [];
    }
    hide CountOf, Loaded, Lonely;
    assert "q" in mappings[0] && "k" in mappings[0];
    CountOne(EXACT, "q", "q");
    CountOne(EXACT, "q", "k");
    assert !Balanced(EXACT, mappings[0], {"q"});
  }

  lemma {:induction false} QOnTurn()
    ensures FileOnTurn(EXACT, [["q", "k"]], ["q"])
  {
    assert NaturalSort(EXACT, ["q"]) == ["q"] by {
      assert ["q"][..0] == [];
    }
    hide NaturalSort;
    assert ["q"][..0] == [];
    assert forall t :: Matching(EXACT, [], t) == [];
  }

  lemma {:induction false} NamesAtQ(sorted: set<string> -> seq<string>)
    requires Lists(sorted)
    ensures NamesAt(EXACT, [["q", "k"]], sorted, Lonely(), 0) == ["q"]
  {
    var tensors: Tensors := map["q" := [1.0]];
    assert Lonely()[..0] == [];
    assert tensors + map[] == tensors && tensors.Keys == {"q"};
    OneKey(sorted(tensors.Keys), "q");
  }

  lemma {:induction false} OneKey(names: seq<string>, key: string)
    requires Distinct(names) && forall n :: n in names <==> n == key
    ensures names == [key]
  {
    DistinctSize(names);
    assert (set n | n in names) == {key};
    assert names[0] in names;
  }

  lemma {:induction false} DistinctSize(s: seq<string>)
    requires Distinct(s)
    ensures |set n | n in s| == |s|
    decreases |s|
  {
    if s == [] {
      assert (set n | n in s) == {};
    } else {
      var front, last := s[..|s| - 1], s[|s| - 1];
      DistinctSize(front);
      assert (set n | n in s) == (set n | n in front) + {last};
    }
  }

  // ----- The index, and its validation

  /** The tensors that the weight map puts into a file, in order. */
  function NamesIn(weightMap: seq<Entry>, file: string): seq<string> {
    if weightMap == [] then []
    else
      var before, last := NamesIn(weightMap[..|weightMap| - 1], file), weightMap[|weightMap| - 1];
      if last.file == file then before + [last.tensor] else before
  }

  method InvertMapping(weightMap: seq<Entry>) returns (inverse: map<string, seq<string>>)
    ensures forall f :: f in inverse <==> NamesIn(weightMap, f) != []
    ensures forall f :: f in inverse ==> inverse[f] == NamesIn(weightMap, f)
  {
    inverse := map[];
    for i := 0 to |weightMap|
      invariant forall f :: f in inverse <==> NamesIn(weightMap[..i], f) != []
      invariant forall f :: f in inverse ==> inverse[f] == NamesIn(weightMap[..i], f)
    {
      var key, value := weightMap[i].tensor, weightMap[i].file;
      assert weightMap[..i + 1][..i] == weightMap[..i];
      inverse := inverse[value := (if value in inverse then inverse[value] else []) + [key]];
    }
    assert weightMap[..|weightMap|] == weightMap;
  }

  /** No file of the index may hold an incomplete set. */
  method ValidateIndex(M: Matcher, mappings: seq<seq<string>>, weightMap: seq<Entry>) returns (valid: bool)
    ensures valid <==> forall f :: NamesIn(weightMap, f) != [] ==> NothingUnmatched(M, mappings, NamesIn(weightMap, f))
  {
    var fileMap := InvertMapping(weightMap);
    var rest := fileMap.Keys;
    while rest != {}
      invariant rest <= fileMap.Keys
      invariant forall f :: f in fileMap && f !in rest ==> NothingUnmatched(M, mappings, fileMap[f])
    {
      var file :| file in rest;
      var fused := GetFusedNames(M, mappings, fileMap[file]);
      if fused.Err? || |fused.value.unmatched| > 0 {
        assert NamesIn(weightMap, file) == fileMap[file];
        return false;
      }
      rest := rest - {file};
    }
    valid := true;
  }

  lemma {:induction false} NamesInAppend(a: seq<Entry>, names: seq<string>, name: string, file: string)
    ensures NamesIn(a + FileEntries(names, name), file) == NamesIn(a, file) + if file == name then names else []
    decreases |names|
  {
    var entries := FileEntries(names, name);
    if names == [] {
      assert a + entries == a;
    } else {
      var front := names[..|names| - 1];
      var before := FileEntries(front, name);
      assert (a + entries)[..|a + entries| - 1] == a + before;
      NamesInAppend(a, front, name, file);
      assert names == front + [names[|names| - 1]];
    }
  }

  /** Only the files saved are indexed, each with its own tensors in their order. */
  lemma {:induction false} IndexOfSaved(saved: seq<Saved>, file: string)
    requires forall i, j :: 0 <= i < j < |saved| ==> saved[i].name != saved[j].name
    ensures forall i :: 0 <= i < |saved| && saved[i].name == file ==> NamesIn(EntriesOf(saved), file) == saved[i].names
    ensures NamesIn(EntriesOf(saved), file) != [] ==> exists i :: 0 <= i < |saved| && saved[i].name == file
    decreases |saved|
  {
    if saved != [] {
      var front, last := saved[..|saved| - 1], saved[|saved| - 1];
      IndexOfSaved(front, file);
      assert saved == front + [last];
      EntriesNext(front, last);
      NamesInAppend(EntriesOf(front), last.names, last.name, file);
      hide EntriesOf, NamesIn;
      assert forall i :: 0 <= i < |front| ==> front[i] == saved[i];
      assert file == last.name ==> NamesIn(EntriesOf(front), file) == [];
    }
  }

  /** Validation accepts the index that reindexing writes. */
  lemma {:induction false} ReindexedIsValid(M: Matcher, mappings: seq<seq<string>>, files: seq<File>, saved: seq<Saved>)
    requires IsCheckpoint(files) && |saved| == |files|
    requires forall i :: 0 <= i < |files| ==>
               saved[i].name == files[i].name
    requires forall i :: 0 <= i < |files| ==> NothingUnmatched(M, mappings, saved[i].names)
    ensures forall f :: NamesIn(EntriesOf(saved), f) != [] ==> NothingUnmatched(M, mappings, NamesIn(EntriesOf(saved), f))
  {
    hide NothingUnmatched, EntriesOf, NamesIn;
    forall f | NamesIn(EntriesOf(saved), f) != []
      ensures NothingUnmatched(M, mappings, NamesIn(EntriesOf(saved), f))
    {
      IndexOfSaved(saved, f);
    }
  }
}
