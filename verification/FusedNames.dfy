/** Grouping the names of weights that must be quantized together. */
module FusedNames {
  import opened Collections

  datatype Error = MatchedTwice | MissingKey

  datatype Result<+T> = Ok(value: T) | Err(error: Error)

  /** Which names a target matches, and the order of natural sort keys, in which distinct names can be equal. */
  datatype Matcher = Matcher(matches: (string, string) -> bool, notAfter: (string, string) -> bool)
  {
    ghost predicate Valid() {
      && (forall a, b :: notAfter(a, b) || notAfter(b, a))
      && (forall a, b, c :: notAfter(a, b) && notAfter(b, c) ==> notAfter(a, c))
    }

    predicate Relevant(name: string, targets: seq<string>) {
      exists t :: t in targets && matches(name, t)
    }
  }

  // ----- The natural sort

  function Insert(M: Matcher, s: seq<string>, name: string): seq<string> {
    if s == [] || M.notAfter(s[|s| - 1], name) then s + [name]
    else Insert(M, s[..|s| - 1], name) + [s[|s| - 1]]
  }

  /** sorted(names, key=natural_key): stable. */
  function NaturalSort(M: Matcher, names: seq<string>): (s: seq<string>) {
    if names == [] then [] else Insert(M, NaturalSort(M, names[..|names| - 1]), names[|names| - 1])
  }

  ghost predicate IsSorted(M: Matcher, s: seq<string>) {
    forall i, j :: 0 <= i <= j < |s| ==> M.notAfter(s[i], s[j])
  }

  lemma {:induction false} InsertKeeps(M: Matcher, s: seq<string>, name: string)
    requires M.Valid() && IsSorted(M, s)
    ensures IsSorted(M, Insert(M, s, name)) && multiset(Insert(M, s, name)) == multiset(s) + multiset{name}
    ensures forall n :: n in Insert(M, s, name) <==> n in s || n == name
    decreases |s|
  {
    if s == [] || M.notAfter(s[|s| - 1], name) {
      LastIsNotBefore(M, s, name);
      SortedAppend(M, s, name);
    } else {
      var front, last := s[..|s| - 1], s[|s| - 1];
      assert s == front + [last];
      InsertKeeps(M, front, name);
      var inserted := Insert(M, front, name);
      forall n | n in inserted
        ensures M.notAfter(n, last)
      {
      }
      SortedAppend(M, inserted, last);
    }
  }

  lemma {:induction false} LastIsNotBefore(M: Matcher, s: seq<string>, name: string)
    requires M.Valid() && IsSorted(M, s) && (s == [] || M.notAfter(s[|s| - 1], name))
    ensures forall n :: n in s ==> M.notAfter(n, name)
  {
  }

  lemma {:induction false} SortedAppend(M: Matcher, s: seq<string>, last: string)
    requires M.Valid() && IsSorted(M, s) && forall n :: n in s ==> M.notAfter(n, last)
    ensures IsSorted(M, s + [last])
  {
    var all := s + [last];
    forall i, j | 0 <= i <= j < |all|
      ensures M.notAfter(all[i], all[j])
    {
      assert i < |s| ==> all[i] in s;
    }
  }

  lemma {:induction false} NaturalSortSorts(M: Matcher, names: seq<string>)
    requires M.Valid()
    ensures IsSorted(M, NaturalSort(M, names)) && multiset(NaturalSort(M, names)) == multiset(names)
    ensures forall n :: n in NaturalSort(M, names) <==> n in names
    decreases |names|
  {
    if names != [] {
      var front, last := names[..|names| - 1], names[|names| - 1];
      assert names == front + [last];
      NaturalSortSorts(M, front);
      InsertKeeps(M, NaturalSort(M, front), last);
    }
  }

  /** Neither of the names comes after the other. */
  predicate Tied(M: Matcher, a: string, b: string) {
    M.notAfter(a, b) && M.notAfter(b, a)
  }

  /** The names tied with x, in the order of the sequence. */
  function TiedWith(M: Matcher, s: seq<string>, x: string): seq<string> {
    if s == [] then []
    else TiedWith(M, s[..|s| - 1], x) + if Tied(M, s[|s| - 1], x) then [s[|s| - 1]] else []
  }

  lemma {:induction false} TiedAppend(M: Matcher, s: seq<string>, n: string, x: string)
    ensures TiedWith(M, s + [n], x) == TiedWith(M, s, x) + if Tied(M, n, x) then [n] else []
  {
    assert (s + [n])[..|s|] == s;
  }

  lemma {:induction false} InsertIsStable(M: Matcher, s: seq<string>, name: string, x: string)
    requires M.Valid()
    ensures TiedWith(M, Insert(M, s, name), x) == TiedWith(M, s + [name], x)
    decreases |s|
  {
    hide Tied;
    TiedAppend(M, s, name, x);
    if !(s == [] || M.notAfter(s[|s| - 1], name)) {
      var front, last := s[..|s| - 1], s[|s| - 1];
      InsertIsStable(M, front, name, x);
      TiedAppend(M, front, name, x);
      TiedAppend(M, Insert(M, front, name), last, x);
      NotBothTied(M, last, name, x);
    }
  }

  lemma {:induction false} NotBothTied(M: Matcher, a: string, b: string, x: string)
    requires M.Valid() && !M.notAfter(a, b)
    ensures !Tied(M, a, x) || !Tied(M, b, x)
  {
  }

  /** Names whose sort keys are equal stay in the order they had. */
  lemma {:induction false} NaturalSortIsStable(M: Matcher, names: seq<string>, x: string)
    requires M.Valid()
    ensures TiedWith(M, NaturalSort(M, names), x) == TiedWith(M, names, x)
    decreases |names|
  {
    if names != [] {
      var front, last := names[..|names| - 1], names[|names| - 1];
      NaturalSortIsStable(M, front, x);
      InsertIsStable(M, NaturalSort(M, front), last, x);
      TiedAppend(M, NaturalSort(M, front), last, x);
    }
  }

  ghost predicate SameTies(M: Matcher, s: seq<string>, t: seq<string>) {
    forall x: string :: TiedWith(M, s, x) == TiedWith(M, t, x)
  }

  lemma {:induction false} TiedMembers(M: Matcher, s: seq<string>, x: string)
    ensures forall n :: n in TiedWith(M, s, x) <==> n in s && Tied(M, n, x)
    decreases |s|
  {
    if s != [] {
      var front, last := s[..|s| - 1], s[|s| - 1];
      assert s == front + [last];
      TiedMembers(M, front, x);
    }
  }

  lemma {:induction false} LastInOther(M: Matcher, s: seq<string>, t: seq<string>)
    requires M.Valid() && IsSorted(M, t) && SameTies(M, s, t) && s != []
    ensures t != [] && M.notAfter(s[|s| - 1], t[|t| - 1])
  {
    var last := s[|s| - 1];
    TiedMembers(M, s, last);
    TiedMembers(M, t, last);
    assert last in TiedWith(M, s, last);
    assert last in t;
    var i :| 0 <= i < |t| && t[i] == last;
    assert M.notAfter(t[i], t[|t| - 1]);
  }

  lemma {:induction false} AppendCancels(s: seq<string>, x: string, t: seq<string>, y: string)
    requires s + [x] == t + [y]
    ensures s == t && x == y
  {
    assert |s| == |t| && (s + [x])[..|s|] == s && (t + [y])[..|s|] == t;
    assert (s + [x])[|s|] == x && (t + [y])[|s|] == y;
  }

  lemma {:induction false} LastIsSame(M: Matcher, s: seq<string>, x: string, t: seq<string>, y: string)
    requires M.Valid() && Tied(M, x, y) && SameTies(M, s + [x], t + [y])
    ensures x == y && SameTies(M, s, t)
  {
    hide TiedWith, Tied;
    forall z: string
      ensures TiedWith(M, s, z) == TiedWith(M, t, z) && (Tied(M, x, z) ==> x == y)
    {
      TiedAppend(M, s, x, z);
      TiedAppend(M, t, y, z);
      TiedAlike(M, x, y, z);
      var before, after := TiedWith(M, s, z), TiedWith(M, t, z);
      assert TiedWith(M, s + [x], z) == TiedWith(M, t + [y], z);
      if Tied(M, x, z) {
        AppendCancels(before, x, after, y);
      } else {
        assert before + [] == before && after + [] == after;
      }
    }
    TiedToItself(M, x);
    assert TiedWith(M, s, x) == TiedWith(M, t, x);
  }

  lemma {:induction false} TiedToItself(M: Matcher, x: string)
    requires M.Valid()
    ensures Tied(M, x, x)
  {
  }

  lemma {:induction false} TiedAlike(M: Matcher, x: string, y: string, z: string)
    requires M.Valid() && Tied(M, x, y)
    ensures Tied(M, x, z) <==> Tied(M, y, z)
  {
  }

  /** There is one such order: sorted, with names of equal keys as they were. */
  lemma {:induction false} StableOrderIsUnique(M: Matcher, s: seq<string>, t: seq<string>)
    requires M.Valid() && IsSorted(M, s) && IsSorted(M, t) && SameTies(M, s, t)
    ensures s == t
    decreases |s|
  {
    hide TiedWith;
    if s == [] {
      if t != [] {
        LastInOther(M, t, s);
      }
    } else {
      LastInOther(M, s, t);
      LastInOther(M, t, s);
      var front, before, x, y := s[..|s| - 1], t[..|t| - 1], s[|s| - 1], t[|t| - 1];
      assert s == front + [x] && t == before + [y];
      LastIsSame(M, front, x, before, y);
      StableOrderIsUnique(M, front, before);
    }
  }

  function Without(s: seq<string>, drop: set<string>): (r: seq<string>)
    ensures forall n :: n in r <==> n in s && n !in drop
    ensures |r| <= |s|
  {
    if s == [] then []
    else
      var front, last := s[..|s| - 1], s[|s| - 1];
      assert s == front + [last];
      if last in drop then Without(front, drop) else Without(front, drop) + [last]
  }

  lemma {:induction false} WithoutLast(s: seq<string>, last: string, drop: set<string>)
    ensures Without(s + [last], drop) == if last in drop then Without(s, drop) else Without(s, drop) + [last]
  {
    assert (s + [last])[..|s|] == s;
  }

  lemma {:induction false} InsertLast(M: Matcher, s: seq<string>, last: string, name: string)
    ensures Insert(M, s + [last], name)
         == if M.notAfter(last, name) then s + [last] + [name] else Insert(M, s, name) + [last]
  {
    assert (s + [last])[..|s|] == s;
  }

  lemma {:induction false} InsertWithout(M: Matcher, s: seq<string>, name: string, drop: set<string>)
    requires M.Valid() && IsSorted(M, s)
    ensures Without(Insert(M, s, name), drop)
         == if name in drop then Without(s, drop) else Insert(M, Without(s, drop), name)
    decreases |s|
  {
    if s == [] {
      WithoutLast([], name, drop);
    } else {
      var front, last := s[..|s| - 1], s[|s| - 1];
      assert s == front + [last];
      var kept := Without(s, drop);
      hide Without, Insert;
      InsertLast(M, front, last, name);
      if M.notAfter(last, name) {
        WithoutLast(s, name, drop);
        InsertAtEnd(M, s, name, drop);
      } else {
        InsertWithout(M, front, name, drop);
        WithoutLast(front, last, drop);
        WithoutLast(Insert(M, front, name), last, drop);
        InsertLast(M, Without(front, drop), last, name);
      }
    }
  }

  /** A name that goes at the end still does after others are left out. */
  lemma {:induction false} InsertAtEnd(M: Matcher, s: seq<string>, name: string, drop: set<string>)
    requires M.Valid() && IsSorted(M, s) && s != [] && M.notAfter(s[|s| - 1], name)
    ensures Insert(M, Without(s, drop), name) == Without(s, drop) + [name]
  {
    var kept := Without(s, drop);
    if kept != [] {
      assert kept[|kept| - 1] in kept;
    }
  }

  /** Sorting is stable, so it commutes with leaving names out. */
  lemma {:induction false} SortWithout(M: Matcher, names: seq<string>, drop: set<string>)
    requires M.Valid()
    ensures NaturalSort(M, Without(names, drop)) == Without(NaturalSort(M, names), drop)
    decreases |names|
  {
    if names != [] {
      var front, last := names[..|names| - 1], names[|names| - 1];
      SortWithout(M, front, drop);
      NaturalSortSorts(M, front);
      InsertWithout(M, NaturalSort(M, front), last, drop);
      if last !in drop {
        assert Without(names, drop)[..|Without(names, drop)| - 1] == Without(front, drop);
      }
    }
  }

  // ----- Matching greedily

  /** The name found so far for each target of the set being completed. */
  type NamesSet = map<string, string>

  predicate Full(current: NamesSet, targets: seq<string>) {
    forall t :: t in targets ==> t in current
  }

  /** The target loop: a name fills the slot of every target it matches, and none may be filled. */
  function AddName(M: Matcher, targets: seq<string>, current: NamesSet, name: string): Result<NamesSet> {
    if targets == [] then Ok(current)
    else
      var before := AddName(M, targets[..|targets| - 1], current, name);
      var t := targets[|targets| - 1];
      if before.Err? || !M.matches(name, t) then before
      else if t in before.value then Err(MatchedTwice)
      else Ok(before.value[t := name])
  }

  /** The complete sets, and the set that was not completed. */
  datatype Matched = Matched(sets: seq<NamesSet>, left: NamesSet)

  function MatchOn(M: Matcher, targets: seq<string>, names: seq<string>, m: Matched): Result<Matched>
  {
    if names == [] then Ok(m)
    else
      var added := AddName(M, targets, m.left, names[0]);
      if added.Err? then Err(added.error)
      else if Full(added.value, targets) then MatchOn(M, targets, names[1..], Matched(m.sets + [added.value], map[]))
      else MatchOn(M, targets, names[1..], Matched(m.sets, added.value))
  }

  function MatchNames(M: Matcher, targets: seq<string>, names: seq<string>): Result<Matched> {
    MatchOn(M, targets, NaturalSort(M, names), Matched([], map[]))
  }

  method MatchNamesSetEager(M: Matcher, names: seq<string>, targets: seq<string>) returns (r: Result<Matched>)
    ensures r == MatchNames(M, targets, names)
  {
    var matchedSets, matches: NamesSet := [], map[];
    var sorted := NaturalSort(M, names);
    for i := 0 to |sorted|
      invariant MatchNames(M, targets, names) == MatchOn(M, targets, sorted[i..], Matched(matchedSets, matches))
    {
      var name := sorted[i];
      ghost var added := AddName(M, targets, matches, name);
      ghost var before := matches;
      for j := 0 to |targets|
        invariant AddName(M, targets[..j], before, name) == Ok(matches)
      {
        var target := targets[j];
        assert targets[..j + 1][..j] == targets[..j];
        if M.matches(name, target) {
          if target in matches {
            AddFails(M, targets, before, name, j + 1);
            return Err(MatchedTwice);
          }
          matches := matches[target := name];
        }
      }
      assert targets[..|targets|] == targets;
      assert sorted[i..][1..] == sorted[i + 1..];
      if Full(matches, targets) {
        matchedSets, matches := matchedSets + [matches], map[];
      }
    }
    r := Ok(Matched(matchedSets, matches));
  }

  lemma {:induction false} AddFails(M: Matcher, targets: seq<string>, current: NamesSet, name: string, j: nat)
    requires j <= |targets| && AddName(M, targets[..j], current, name).Err?
    ensures AddName(M, targets, current, name) == Err(MatchedTwice)
    decreases |targets|
  {
    assert targets[..|targets|] == targets;
    if j < |targets| {
      var front := targets[..|targets| - 1];
      assert front[..j] == targets[..j];
      AddFails(M, front, current, name, j);
    } else {
      AddErr(M, targets, current, name);
    }
  }

  lemma {:induction false} AddErr(M: Matcher, targets: seq<string>, current: NamesSet, name: string)
    requires AddName(M, targets, current, name).Err?
    ensures AddName(M, targets, current, name) == Err(MatchedTwice)
    decreases |targets|
  {
    if targets != [] {
      var front := targets[..|targets| - 1];
      if AddName(M, front, current, name).Err? {
        AddErr(M, front, current, name);
      }
    }
  }

  // ----- What greedy matching computes

  lemma {:induction false} AddedNames(M: Matcher, targets: seq<string>, current: NamesSet, name: string)
    requires Distinct(targets)
    ensures var added := AddName(M, targets, current, name);
            && (added.Ok? <==> forall t :: t in targets && M.matches(name, t) ==> t !in current)
            && (added.Ok? ==>
                  forall t :: t in added.value <==> t in current || (t in targets && M.matches(name, t)))
            && (added.Ok? ==>
                  forall t :: t in added.value ==>
                    added.value[t] == if t in targets && M.matches(name, t) then name else current[t])
    decreases |targets|
  {
    if targets != [] {
      var front, last := targets[..|targets| - 1], targets[|targets| - 1];
      assert targets == front + [last];
      AddedNames(M, front, current, name);
      assert last !in front;
      var before := AddName(M, front, current, name);
      if before.Err? {
        var t :| t in front && M.matches(name, t) && t in current;
        assert t in targets;
      } else {
        assert forall t :: t in targets <==> t in front || t == last;
        assert last in before.value <==> last in current;
        hide AddName;
        AddedLast(M, front, last, current, name);
      }
    }
  }

  lemma {:induction false} AddedLast(M: Matcher, front: seq<string>, last: string, current: NamesSet, name: string)
    requires AddName(M, front, current, name).Ok?
    ensures AddName(M, front + [last], current, name) ==
            var before := AddName(M, front, current, name);
            if !M.matches(name, last) then before
            else if last in before.value then Err(MatchedTwice)
            else Ok(before.value[last := name])
  {
    assert (front + [last])[..|front|] == front;
  }

  /** The names that match a target, in order. */
  function Matching(M: Matcher, names: seq<string>, target: string): seq<string> {
    if names == [] then []
    else
      var before := Matching(M, names[..|names| - 1], target);
      if M.matches(names[|names| - 1], target) then before + [names[|names| - 1]] else before
  }

  /** What the sets hold for a target. */
  function Column(sets: seq<NamesSet>, target: string): (c: seq<string>)
    ensures |c| == |sets|
  {
    seq(|sets|, i requires 0 <= i < |sets| => if target in sets[i] then sets[i][target] else "")
  }

  function Slot(left: NamesSet, target: string): seq<string> {
    if target in left then [left[target]] else []
  }

  /** Every set but the last is complete, and the i-th set holds, for every target, the i-th name that matches it. */
  ghost predicate Grouped(M: Matcher, targets: seq<string>, names: seq<string>, m: Matched) {
    && (forall i :: 0 <= i < |m.sets| ==> m.sets[i].Keys == set t | t in targets)
    && (forall t :: t in m.left ==> t in targets)
    && !Full(m.left, targets)
    && (forall t :: t in targets ==> Matching(M, names, t) == Column(m.sets, t) + Slot(m.left, t))
  }

  /** The name only matches targets that no other target is behind. */
  ghost predicate OnTurn(M: Matcher, targets: seq<string>, before: seq<string>, name: string) {
    forall t, u :: t in targets && u in targets && M.matches(name, t) ==>
      |Matching(M, before, t)| <= |Matching(M, before, u)|
  }

  ghost predicate AllOnTurn(M: Matcher, targets: seq<string>, names: seq<string>, from: nat) {
    forall j :: from <= j < |names| ==> OnTurn(M, targets, names[..j], names[j])
  }

  lemma {:induction false} MatchingNext(M: Matcher, names: seq<string>, name: string, target: string)
    ensures Matching(M, names + [name], target)
         == if M.matches(name, target) then Matching(M, names, target) + [name] else Matching(M, names, target)
  {
    assert (names + [name])[..|names|] == names;
  }

  lemma {:induction false} AddsOnTurn(M: Matcher, targets: seq<string>, names: seq<string>, m: Matched, name: string)
    requires Distinct(targets) && Grouped(M, targets, names, m)
    ensures AddName(M, targets, m.left, name).Ok? <==> OnTurn(M, targets, names, name)
  {
    hide AddName, Matching;
    AddedNames(M, targets, m.left, name);
    assert forall t :: t in targets ==> |Matching(M, names, t)| == |m.sets| + if t in m.left then 1 else 0;
  }

  function Next(targets: seq<string>, sets: seq<NamesSet>, added: NamesSet): Matched {
    if Full(added, targets) then Matched(sets + [added], map[]) else Matched(sets, added)
  }

  lemma {:induction false} GroupedNext(M: Matcher, targets: seq<string>, names: seq<string>, m: Matched, name: string)
    requires Distinct(targets) && targets != [] && Grouped(M, targets, names, m)
             && AddName(M, targets, m.left, name).Ok?
    ensures Grouped(M, targets, names + [name], Next(targets, m.sets, AddName(M, targets, m.left, name).value))
  {
    hide AddName, Matching, Column;
    AddedNames(M, targets, m.left, name);
    var added := AddName(M, targets, m.left, name).value;
    var next := Next(targets, m.sets, added);
    assert targets[0] in targets;
    forall t | t in targets
      ensures Matching(M, names + [name], t) == Column(next.sets, t) + Slot(next.left, t)
    {
      MatchingNext(M, names, name, t);
      SlotNext(m, targets, added, t, M.matches(name, t), name);
    }
  }

  lemma {:induction false} SlotNext(m: Matched, targets: seq<string>, added: NamesSet, t: string, matches: bool,
                                    name: string)
    requires t in targets && (t in added <==> t in m.left || matches) && (matches ==> t !in m.left)
    requires t in added ==> added[t] == if matches then name else m.left[t]
    ensures var next := Next(targets, m.sets, added);
            Column(next.sets, t) + Slot(next.left, t) == Column(m.sets, t) + Slot(m.left, t) + if matches then [name] else []
  {
    assert Full(added, targets) ==> Column(m.sets + [added], t) == Column(m.sets, t) + [added[t]];
  }

  lemma {:induction false} MatchesFrom(M: Matcher, targets: seq<string>, names: seq<string>, k: nat, m: Matched)
    requires Distinct(targets) && targets != [] && k <= |names| && Grouped(M, targets, names[..k], m)
    ensures var r := MatchOn(M, targets, names[k..], m);
            && (r.Ok? <==> AllOnTurn(M, targets, names, k))
            && (r.Ok? ==> Grouped(M, targets, names, r.value))
    decreases |names| - k
  {
    hide Grouped, OnTurn, AddName, Matching, Full;
    if k == |names| {
      assert names[..k] == names;
    } else {
      AddsOnTurn(M, targets, names[..k], m, names[k]);
      assert names[k..][1..] == names[k + 1..] && names[k..][0] == names[k];
      if AddName(M, targets, m.left, names[k]).Ok? {
        GroupedNext(M, targets, names[..k], m, names[k]);
        assert names[..k + 1] == names[..k] + [names[k]];
        MatchesFrom(M, targets, names, k + 1, Next(targets, m.sets, AddName(M, targets, m.left, names[k]).value));
      }
    }
  }

  /**
    Matching succeeds exactly when every name, in natural order, only matches targets that no other target is behind; the i-th
    set then holds for each target the i-th name that matches it, so every name is in exactly the sets it should be in.
    */
  lemma {:induction false} MatchesInTurn(M: Matcher, targets: seq<string>, names: seq<string>)
    requires Distinct(targets) && targets != []
    ensures var sorted, r := NaturalSort(M, names), MatchNames(M, targets, names);
            && (r.Ok? <==> AllOnTurn(M, targets, sorted, 0))
            && (r.Ok? ==> Grouped(M, targets, sorted, r.value))
  {
    var sorted := NaturalSort(M, names);
    assert sorted[0..] == sorted && sorted[..0] == [];
    assert targets[0] in targets;
    var start := Matched([], map[]);
    assert Grouped(M, targets, [], start);
    hide Grouped, OnTurn, MatchOn, NaturalSort;
    MatchesFrom(M, targets, sorted, 0, start);
    assert MatchNames(M, targets, names) == MatchOn(M, targets, sorted[0..], start);
  }

  // ----- Leaving out the set that was not completed

  /** The names put into the set being completed. */
  ghost predicate InSet(current: NamesSet, name: string) {
    exists t :: t in current && current[t] == name
  }

  lemma {:induction false} AddedValues(M: Matcher, targets: seq<string>, current: NamesSet, name: string)
    requires Distinct(targets) && AddName(M, targets, current, name).Ok?
    ensures var added := AddName(M, targets, current, name).value;
            && (!M.Relevant(name, targets) ==> added == current)
            && (M.Relevant(name, targets) ==> InSet(added, name))
            && (forall n :: InSet(current, n) ==> InSet(added, n))
            && (forall n :: InSet(added, n) ==> InSet(current, n) || n == name)
  {
    hide AddName;
    AddedNames(M, targets, current, name);
    var added := AddName(M, targets, current, name).value;
    if M.Relevant(name, targets) {
      var t :| t in targets && M.matches(name, t);
      assert added[t] == name;
    }
    forall n | InSet(current, n)
      ensures InSet(added, n)
    {
      var t :| t in current && current[t] == n;
      assert added[t] == n;
    }
  }

  lemma {:induction false} Irrelevant(M: Matcher, targets: seq<string>, current: NamesSet, name: string)
    requires Distinct(targets) && !M.Relevant(name, targets)
    ensures AddName(M, targets, current, name) == Ok(current)
  {
    AddedNames(M, targets, current, name);
    AddedValues(M, targets, current, name);
  }

  /** Unless a set is completed, everything found stays in the last set; if one is, the last set has only later names. */
  lemma {:induction false} LeftComesFrom(M: Matcher, targets: seq<string>, names: seq<string>, m: Matched)
    requires Distinct(targets) && MatchOn(M, targets, names, m).Ok?
    ensures var r := MatchOn(M, targets, names, m).value;
            && |r.sets| >= |m.sets|
            && (|r.sets| == |m.sets| ==> r.sets == m.sets && forall n :: InSet(m.left, n) ==> InSet(r.left, n))
            && (|r.sets| > |m.sets| ==> forall n :: InSet(r.left, n) ==> n in names)
            && (forall n :: InSet(r.left, n) ==> InSet(m.left, n) || n in names)
    decreases |names|
  {
    if names != [] {
      hide AddName, InSet;
      AddedValues(M, targets, m.left, names[0]);
      var added := AddName(M, targets, m.left, names[0]).value;
      assert forall n :: n in names[1..] ==> n in names;
      assert names[0] in names;
      assert forall n :: !InSet(map[], n) by {
        NothingInEmpty();
      }
      LeftComesFrom(M, targets, names[1..], Next(targets, m.sets, added));
    }
  }

  lemma {:induction false} NothingInEmpty()
    ensures forall n :: !InSet(map[], n)
  {
  }

  function WithoutFront(s: seq<string>, drop: set<string>): seq<string> {
    if s == [] then [] else if s[0] in drop then WithoutFront(s[1..], drop) else [s[0]] + WithoutFront(s[1..], drop)
  }

  lemma {:induction false} Regroup(a: seq<string>, b: seq<string>, c: seq<string>)
    ensures a + (b + c) == (a + b) + c
  {
  }

  lemma {:induction false} WithoutFirst(first: string, s: seq<string>, drop: set<string>)
    ensures Without([first] + s, drop) == (if first in drop then [] else [first]) + Without(s, drop)
    decreases |s|
  {
    hide Without;
    var kept := if first in drop then [] else [first];
    if s == [] {
      WithoutLast([], first, drop);
      WithoutEmpty(drop);
      assert [first] + s == [] + [first];
    } else {
      var front, last := s[..|s| - 1], s[|s| - 1];
      assert s == front + [last];
      WithoutFirst(first, front, drop);
      WithoutLast([first] + front, last, drop);
      WithoutLast(front, last, drop);
      Regroup([first], front, [last]);
      Regroup(kept, Without(front, drop), [last]);
    }
  }

  lemma {:induction false} WithoutEmpty(drop: set<string>)
    ensures Without([], drop) == []
  {
  }

  lemma {:induction false} SameWithout(s: seq<string>, drop: set<string>)
    ensures WithoutFront(s, drop) == Without(s, drop)
    decreases |s|
  {
    if s != [] {
      SameWithout(s[1..], drop);
      WithoutFirst(s[0], s[1..], drop);
      assert s == [s[0]] + s[1..];
    }
  }

  /** dropped: of the names that match a target, those left in the last set. */
  ghost predicate DropsLeft(M: Matcher, targets: seq<string>, names: seq<string>, left: NamesSet, drop: set<string>) {
    forall n :: n in names && M.Relevant(n, targets) ==> (n in drop <==> InSet(left, n))
  }

  lemma {:induction false} RerunFrom(M: Matcher, targets: seq<string>, names: seq<string>, m: Matched,
                                     drop: set<string>)
    requires Distinct(targets) && targets != [] && Distinct(names) && !Full(m.left, targets)
    requires MatchOn(M, targets, names, m).Ok?
    requires DropsLeft(M, targets, names, MatchOn(M, targets, names, m).value.left, drop)
    ensures var all := MatchOn(M, targets, names, m).value.sets;
            MatchOn(M, targets, WithoutFront(names, drop), if |all| > |m.sets| then m else Matched(m.sets, map[]))
            == Ok(Matched(all, map[]))
    decreases |names|
  {
    if names != [] {
      var name, rest := names[0], names[1..];
      var r := MatchOn(M, targets, names, m).value;
      var added := AddName(M, targets, m.left, name).value;
      assert targets[0] in targets;
      assert name !in rest;
      var next := Next(targets, m.sets, added);
      assert MatchOn(M, targets, rest, next) == Ok(r);
      AddedValues(M, targets, m.left, name);
      LeftComesFrom(M, targets, rest, next);
      RerunFrom(M, targets, rest, next, drop);
      if !M.Relevant(name, targets) {
        Irrelevant(M, targets, map[], name);
      }
    }
  }

  lemma {:induction false} InsertDistinct(M: Matcher, s: seq<string>, name: string)
    requires Distinct(s) && name !in s
    ensures Distinct(Insert(M, s, name)) && forall n :: n in Insert(M, s, name) <==> n in s || n == name
    decreases |s|
  {
    if s != [] && !M.notAfter(s[|s| - 1], name) {
      var front, last := s[..|s| - 1], s[|s| - 1];
      assert s == front + [last];
      InsertDistinct(M, front, name);
      assert last !in Insert(M, front, name);
    }
  }

  lemma {:induction false} SortDistinct(M: Matcher, names: seq<string>)
    requires Distinct(names)
    ensures Distinct(NaturalSort(M, names)) && forall n :: n in NaturalSort(M, names) <==> n in names
    decreases |names|
  {
    if names != [] {
      var front, last := names[..|names| - 1], names[|names| - 1];
      assert names == front + [last];
      SortDistinct(M, front);
      InsertDistinct(M, NaturalSort(M, front), last);
    }
  }

  /** Without the names of the incomplete set, matching finds the same complete sets and nothing incomplete. */
  lemma {:induction false} RerunWithoutLeft(M: Matcher, targets: seq<string>, names: seq<string>, drop: set<string>)
    requires M.Valid() && Distinct(targets) && targets != [] && Distinct(names) && MatchNames(M, targets, names).Ok?
    requires DropsLeft(M, targets, names, MatchNames(M, targets, names).value.left, drop)
    ensures MatchNames(M, targets, Without(names, drop)) == Ok(Matched(MatchNames(M, targets, names).value.sets, map[]))
  {
    var sorted := NaturalSort(M, names);
    SortDistinct(M, names);
    SortWithout(M, names, drop);
    SameWithout(sorted, drop);
    assert targets[0] in targets;
    RerunFrom(M, targets, sorted, Matched([], map[]), drop);
  }

  /** Everything in the incomplete set matches one of its targets. */
  lemma {:induction false} LeftIsRelevant(M: Matcher, targets: seq<string>, names: seq<string>, n: string)
    requires Distinct(targets) && targets != [] && Distinct(names) && MatchNames(M, targets, names).Ok?
    requires InSet(MatchNames(M, targets, names).value.left, n)
    ensures n in names && M.Relevant(n, targets)
  {
    var sorted, r := NaturalSort(M, names), MatchNames(M, targets, names).value;
    SortDistinct(M, names);
    NothingInEmpty();
    LeftComesFrom(M, targets, sorted, Matched([], map[]));
    MatchesInTurn(M, targets, names);
    var t :| t in r.left && r.left[t] == n;
    assert Matching(M, sorted, t) == Column(r.sets, t) + [n];
    MatchingMatches(M, sorted, t, |r.sets|);
  }

  lemma {:induction false} MatchingMatches(M: Matcher, names: seq<string>, target: string, i: nat)
    requires i < |Matching(M, names, target)|
    ensures M.matches(Matching(M, names, target)[i], target)
    decreases |names|
  {
    var front := names[..|names| - 1];
    if i < |Matching(M, front, target)| {
      MatchingMatches(M, front, target, i);
    }
  }

  // ----- All the mappings

  datatype Fused = Fused(matched: seq<NamesSet>, unmatched: seq<NamesSet>)

  function FusedOf(M: Matcher, mappings: seq<seq<string>>, names: seq<string>): Result<Fused> {
    if mappings == [] then Ok(Fused([], []))
    else
      var before := FusedOf(M, mappings[..|mappings| - 1], names);
      if before.Err? then before
      else
        match MatchNames(M, mappings[|mappings| - 1], names)
        case Err(error) => Err(error)
        case Ok(m) =>
          Ok(Fused(before.value.matched + m.sets,
                   if m.left == map[] then before.value.unmatched else before.value.unmatched + [m.left]))
  }

  method GetFusedNames(M: Matcher, mappings: seq<seq<string>>, names: seq<string>) returns (r: Result<Fused>)
    ensures r == FusedOf(M, mappings, names)
  {
    var matched, unmatched := [], [];
    for i := 0 to |mappings|
      invariant FusedOf(M, mappings[..i], names) == Ok(Fused(matched, unmatched))
    {
      var m := MatchNamesSetEager(M, names, mappings[i]);
      assert mappings[..i + 1][..i] == mappings[..i];
      if m.Err? {
        FusedFails(M, mappings, names, i + 1);
        return Err(m.error);
      }
      matched := matched + m.value.sets;
      if m.value.left != map[] {
        unmatched := unmatched + [m.value.left];
      }
    }
    assert mappings[..|mappings|] == mappings;
    r := Ok(Fused(matched, unmatched));
  }

  lemma {:induction false} FusedFails(M: Matcher, mappings: seq<seq<string>>, names: seq<string>, j: nat)
    requires j <= |mappings| && FusedOf(M, mappings[..j], names).Err?
    ensures FusedOf(M, mappings, names) == FusedOf(M, mappings[..j], names)
    decreases |mappings|
  {
    if j < |mappings| {
      var front := mappings[..|mappings| - 1];
      assert front[..j] == mappings[..j];
      FusedFails(M, front, names, j);
    } else {
      assert mappings[..j] == mappings;
    }
  }

  lemma {:induction false} FusedOk(M: Matcher, mappings: seq<seq<string>>, names: seq<string>, i: nat)
    requires FusedOf(M, mappings, names).Ok? && i < |mappings|
    ensures MatchNames(M, mappings[i], names).Ok?
    decreases |mappings|
  {
    if i < |mappings| - 1 {
      FusedOk(M, mappings[..|mappings| - 1], names, i);
    }
  }

  function LeftNames(unmatched: seq<NamesSet>): (names: set<string>)
    ensures forall n :: n in names <==> exists i :: 0 <= i < |unmatched| && InSet(unmatched[i], n)
  {
    var names := set i, t | 0 <= i < |unmatched| && t in unmatched[i] :: unmatched[i][t];
    assert forall n :: n in names ==> exists i, t :: 0 <= i < |unmatched| && t in unmatched[i] && unmatched[i][t] == n;
    names
  }

  ghost predicate LeftAt(M: Matcher, targets: seq<string>, names: seq<string>, n: string) {
    MatchNames(M, targets, names).Ok? && InSet(MatchNames(M, targets, names).value.left, n)
  }

  ghost predicate LeftBySome(M: Matcher, mappings: seq<seq<string>>, names: seq<string>, n: string) {
    exists i :: 0 <= i < |mappings| && LeftAt(M, mappings[i], names, n)
  }

  lemma {:induction false} LeftBySomeAppend(M: Matcher, mappings: seq<seq<string>>, names: seq<string>, n: string)
    requires mappings != []
    ensures LeftBySome(M, mappings, names, n) <==>
            LeftBySome(M, mappings[..|mappings| - 1], names, n) || LeftAt(M, mappings[|mappings| - 1], names, n)
  {
    hide LeftAt;
    var front := mappings[..|mappings| - 1];
    if i :| 0 <= i < |front| && LeftAt(M, front[i], names, n) {
      assert mappings[i] == front[i];
    }
    if i :| 0 <= i < |front| && LeftAt(M, mappings[i], names, n) {
      assert front[i] == mappings[i];
    }
  }

  lemma {:induction false} UnmatchedLeftBySome(M: Matcher, mappings: seq<seq<string>>, names: seq<string>, n: string)
    requires FusedOf(M, mappings, names).Ok?
    ensures n in LeftNames(FusedOf(M, mappings, names).value.unmatched) <==> LeftBySome(M, mappings, names, n)
    decreases |mappings|
  {
    hide MatchNames, InSet, LeftNames;
    if mappings == [] {
      assert n !in LeftNames([]);
    } else {
      hide LeftBySome;
      var front, last := mappings[..|mappings| - 1], mappings[|mappings| - 1];
      UnmatchedLeftBySome(M, front, names, n);
      LeftBySomeAppend(M, mappings, names, n);
      UnmatchedGrows(FusedOf(M, front, names).value.unmatched, MatchNames(M, last, names).value.left, n);
    }
  }

  /** The names in incomplete sets are those left over by some mapping. */
  lemma {:induction false} UnmatchedAreLeft(M: Matcher, mappings: seq<seq<string>>, names: seq<string>, n: string)
    requires FusedOf(M, mappings, names).Ok?
    ensures forall i :: 0 <= i < |mappings| ==> MatchNames(M, mappings[i], names).Ok?
    ensures n in LeftNames(FusedOf(M, mappings, names).value.unmatched)
            <==> exists i :: 0 <= i < |mappings| && InSet(MatchNames(M, mappings[i], names).value.left, n)
  {
    hide FusedOf, MatchNames, InSet, LeftNames;
    forall i | 0 <= i < |mappings|
      ensures MatchNames(M, mappings[i], names).Ok?
    {
      FusedOk(M, mappings, names, i);
    }
    UnmatchedLeftBySome(M, mappings, names, n);
    assert LeftBySome(M, mappings, names, n) <==>
        exists i :: 0 <= i < |mappings| && InSet(MatchNames(M, mappings[i], names).value.left, n);
  }

  lemma {:induction false} UnmatchedGrows(before: seq<NamesSet>, left: NamesSet, n: string)
    ensures n in LeftNames(if left == map[] then before else before + [left]) <==> n in LeftNames(before) || InSet(left, n)
  {
    NothingInEmpty();
    var after := if left == map[] then before else before + [left];
    if InSet(left, n) {
      assert after[|before|] == left;
    }
    if i :| 0 <= i < |before| && InSet(before[i], n) {
      assert after[i] == before[i];
    }
  }

  /** Every mapping has targets, all different, and no name matches targets of two mappings. */
  ghost predicate Apart(M: Matcher, mappings: seq<seq<string>>) {
    && (forall i :: 0 <= i < |mappings| ==> mappings[i] != [] && Distinct(mappings[i]))
    && (forall i, j, n :: 0 <= i < j < |mappings| && M.Relevant(n, mappings[i]) ==> !M.Relevant(n, mappings[j]))
  }

  lemma {:induction false} LeftOfItsMapping(M: Matcher, mappings: seq<seq<string>>, names: seq<string>, j: nat)
    requires Apart(M, mappings) && Distinct(names) && FusedOf(M, mappings, names).Ok? && j < |mappings|
    ensures MatchNames(M, mappings[j], names).Ok?
    ensures DropsLeft(M, mappings[j], names, MatchNames(M, mappings[j], names).value.left,
                      LeftNames(FusedOf(M, mappings, names).value.unmatched))
  {
    hide FusedOf, MatchNames, LeftNames, InSet, Matcher.Relevant;
    FusedOk(M, mappings, names, j);
    forall n | n in names && M.Relevant(n, mappings[j])
      ensures n in LeftNames(FusedOf(M, mappings, names).value.unmatched)
              <==> InSet(MatchNames(M, mappings[j], names).value.left, n)
    {
      UnmatchedAreLeft(M, mappings, names, n);
      forall i | 0 <= i < |mappings| && InSet(MatchNames(M, mappings[i], names).value.left, n)
        ensures i == j
      {
        LeftIsRelevant(M, mappings[i], names, n);
      }
    }
  }

  lemma {:induction false} RerunPrefix(M: Matcher, mappings: seq<seq<string>>, names: seq<string>, j: nat)
    requires M.Valid() && Apart(M, mappings) && Distinct(names) && FusedOf(M, mappings, names).Ok? && j <= |mappings|
    ensures FusedOf(M, mappings[..j], names).Ok?
    ensures FusedOf(M, mappings[..j], Without(names, LeftNames(FusedOf(M, mappings, names).value.unmatched)))
         == Ok(Fused(FusedOf(M, mappings[..j], names).value.matched, []))
  {
    hide MatchNames, LeftNames;
    if FusedOf(M, mappings[..j], names).Err? {
      FusedFails(M, mappings, names, j);
    }
    if j > 0 {
      RerunPrefix(M, mappings, names, j - 1);
      assert mappings[..j][..j - 1] == mappings[..j - 1];
      LeftOfItsMapping(M, mappings, names, j - 1);
      RerunWithoutLeft(M, mappings[j - 1], names, LeftNames(FusedOf(M, mappings, names).value.unmatched));
    }
  }

  /** Matching what is left after the incomplete sets are taken away finds the same complete sets and nothing incomplete. */
  lemma {:induction false} RerunFused(M: Matcher, mappings: seq<seq<string>>, names: seq<string>)
    requires M.Valid() && Apart(M, mappings) && Distinct(names) && FusedOf(M, mappings, names).Ok?
    ensures var f := FusedOf(M, mappings, names).value;
            FusedOf(M, mappings, Without(names, LeftNames(f.unmatched))) == Ok(Fused(f.matched, []))
  {
    hide FusedOf;
    assert mappings[..|mappings|] == mappings;
    RerunPrefix(M, mappings, names, |mappings|);
  }

  /** No name is in two of the sets. */
  ghost predicate SharesNothing(unmatched: seq<NamesSet>) {
    forall i, j, n :: 0 <= i < j < |unmatched| && InSet(unmatched[i], n) ==> !InSet(unmatched[j], n)
  }

  lemma {:induction false} UnmatchedShareNothing(M: Matcher, mappings: seq<seq<string>>, names: seq<string>)
    requires Apart(M, mappings) && Distinct(names) && FusedOf(M, mappings, names).Ok?
    ensures SharesNothing(FusedOf(M, mappings, names).value.unmatched)
    decreases |mappings|
  {
    if mappings != [] {
      hide MatchNames, InSet, LeftNames, Matcher.Relevant;
      var front, last := mappings[..|mappings| - 1], |mappings| - 1;
      UnmatchedShareNothing(M, front, names);
      FusedOk(M, mappings, names, last);
      var before, left := FusedOf(M, front, names).value.unmatched, MatchNames(M, mappings[last], names).value.left;
      forall i, n | 0 <= i < |before| && InSet(before[i], n)
        ensures !InSet(left, n)
      {
        assert n in LeftNames(before);
        UnmatchedAreLeft(M, front, names, n);
        var k :| 0 <= k < |front| && InSet(MatchNames(M, front[k], names).value.left, n);
        assert front[k] == mappings[k];
        LeftIsRelevant(M, mappings[k], names, n);
        if InSet(left, n) {
          LeftIsRelevant(M, mappings[last], names, n);
          assert false;
        }
      }
    }
  }

  lemma {:induction false} LeftAreNames(M: Matcher, mappings: seq<seq<string>>, names: seq<string>, n: string)
    requires (forall i :: 0 <= i < |mappings| ==> mappings[i] != [] && Distinct(mappings[i])) && Distinct(names)
    requires FusedOf(M, mappings, names).Ok? && n in LeftNames(FusedOf(M, mappings, names).value.unmatched)
    ensures n in names
  {
    hide FusedOf, MatchNames, LeftNames, InSet;
    UnmatchedAreLeft(M, mappings, names, n);
    var k :| 0 <= k < |mappings| && InSet(MatchNames(M, mappings[k], names).value.left, n);
    LeftIsRelevant(M, mappings[k], names, n);
  }
}
