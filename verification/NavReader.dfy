/** Reading the printed navigation back: arrays whose items end in commas, strings, and tables of one key. */
module NavReader {
  import opened Collections
  import opened NavToml

  /** What is read, with the text after it. */
  datatype Parse<+T> = Parsed(value: T, rest: string) | Failed

  // ----- The reader

  function SkipBlanks(s: string): (rest: string)
    ensures |rest| <= |s|
  {
    if s != "" && (s[0] == ' ' || s[0] == '\n') then SkipBlanks(s[1..]) else s
  }

  /** What follows the next character, if that is c. */
  function Expect(s: string, c: char): (rest: Option<string>)
    ensures rest.Some? ==> |rest.value| < |s|
  {
    var t := SkipBlanks(s);
    if t != "" && t[0] == c then Some(t[1..]) else None
  }

  /** The characters of a basic string up to its closing quote; a backslash escapes a backslash or a quote. */
  function ReadChars(s: string): (p: Parse<string>)
    ensures p.Parsed? ==> |p.rest| < |s|
  {
    if s == "" then Failed
    else if s[0] == '"' then Parsed("", s[1..])
    else if s[0] == '\\' then
      if |s| == 1 || (s[1] != '\\' && s[1] != '"') then Failed else Before(s[1], ReadChars(s[2..]))
    else Before(s[0], ReadChars(s[1..]))
  }

  function Before(c: char, p: Parse<string>): Parse<string> {
    if p.Parsed? then Parsed([c] + p.value, p.rest) else Failed
  }

  function ReadQuoted(s: string): (p: Parse<string>)
    ensures p.Parsed? ==> |p.rest| < |s|
  {
    var inner := Expect(s, '"');
    if inner.None? then Failed else ReadChars(inner.value)
  }

  /** Items up to a closing bracket or the end of the text. */
  function ReadItems(s: string): (p: Parse<seq<Item>>)
    ensures p.Parsed? ==> |p.rest| <= |s|
    decreases |s|, 2
  {
    var t := SkipBlanks(s);
    if t == "" || t[0] == ']' then Parsed([], t)
    else
      var first := ReadItem(t);
      if first.Failed? then Failed
      else
        var others := ReadItems(first.rest);
        if others.Failed? then Failed else Parsed([first.value] + others.value, others.rest)
  }

  /** A page, or a table of one key, with the comma after it. */
  function ReadItem(s: string): (p: Parse<Item>)
    ensures p.Parsed? ==> |p.rest| < |s|
    decreases |s|, 1
  {
    var table := Expect(s, '{');
    var item := if table.Some? then ReadTable(table.value) else AsPage(ReadQuoted(s));
    if item.Failed? then Failed
    else
      var comma := Expect(item.rest, ',');
      if comma.None? then Failed else Parsed(item.value, comma.value)
  }

  function AsPage(path: Parse<string>): Parse<Item> {
    if path.Failed? then Failed else Parsed(Page(path.value), path.rest)
  }

  /** The title is the key; what it is mapped to is a path or an array of items. */
  function ReadTable(s: string): (p: Parse<Item>)
    ensures p.Parsed? ==> |p.rest| < |s|
    decreases |s|, 0
  {
    var title := ReadQuoted(s);
    var equals := if title.Parsed? then Expect(title.rest, '=') else None;
    if equals.None? then Failed
    else
      var list := Expect(equals.value, '[');
      var item := if list.Some? then AsSection(title.value, ReadItems(list.value))
                  else AsTitled(title.value, ReadQuoted(equals.value));
      var end := if item.Parsed? then Expect(item.rest, '}') else None;
      if end.None? then Failed else Parsed(item.value, end.value)
  }

  function AsTitled(title: string, path: Parse<string>): Parse<Item> {
    if path.Failed? then Failed else Parsed(Titled(title, path.value), path.rest)
  }

  function AsSection(title: string, items: Parse<seq<Item>>): Parse<Item> {
    var end := if items.Parsed? then Expect(items.rest, ']') else None;
    if end.None? then Failed else Parsed(Section(title, items.value), end.value)
  }

  /** nav = [...] */
  function ReadBlock(s: string): (p: Parse<seq<Item>>) {
    var bracket := MatchNav(s);
    var items := if bracket.Some? then ReadItems(bracket.value[1..]) else Failed;
    var end := if items.Parsed? then Expect(items.rest, ']') else None;
    if end.None? then Failed else Parsed(items.value, end.value)
  }

  // ----- Strings

  lemma {:induction false} ReadsOneMore(c: char, after: string, x: string, rest: string)
    requires ReadChars(after) == Parsed(x, rest)
    ensures ReadChars(EscapedChar(c) + after) == Parsed([c] + x, rest)
  {
    assert (EscapedChar(c) + after)[|EscapedChar(c)|..] == after;
  }

  lemma {:induction false} ReadsChars(x: string, rest: string)
    ensures ReadChars(EscapeToml(x) + ("\"" + rest)) == Parsed(x, rest)
    decreases |x|
  {
    var end := "\"" + rest;
    assert end[1..] == rest;
    if x == "" {
      assert EscapeToml(x) + end == end;
    } else {
      var c, others := x[0], x[1..];
      assert x == [c] + others;
      EscapeFirst(c, others);
      ReadsChars(others, rest);
      hide EscapeToml;
      var after := EscapeToml(others) + end;
      assert EscapeToml(x) + end == EscapedChar(c) + after;
      ReadsOneMore(c, after, others, rest);
    }
  }

  lemma {:induction false} ExpectNext(c: char, rest: string)
    requires c != ' ' && c != '\n'
    ensures Expect([c] + rest, c) == Expect(" " + ([c] + rest), c) == Some(rest)
    ensures forall d :: d != c ==> Expect([c] + rest, d) == Expect(" " + ([c] + rest), d) == None
  {
    assert ([c] + rest)[1..] == rest && (" " + ([c] + rest))[1..] == [c] + rest;
  }

  lemma {:induction false} ReadsQuoted(x: string, rest: string)
    ensures ReadQuoted(Quoted(x) + rest) == ReadQuoted(" " + (Quoted(x) + rest)) == Parsed(x, rest)
    ensures forall d :: d != '"' ==> Expect(Quoted(x) + rest, d) == Expect(" " + (Quoted(x) + rest), d) == None
  {
    var inner := EscapeToml(x) + ("\"" + rest);
    assert Quoted(x) + rest == ['"'] + inner;
    ExpectNext('"', inner);
    ReadsChars(x, rest);
  }

  lemma {:induction false} SkipIndent(n: nat, s: string)
    ensures SkipBlanks(Spaces(n) + s) == SkipBlanks(s)
  {
    if n == 0 {
      assert Spaces(0) + s == s;
    } else {
      SkipIndent(n - 1, " " + s);
      assert Spaces(n) + s == Spaces(n - 1) + (" " + s);
      assert (" " + s)[1..] == s;
    }
  }

  // ----- Items

  lemma {:induction false} SkipTwice(s: string)
    ensures SkipBlanks(SkipBlanks(s)) == SkipBlanks(s)
    ensures forall c :: Expect(SkipBlanks(s), c) == Expect(s, c)
    ensures ReadItem(SkipBlanks(s)) == ReadItem(s)
    decreases |s|
  {
    if s != "" && (s[0] == ' ' || s[0] == '\n') {
      SkipTwice(s[1..]);
    }
  }

  /** A table with the comma after it, indented. */
  lemma {:induction false} ReadsIndented(n: nat, s: string, item: Item, rest: string)
    requires ReadTable(s) == Parsed(item, [','] + rest)
    ensures ReadItem(Spaces(n) + (['{'] + s)) == Parsed(item, rest)
  {
    hide ReadTable, ReadQuoted;
    SkipIndent(n, ['{'] + s);
    SkipTwice(['{'] + s);
    ExpectNext('{', s);
    ExpectNext(',', rest);
  }

  lemma {:induction false} ReadsPage(n: nat, path: string, rest: string)
    ensures ReadItem(Spaces(n) + (Quoted(path) + ([','] + rest))) == Parsed(Page(path), rest)
  {
    hide ReadTable, ReadQuoted, Quoted, Expect;
    var s := Quoted(path) + ([','] + rest);
    SameStart(n, s);
    ReadsQuoted(path, [','] + rest);
    ExpectNext(',', rest);
  }

  lemma {:induction false} SameStart(n: nat, s: string)
    ensures forall c :: Expect(Spaces(n) + s, c) == Expect(s, c)
    ensures ReadQuoted(Spaces(n) + s) == ReadQuoted(s)
  {
    SkipIndent(n, s);
  }

  lemma {:induction false} ReadsTitled(title: string, path: string, rest: string)
    ensures ReadTable(" " + (Quoted(title) + (" " + (['='] + (" " + (Quoted(path) + (" " + (['}'] + rest))))))))
         == Parsed(Titled(title, path), rest)
  {
    hide ReadQuoted, Quoted, Expect, ReadItems;
    var end := " " + (['}'] + rest);
    var value := " " + (Quoted(path) + end);
    ReadsQuoted(title, " " + (['='] + value));
    ExpectNext('=', value);
    ReadsQuoted(path, end);
    ExpectNext('}', rest);
  }

  lemma {:induction false} ReadsSection(title: string, items: seq<Item>, inside: string, end: string, rest: string)
    requires ReadItems(inside) == Parsed(items, [']'] + end) && Expect(end, '}') == Some(rest)
    ensures ReadTable(" " + (Quoted(title) + (" " + (['='] + (" " + (['['] + inside)))))) == Parsed(Section(title, items), rest)
  {
    hide ReadQuoted, Quoted, Expect, ReadItems;
    var value := " " + (['['] + inside);
    ReadsQuoted(title, " " + (['='] + value));
    ExpectNext('=', value);
    ExpectNext('[', inside);
    ExpectNext(']', end);
  }

  lemma {:induction false} ItemThenItems(s: string, item: Item, others: seq<Item>, middle: string, rest: string)
    requires ReadItem(s) == Parsed(item, middle) && ReadItems(middle) == Parsed(others, rest)
    ensures ReadItems(s) == Parsed([item] + others, rest)
  {
    SkipTwice(s);
    assert SkipBlanks(s) != "" && SkipBlanks(s)[0] != ']' by {
      hide ReadTable, ReadChars;
    }
    hide ReadItem, SkipBlanks;
  }

  lemma {:induction false} BlankBefore(s: string)
    ensures ReadItems("\n" + s) == ReadItems(s)
  {
    hide ReadItem;
    assert ("\n" + s)[1..] == s;
  }

  // ----- The printed text in the order it is read

  lemma {:induction false} LinesFront(items: seq<Item>, indent: nat)
    requires items != []
    ensures Lines(items, indent) == ItemLines(items[0], indent) + Lines(items[1..], indent)
    decreases |items|
  {
    hide ItemLines;
    var n := |items| - 1;
    if n == 0 {
      assert items[1..] == [] && items[..0] == [];
    } else {
      LinesFront(items[..n], indent);
      assert items[..n][0] == items[0] && items[..n][1..] == items[1..][..n - 1] && items[1..][n - 1] == items[n];
    }
  }

  /** What stands between one item and the next. */
  function AfterItem(others: seq<Item>, indent: nat, rest: string): string {
    if others == [] then rest else "\n" + (NavToToml(others, indent) + rest)
  }

  lemma {:induction false} LinesPrinted(items: seq<Item>, indent: nat)
    ensures Lines(items, indent) == [] <==> items == []
  {
    if items != [] {
      NeutralItem(items[|items| - 1], indent);
      hide ItemLines;
    }
  }

  lemma {:induction false} NestedText(a: string, b: string, c: string, d: string)
    ensures a + b + c + d == a + (b + (c + d))
  {
  }

  lemma {:induction false} TextFront(items: seq<Item>, indent: nat, rest: string)
    requires items != []
    ensures NavToToml(items, indent) + rest == Join(ItemLines(items[0], indent)) + AfterItem(items[1..], indent, rest)
  {
    hide ItemLines, Lines, Neutral, Join;
    var others := items[1..];
    LinesFront(items, indent);
    NeutralItem(items[0], indent);
    LinesPrinted(others, indent);
    var lines := ItemLines(items[0], indent);
    if others == [] {
      assert lines + Lines(others, indent) == lines;
    } else {
      JoinAppend(lines, Lines(others, indent));
      NestedText(Join(lines), "\n", Join(Lines(others, indent)), rest);
    }
  }

  ghost predicate EndsList(rest: string) {
    SkipBlanks(rest) == "" || SkipBlanks(rest)[0] == ']'
  }

  /** Reading what is printed for one item gives it back. */
  lemma {:induction false} ReadsItem(item: Item, indent: nat, rest: string)
    ensures ReadItem(Join(ItemLines(item, indent)) + rest) == Parsed(item, rest)
    decreases item
  {
    hide Join, ReadItem, ReadItems, ReadTable, Quoted, Spaces;
    var prefix := Spaces(indent);
    match item
    case Page(path) =>
      JoinOne(prefix + Quoted(path) + ",");
      ReadsPage(indent, path, rest);
      assert prefix + Quoted(path) + "," + rest == prefix + (Quoted(path) + ([','] + rest));
    case Titled(title, path) =>
      JoinOne(prefix + "{ " + Quoted(title) + " = " + Quoted(path) + " },");
      ReadsTitled(title, path, [','] + rest);
      TitledText(prefix, Quoted(title), Quoted(path), rest);
      ReadsIndented(indent, " " + (Quoted(title) + (" " + (['='] + (" " + (Quoted(path) + (" " + (['}'] + ([','] + rest)))))))),
                    item, rest);
    case Section(title, items) =>
      if items == [] {
        ReadsEmptySection(indent, title, rest);
      } else {
        ReadsFullSection(indent, title, items, rest);
      }
  }

  lemma {:induction false} TitledText(prefix: string, title: string, path: string, rest: string)
    ensures prefix + "{ " + title + " = " + path + " }," + rest
         == prefix + (['{'] + (" " + (title + (" " + (['='] + (" " + (path + (" " + (['}'] + ([','] + rest))))))))))
  {
    assert "{ " == ['{'] + " " && " = " == " " + (['='] + " ") && " }," == " " + (['}'] + [',']);
  }

  lemma {:induction false} NothingInside(end: string)
    ensures ReadItems([']'] + end) == Parsed([], [']'] + end)
  {
  }

  lemma {:induction false} ReadsEmptySection(indent: nat, title: string, rest: string)
    ensures ReadItem(Join(ItemLines(Section(title, []), indent)) + rest) == Parsed(Section(title, []), rest)
  {
    hide Join, ReadItem, ReadItems, ReadTable, Quoted, Spaces, Expect;
    var prefix := Spaces(indent);
    var end := " " + (['}'] + ([','] + rest));
    var inside := [']'] + end;
    NothingInside(end);
    ExpectNext('}', [','] + rest);
    ReadsSection(title, [], inside, end, [','] + rest);
    JoinOne(prefix + "{ " + Quoted(title) + " = [] },");
    SectionText(prefix, Quoted(title), "] },", rest);
    assert "] }," + rest == inside;
    assert prefix + "{ " + Quoted(title) + " = [" + "] }," == prefix + "{ " + Quoted(title) + " = [] },";
    ReadsIndented(indent, " " + (Quoted(title) + (" " + (['='] + (" " + (['['] + inside))))), Section(title, []), rest);
  }

  lemma {:induction false} SectionText(prefix: string, title: string, inside: string, rest: string)
    ensures prefix + "{ " + title + " = [" + inside + rest
         == prefix + (['{'] + (" " + (title + (" " + (['='] + (" " + (['['] + (inside + rest))))))))
  {
    assert "{ " == ['{'] + " " && " = [" == " " + (['='] + (" " + ['[']));
  }

  lemma {:induction false} FullSectionText(line: string, body: string, prefix: string, rest: string)
    ensures "\n" + body + "\n" + (prefix + "]},") + rest
         == "\n" + (body + ("\n" + (prefix + ([']'] + (['}'] + ([','] + rest))))))
    ensures line + ("\n" + body + "\n" + (prefix + "]},")) == line + "\n" + body + "\n" + (prefix + "]},")
  {
    assert "]}," == [']'] + (['}'] + [',']);
  }

  lemma {:induction false} ReadsFullSection(indent: nat, title: string, items: seq<Item>, rest: string)
    requires items != []
    ensures ReadItem(Join(ItemLines(Section(title, items), indent)) + rest) == Parsed(Section(title, items), rest)
    decreases items, 1
  {
    hide Join, ReadItem, ReadItems, ReadTable, Quoted, Spaces;
    var prefix, body := Spaces(indent), NavToToml(items, indent + 4);
    var end := ['}'] + ([','] + rest);
    var after := "\n" + (prefix + ([']'] + end));
    ListEnds(indent, end);
    ReadsItems(items, indent + 4, after);
    BlankBefore(body + after);
    ExpectNext('}', [','] + rest);
    ReadsSection(title, items, "\n" + (body + after), end, [','] + rest);
    JoinThree(prefix + "{ " + Quoted(title) + " = [", body, prefix + "]},");
    SectionText(prefix, Quoted(title), "\n" + body + "\n" + (prefix + "]},"), rest);
    FullSectionText(prefix + "{ " + Quoted(title) + " = [", body, prefix, rest);
    ReadsIndented(indent, " " + (Quoted(title) + (" " + (['='] + (" " + (['['] + ("\n" + (body + after))))))),
                  Section(title, items), rest);
  }

  lemma {:induction false} ListEnds(indent: nat, end: string)
    ensures SkipBlanks("\n" + (Spaces(indent) + ([']'] + end))) == [']'] + end
  {
    SkipIndent(indent, [']'] + end);
    assert ("\n" + (Spaces(indent) + ([']'] + end)))[1..] == Spaces(indent) + ([']'] + end);
  }

  lemma {:induction false} ReadsNothing(indent: nat, rest: string)
    requires EndsList(rest)
    ensures NavToToml([], indent) + rest == rest && ReadItems(rest) == Parsed([], SkipBlanks(rest))
  {
    assert NavToToml([], indent) == "";
  }

  lemma {:induction false} ReadsOthers(others: seq<Item>, indent: nat, rest: string)
    requires EndsList(rest)
    ensures ReadItems(AfterItem(others, indent, rest)) == Parsed(others, SkipBlanks(rest))
    decreases others, 1
  {
    hide ReadItems, EndsList, SkipBlanks, NavToToml;
    ReadsNothing(indent, rest);
    if others != [] {
      ReadsItems(others, indent, rest);
      BlankBefore(NavToToml(others, indent) + rest);
    }
  }

  /** Reading what is printed for a list of items gives exactly that list back, whatever the indentation. */
  lemma {:induction false} ReadsItems(items: seq<Item>, indent: nat, rest: string)
    requires EndsList(rest)
    ensures ReadItems(NavToToml(items, indent) + rest) == Parsed(items, SkipBlanks(rest))
    decreases items, 0
  {
    hide ReadItems, ReadItem, NavToToml, ItemLines, Join, SkipBlanks, EndsList, AfterItem;
    if items == [] {
      ReadsNothing(indent, rest);
    } else {
      var tail := AfterItem(items[1..], indent, rest);
      ReadsItem(items[0], indent, tail);
      ReadsOthers(items[1..], indent, rest);
      TextFront(items, indent, rest);
      ItemThenItems(Join(ItemLines(items[0], indent)) + tail, items[0], items[1..], tail, SkipBlanks(rest));
      assert items == [items[0]] + items[1..];
    }
  }

  lemma {:induction false} InsideText(body: string, rest: string)
    ensures "\n" + body + "\n]" + rest == "\n" + (body + ("\n" + (Spaces(0) + ([']'] + rest))))
  {
    assert "\n]" == "\n" + ("" + [']']);
  }

  lemma {:induction false} ReadsInside(items: seq<Item>, rest: string)
    ensures ReadItems("\n" + NavToToml(items, 4) + "\n]" + rest) == Parsed(items, [']'] + rest)
  {
    hide ReadItems, NavToToml, SkipBlanks;
    var body := NavToToml(items, 4);
    var after := "\n" + (Spaces(0) + ([']'] + rest));
    ListEnds(0, rest);
    ReadsItems(items, 4, after);
    BlankBefore(body + after);
    InsideText(body, rest);
  }

  /** Reading a printed block gives the navigation back, with whatever follows the block. */
  lemma {:induction false} ReadsBlock(items: seq<Item>, rest: string)
    ensures ReadBlock(NavBlock(items) + rest) == Parsed(items, rest)
  {
    hide ReadItems, NavToToml, NavBlock, MatchNav, Expect;
    var inside := "\n" + NavToToml(items, 4) + "\n]" + rest;
    BlockMatches(items, rest);
    assert ("[\n" + NavToToml(items, 4) + "\n]" + rest)[1..] == inside;
    ReadsInside(items, rest);
    ExpectNext(']', rest);
  }

  /** What replaced the navigation of a configuration reads as the new navigation. */
  lemma {:induction false} ReplacedReadsBack(config: string, items: seq<Item>)
    requires Replace(config, NavBlock(items)).Config?
    ensures var text := Replace(config, NavBlock(items)).text;
            var start := FindNav(text, 0);
            start.Some? && ReadBlock(text[start.value..]).Parsed? && ReadBlock(text[start.value..]).value == items
  {
    hide FindNav, MatchNav, AfterClosing, ReadBlock, NavBlock;
    var start := FindNav(config, 0).value;
    var rest := AfterClosing(MatchNav(config[start..]).value, 0).value;
    FoundAgain(config, items, rest);
    SplitAgain(config[..start], NavBlock(items), rest);
    ReadsBlock(items, rest);
  }
}
