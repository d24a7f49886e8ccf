/** Printing the navigation tree as TOML, and finding the printed block again to replace it. */
module NavToml {
  import opened Collections

  // ----- Printing

  /** s.replace(c, put) for a single character. */
  function ReplaceChar(s: string, c: char, put: string): string {
    if s == "" then ""
    else ReplaceChar(s[..|s| - 1], c, put) + if s[|s| - 1] == c then put else [s[|s| - 1]]
  }

  function EscapeToml(s: string): string {
    ReplaceChar(ReplaceChar(s, '\\', "\\\\"), '\"', "\\\"")
  }

  /** A page, a titled page, or a titled list. */
  datatype Item = Page(path: string) | Titled(title: string, path: string) | Section(title: string, items: seq<Item>)

  function Spaces(n: nat): string {
    if n == 0 then "" else Spaces(n - 1) + " "
  }

  function Quoted(s: string): string {
    "\"" + EscapeToml(s) + "\""
  }

  function Join(lines: seq<string>): string {
    if lines == [] then ""
    else if |lines| == 1 then lines[0]
    else Join(lines[..|lines| - 1]) + "\n" + lines[|lines| - 1]
  }

  function NavToToml(items: seq<Item>, indent: nat): string
    decreases items, 1
  {
    Join(Lines(items, indent))
  }

  function Lines(items: seq<Item>, indent: nat): seq<string>
    decreases items, 0
  {
    if items == [] then []
    else
      var front, last := items[..|items| - 1], items[|items| - 1];
      assert |front| < |items|;
      Lines(front, indent) + ItemLines(last, indent)
  }

  function ItemLines(item: Item, indent: nat): seq<string>
    decreases item
  {
    var prefix := Spaces(indent);
    match item
    case Page(path) => [prefix + Quoted(path) + ","]
    case Titled(title, path) => [prefix + "{ " + Quoted(title) + " = " + Quoted(path) + " },"]
    case Section(title, items) =>
      if items == [] then [prefix + "{ " + Quoted(title) + " = [] },"]
      else [prefix + "{ " + Quoted(title) + " = [", NavToToml(items, indent + 4), prefix + "]},"]
  }

  function NavBlock(items: seq<Item>): string {
    "nav = [\n" + NavToToml(items, 4) + "\n]"
  }

  // ----- Scanning

  function SkipComment(s: string): (rest: string)
    ensures |rest| <= |s|
  {
    if s == "" || s[0] == '\n' then s else SkipComment(s[1..])
  }

  /** From inside a quoted string to its closing quote. */
  function SkipString(s: string, quote: char): (rest: string)
    ensures |rest| <= |s|
  {
    if s == "" || s[0] == quote then s
    else if s[0] == '\\' then (if |s| == 1 then "" else SkipString(s[2..], quote))
    else SkipString(s[1..], quote)
  }

  function Tail(s: string): (rest: string)
    ensures |rest| <= |s| && (s != "" ==> |rest| < |s|)
  {
    if s == "" then s else s[1..]
  }

  /** What follows the bracket that closes the innermost of depth open ones and all around it. */
  function AfterClosing(s: string, depth: int): Option<string>
    decreases |s|
  {
    if s == "" then None
    else if s[0] == '[' then AfterClosing(s[1..], depth + 1)
    else if s[0] == ']' then (if depth == 1 then Some(s[1..]) else AfterClosing(s[1..], depth - 1))
    else if s[0] == '#' then AfterClosing(Tail(SkipComment(s)), depth)
    else if s[0] == '\"' || s[0] == '\'' then AfterClosing(Tail(SkipString(s[1..], s[0])), depth)
    else AfterClosing(s[1..], depth)
  }

  // ----- What is printed does not disturb the scanner

  /** Scanning over t, inside some bracket, leaves the depth as it was. */
  ghost predicate Neutral(t: string) {
    forall rest: string, depth: int :: depth >= 1 ==> AfterClosing(t + rest, depth) == AfterClosing(rest, depth)
  }

  predicate Plain(c: char) {
    c != '[' && c != ']' && c != '#' && c != '"' && c != '\''
  }

  lemma {:induction false} NeutralAppend(a: string, b: string)
    requires Neutral(a) && Neutral(b)
    ensures Neutral(a + b)
  {
    forall rest: string, depth: int | depth >= 1
      ensures AfterClosing(a + b + rest, depth) == AfterClosing(rest, depth)
    {
      assert a + b + rest == a + (b + rest);
    }
  }

  lemma {:induction false} NeutralEmpty()
    ensures Neutral("")
  {
    forall rest: string, depth: int | depth >= 1
      ensures AfterClosing("" + rest, depth) == AfterClosing(rest, depth)
    {
      assert "" + rest == rest;
    }
  }

  lemma {:induction false} NeutralPlain(t: string)
    requires forall k :: 0 <= k < |t| ==> Plain(t[k])
    ensures Neutral(t)
    decreases |t|
  {
    if t == "" {
      NeutralEmpty();
    } else {
      NeutralPlain(t[1..]);
      forall rest: string, depth: int | depth >= 1
        ensures AfterClosing(t + rest, depth) == AfterClosing(rest, depth)
      {
        assert (t + rest)[1..] == t[1..] + rest;
        assert Plain(t[0]);
      }
    }
  }

  lemma {:induction false} NeutralBrackets(t: string)
    requires Neutral(t)
    ensures Neutral("[" + t + "]")
  {
    forall rest: string, depth: int | depth >= 1
      ensures AfterClosing("[" + t + "]" + rest, depth) == AfterClosing(rest, depth)
    {
      assert ("[" + t + "]" + rest)[1..] == t + ("]" + rest);
      assert ("]" + rest)[1..] == rest;
      assert AfterClosing(t + ("]" + rest), depth + 1) == AfterClosing("]" + rest, depth + 1);
    }
  }

  /** What escaping makes of one character. */
  function EscapedChar(c: char): string {
    if c == '\\' then "\\\\" else if c == '"' then "\\\"" else [c]
  }

  lemma {:induction false} ReplaceAppend(a: string, b: string, c: char, put: string)
    ensures ReplaceChar(a + b, c, put) == ReplaceChar(a, c, put) + ReplaceChar(b, c, put)
    decreases |b|
  {
    if b == "" {
      assert a + b == a;
    } else {
      var front := b[..|b| - 1];
      assert (a + b)[..|a + b| - 1] == a + front;
      ReplaceAppend(a, front, c, put);
    }
  }

  /** Backslashes are escaped before quotes are, so escaping works character by character. */
  lemma {:induction false} EscapeFirst(c: char, s: string)
    ensures EscapeToml([c] + s) == EscapedChar(c) + EscapeToml(s)
  {
    ReplaceAppend([c], s, '\\', "\\\\");
    var first := if c == '\\' then "\\\\" else [c];
    assert ReplaceChar([c], '\\', "\\\\") == first by {
      assert [c][..0] == "";
    }
    ReplaceAppend(first, ReplaceChar(s, '\\', "\\\\"), '"', "\\\"");
    OneReplaced(c);
  }

  lemma {:induction false} OneReplaced(c: char)
    ensures ReplaceChar(if c == '\\' then "\\\\" else [c], '"', "\\\"") == EscapedChar(c)
  {
    if c == '\\' {
      assert "\\\\"[..1] == "\\" && "\\"[..0] == "";
      assert ReplaceChar("\\", '"', "\\\"") == "\\";
    } else {
      assert [c][..0] == "";
    }
  }

  /** An escaped string ends at its own closing quote and no earlier. */
  lemma {:induction false} SkipsEscaped(s: string, rest: string)
    ensures SkipString(EscapeToml(s) + "\"" + rest, '"') == "\"" + rest
    decreases |s|
  {
    if s == "" {
      assert EscapeToml(s) + "\"" + rest == "\"" + rest;
    } else {
      var c, others := s[0], s[1..];
      assert s == [c] + others;
      EscapeFirst(c, others);
      SkipsEscaped(others, rest);
      var after := EscapeToml(others) + "\"" + rest;
      assert EscapeToml(s) + "\"" + rest == EscapedChar(c) + after;
      assert (EscapedChar(c) + after)[|EscapedChar(c)|..] == after;
    }
  }

  lemma {:induction false} NeutralQuoted(s: string)
    ensures Neutral(Quoted(s))
  {
    forall rest: string, depth: int | depth >= 1
      ensures AfterClosing(Quoted(s) + rest, depth) == AfterClosing(rest, depth)
    {
      assert (Quoted(s) + rest)[1..] == EscapeToml(s) + "\"" + rest;
      SkipsEscaped(s, rest);
      assert ("\"" + rest)[1..] == rest;
    }
  }

  lemma {:induction false} SpacesPlain(n: nat)
    ensures forall k :: 0 <= k < |Spaces(n)| ==> Plain(Spaces(n)[k])
  {
    if n > 0 {
      SpacesPlain(n - 1);
    }
  }

  lemma {:induction false} JoinAppend(a: seq<string>, b: seq<string>)
    requires a != [] && b != []
    ensures Join(a + b) == Join(a) + "\n" + Join(b)
    decreases |b|
  {
    assert (a + b)[..|a + b| - 1] == a + b[..|b| - 1];
    if |b| == 1 {
      assert a + b[..0] == a;
    } else {
      JoinAppend(a, b[..|b| - 1]);
    }
  }

  lemma {:induction false} JoinThree(a: string, b: string, c: string)
    ensures Join([a, b, c]) == a + "\n" + b + "\n" + c
  {
    assert [a, b, c][..2] == [a, b];
    assert [a, b][..1] == [a];
    assert Join([a, b]) == a + "\n" + b;
  }

  /** Strings joined from neutral ones and from a bracketed one. */
  lemma {:induction false} NeutralThree(a: string, b: string, c: string)
    requires Neutral(a) && Neutral(b) && Neutral(c)
    ensures Neutral(a + b + c)
  {
    NeutralAppend(a, b);
    NeutralAppend(a + b, c);
  }

  lemma {:induction false} NeutralItem(item: Item, indent: nat)
    ensures ItemLines(item, indent) != [] && Neutral(Join(ItemLines(item, indent)))
    decreases item
  {
    hide Neutral, Quoted, NavToToml;
    var prefix := Spaces(indent);
    SpacesPlain(indent);
    NeutralPlain(prefix);
    match item
    case Page(path) =>
      NeutralPage(prefix, path);
      JoinOne(prefix + Quoted(path) + ",");
    case Titled(title, path) =>
      NeutralTitled(prefix, title, path);
      JoinOne(prefix + "{ " + Quoted(title) + " = " + Quoted(path) + " },");
    case Section(title, items) =>
      if items == [] {
        NeutralEmptySection(prefix, title);
        JoinOne(prefix + "{ " + Quoted(title) + " = [] },");
      } else {
        NeutralTitle(prefix, title);
        NeutralLines(items, indent + 4);
        var head := prefix + "{ " + Quoted(title) + " = ";
        hide Join;
        NeutralSection(prefix, head, NavToToml(items, indent + 4));
        OpenBracket(prefix + "{ " + Quoted(title));
      }
  }

  lemma {:induction false} OpenBracket(s: string)
    ensures s + " = [" == s + " = " + "["
  {
  }

  lemma {:induction false} JoinOne(line: string)
    ensures Join([line]) == line
  {
    assert [line][..0] == [];
  }

  lemma {:induction false} NeutralPage(prefix: string, path: string)
    requires Neutral(prefix)
    ensures Neutral(prefix + Quoted(path) + ",")
  {
    hide Neutral, Quoted;
    NeutralQuoted(path);
    NeutralPlain(",");
    NeutralThree(prefix, Quoted(path), ",");
  }

  lemma {:induction false} NeutralTitled(prefix: string, title: string, path: string)
    requires Neutral(prefix)
    ensures Neutral(prefix + "{ " + Quoted(title) + " = " + Quoted(path) + " },")
  {
    hide Neutral, Quoted;
    NeutralTitle(prefix, title);
    NeutralQuoted(path);
    NeutralPlain(" },");
    NeutralThree(prefix + "{ " + Quoted(title) + " = ", Quoted(path), " },");
  }

  lemma {:induction false} NeutralEmptySection(prefix: string, title: string)
    requires Neutral(prefix)
    ensures Neutral(prefix + "{ " + Quoted(title) + " = [] },")
  {
    hide Neutral, Quoted;
    NeutralTitle(prefix, title);
    NeutralEmpty();
    NeutralBrackets("");
    NeutralPlain(" },");
    var head := prefix + "{ " + Quoted(title);
    NeutralThree(head + " = ", "[" + "" + "]", " },");
    assert head + " = " + ("[" + "" + "]") + " }," == head + " = [] },";
  }

  lemma {:induction false} NeutralTitle(prefix: string, title: string)
    requires Neutral(prefix)
    ensures Neutral(prefix + "{ " + Quoted(title) + " = ")
  {
    hide Neutral;
    NeutralPlain("{ ");
    NeutralPlain(" = ");
    NeutralQuoted(title);
    NeutralThree(prefix, "{ ", Quoted(title));
    NeutralAppend(prefix + "{ " + Quoted(title), " = ");
  }

  lemma {:induction false} NeutralSection(prefix: string, head: string, body: string)
    requires Neutral(prefix) && Neutral(head) && Neutral(body)
    ensures Neutral(Join([head + "[", body, prefix + "]},"]))
  {
    hide Neutral;
    NeutralPlain("\n");
    NeutralPlain("},");
    NeutralThree("\n", body, "\n");
    NeutralAppend("\n" + body + "\n", prefix);
    NeutralBrackets("\n" + body + "\n" + prefix);
    NeutralThree(head, "[" + ("\n" + body + "\n" + prefix) + "]", "},");
    JoinThree(head + "[", body, prefix + "]},");
    assert head + "[" + "\n" + body + "\n" + (prefix + "]},") == head + ("[" + ("\n" + body + "\n" + prefix) + "]") + "},";
  }

  lemma {:induction false} NeutralLines(items: seq<Item>, indent: nat)
    ensures Neutral(NavToToml(items, indent))
    decreases items, 0
  {
    hide Neutral;
    if items == [] {
      NeutralEmpty();
    } else {
      var front, last := items[..|items| - 1], items[|items| - 1];
      NeutralItem(last, indent);
      NeutralLines(front, indent);
      var before, lines := Lines(front, indent), ItemLines(last, indent);
      if before == [] {
        assert before + lines == lines;
      } else {
        JoinAppend(before, lines);
        NeutralPlain("\n");
        NeutralThree(Join(before), "\n", Join(lines));
      }
    }
  }

  /** Scanning from the bracket that opens a printed block stops right after the bracket that closes it. */
  lemma {:induction false} BlockCloses(items: seq<Item>, rest: string)
    ensures AfterClosing("[\n" + NavToToml(items, 4) + "\n]" + rest, 0) == Some(rest)
  {
    var body := "\n" + NavToToml(items, 4) + "\n";
    assert Neutral(body) by {
      NeutralLines(items, 4);
      NeutralPlain("\n");
      NeutralThree("\n", NavToToml(items, 4), "\n");
    }
    var all := "[\n" + NavToToml(items, 4) + "\n]" + rest;
    assert all[1..] == body + ("]" + rest);
    assert AfterClosing(body + ("]" + rest), 1) == AfterClosing("]" + rest, 1);
    assert ("]" + rest)[1..] == rest;
  }

  // ----- Finding the block

  predicate IsSpace(c: char) {
    || c == ' ' || '\t' <= c <= '\r' || '\U{1C}' <= c <= '\U{1F}' || c == '\U{85}' || c == '\U{A0}' || c == '\U{1680}'
    || '\U{2000}' <= c <= '\U{200A}' || c == '\U{2028}' || c == '\U{2029}' || c == '\U{202F}' || c == '\U{205F}'
    || c == '\U{3000}'
  }

  function SkipSpaces(s: string): (rest: string)
    ensures |rest| <= |s|
  {
    if s != "" && IsSpace(s[0]) then SkipSpaces(s[1..]) else s
  }

  /** nav\s*=\s*\[ at the start of s: what follows before the bracket. */
  function MatchNav(s: string): (m: Option<string>)
    ensures m.Some? ==> |m.value| < |s| && m.value != "" && m.value[0] == '['
  {
    if |s| < 3 || s[..3] != "nav" then None
    else
      var equals := SkipSpaces(s[3..]);
      if equals == "" || equals[0] != '=' then None
      else
        var bracket := SkipSpaces(equals[1..]);
        if bracket == "" || bracket[0] != '[' then None else Some(bracket)
  }

  predicate LineStart(s: string, i: nat) {
    i == 0 || (i <= |s| && s[i - 1] == '\n')
  }

  /** Whether a line that starts at i starts with nav = [ */
  predicate NavAt(s: string, i: nat) {
    i < |s| && LineStart(s, i) && MatchNav(s[i..]).Some?
  }

  /** The first place at or after i where a line starts with nav = [ */
  function FindNav(s: string, i: nat): (start: Option<nat>)
    requires i <= |s|
    ensures start.Some? ==> i <= start.value && NavAt(s, start.value) && forall j :: i <= j < start.value ==> !NavAt(s, j)
    ensures start.None? ==> forall j :: i <= j < |s| ==> !NavAt(s, j)
    decreases |s| - i
  {
    if i == |s| then None
    else if NavAt(s, i) then Some(i)
    else FindNav(s, i + 1)
  }

  datatype Replaced = Config(text: string) | NoNav | NoClosing

  /** The specification of replacing: cut from the match to the closing bracket. */
  function Replace(config: string, block: string): Replaced {
    var start := FindNav(config, 0);
    if start.None? then NoNav
    else
      var rest := AfterClosing(MatchNav(config[start.value..]).value, 0);
      if rest.None? then NoClosing else Config(config[..start.value] + block + rest.value)
  }

  /** What is left of s at a position, which a backslash at the very end can put past it. */
  function From(s: string, pos: nat): string {
    if pos <= |s| then s[pos..] else ""
  }

  lemma {:induction false} FromNext(s: string, pos: nat)
    requires pos < |s|
    ensures From(s, pos) != "" && From(s, pos)[0] == s[pos]
            && From(s, pos)[1..] == From(s, pos + 1) == Tail(From(s, pos))
    ensures |From(s, pos)| > 1 ==> From(s, pos)[2..] == From(s, pos + 2)
    ensures |From(s, pos)| == 1 ==> From(s, pos + 1) == From(s, pos + 2) == ""
  {
  }

  /** The inner loop over a comment. */
  method ScanComment(config: string, start: nat) returns (pos: nat)
    requires start < |config|
    ensures pos >= start && From(config, pos + 1) == Tail(SkipComment(From(config, start)))
  {
    hide Tail, From;
    pos := start;
    while pos < |config| && config[pos] != '\n'
      invariant start <= pos <= |config|
      invariant SkipComment(From(config, start)) == SkipComment(From(config, pos))
    {
      FromNext(config, pos);
      pos := pos + 1;
    }
    EndOf(config, pos);
  }

  lemma {:induction false} EndOf(s: string, pos: nat)
    ensures From(s, pos + 1) == Tail(From(s, pos))
    ensures pos < |s| ==> From(s, pos) != "" && From(s, pos)[0] == s[pos]
    ensures pos >= |s| ==> From(s, pos) == ""
  {
  }

  /** The inner loop over a quoted string. */
  method ScanString(config: string, opening: nat, quote: char) returns (pos: nat)
    requires opening < |config|
    ensures pos > opening && From(config, pos + 1) == Tail(SkipString(From(config, opening + 1), quote))
  {
    pos := opening + 1;
    while pos < |config| && config[pos] != quote
      invariant opening < pos
      invariant SkipString(From(config, opening + 1), quote) == SkipString(From(config, pos), quote)
    {
      FromNext(config, pos);
      if config[pos] == '\\' {
        pos := pos + 1;
      }
      pos := pos + 1;
    }
    if pos < |config| {
      FromNext(config, pos);
    }
  }

  /** The main loop: the position after the bracket that closes the one at bracketStart. */
  method FindEnd(config: string, bracketStart: nat) returns (end: Option<nat>)
    ensures end.Some? ==> end.value <= |config|
    ensures AfterClosing(From(config, bracketStart), 0) == if end.Some? then Some(From(config, end.value)) else None
  {
    hide SkipComment, SkipString, Tail, From;
    var depth, pos := 0, bracketStart;
    while pos < |config|
      invariant AfterClosing(From(config, pos), depth) == AfterClosing(From(config, bracketStart), 0)
      decreases |config| - pos
    {
      var ch := config[pos];
      FromNext(config, pos);
      if ch == '[' {
        depth := depth + 1;
      } else if ch == ']' {
        depth := depth - 1;
        if depth == 0 {
          return Some(pos + 1);
        }
      } else if ch == '#' {
        pos := ScanComment(config, pos);
      } else if ch == '"' || ch == '\'' {
        pos := ScanString(config, pos, ch);
      }
      pos := pos + 1;
    }
    FromOutside(config, pos);
    return None;
  }

  method ReplaceNavBlock(config: string, newNavBlock: string) returns (r: Replaced)
    ensures r == Replace(config, newNavBlock)
  {
    var found := FindNav(config, 0);
    if found.None? {
      return NoNav;
    }
    var start := found.value;
    BracketFound(config, start);
    var end := FindEnd(config, |config| - |MatchNav(config[start..]).value|);
    if end.None? {
      return NoClosing;
    }
    return Config(config[..start] + newNavBlock + config[end.value..]);
  }

  lemma {:induction false} FromOutside(s: string, pos: nat)
    requires pos >= |s|
    ensures From(s, pos) == ""
  {
  }

  lemma {:induction false} BracketFound(config: string, start: nat)
    requires start <= |config| && MatchNav(config[start..]).Some?
    ensures var bracket := MatchNav(config[start..]).value;
            0 <= |config| - |bracket| && From(config, |config| - |bracket|) == bracket
  {
    var s := config[start..];
    MatchIsSuffix(s);
    assert config[|config| - |MatchNav(s).value|..] == s[|s| - |MatchNav(s).value|..];
  }

  lemma {:induction false} MatchIsSuffix(s: string)
    requires MatchNav(s).Some?
    ensures s[|s| - |MatchNav(s).value|..] == MatchNav(s).value
  {
    SpacesSuffix(s[3..]);
    var equals := SkipSpaces(s[3..]);
    SpacesSuffix(equals[1..]);
  }

  lemma {:induction false} SpacesSuffix(s: string)
    ensures s[|s| - |SkipSpaces(s)|..] == SkipSpaces(s)
    decreases |s|
  {
    if s != "" && IsSpace(s[0]) {
      SpacesSuffix(s[1..]);
    }
  }

  // ----- The printed block is found again

  lemma {:induction false} SpacesStop(p: string, x: string)
    requires x != "" && !IsSpace(x[0])
    ensures SkipSpaces(p + x) == SkipSpaces(p) + x
    decreases |p|
  {
    if p == "" {
      assert p + x == x;
    } else if IsSpace(p[0]) {
      assert (p + x)[1..] == p[1..] + x;
      SpacesStop(p[1..], x);
    }
  }

  /** A match cannot run into another nav: what follows n does not decide whether there is one before it. */
  lemma {:induction false} MatchEndsBefore(p: string, x: string)
    requires p != "" && x != "" && x[0] == 'n'
    ensures MatchNav(p + x).Some? <==> MatchNav(p).Some?
  {
    if |p| >= 3 {
      assert (p + x)[..3] == p[..3] && (p + x)[3..] == p[3..] + x;
      SpacesStop(p[3..], x);
      var equals := SkipSpaces(p[3..]);
      if equals != "" {
        assert (equals + x)[1..] == equals[1..] + x;
        SpacesStop(equals[1..], x);
      }
    } else {
      assert (p + x)[|p|] == 'n';
      assert |p + x| >= 3 ==> (p + x)[..3][|p|] == 'n';
    }
  }

  /** Texts that agree up to a place where both have an n have the same matches before it. */
  lemma {:induction false} SameMatches(s: string, t: string, start: nat, j: nat)
    requires j < start < |s| && start < |t| && s[..start] == t[..start] && s[start] == t[start] == 'n'
    ensures LineStart(s, j) <==> LineStart(t, j)
    ensures MatchNav(s[j..]).Some? <==> MatchNav(t[j..]).Some?
  {
    assert j > 0 ==> s[j - 1] == s[..start][j - 1] && t[j - 1] == t[..start][j - 1];
    var p := s[..start][j..];
    assert s[j..] == p + s[start..] && t[j..] == p + t[start..];
    MatchEndsBefore(p, s[start..]);
    MatchEndsBefore(p, t[start..]);
  }

  lemma {:induction false} BlockMatches(items: seq<Item>, rest: string)
    ensures MatchNav(NavBlock(items) + rest) == Some("[\n" + NavToToml(items, 4) + "\n]" + rest)
  {
    var bracket := "[\n" + NavToToml(items, 4) + "\n]" + rest;
    assert NavBlock(items) + rest == "nav = " + bracket;
    BracketMatches(bracket);
  }

  lemma {:induction false} BracketMatches(bracket: string)
    requires bracket != "" && bracket[0] == '['
    ensures MatchNav("nav = " + bracket) == Some(bracket)
  {
    var s := "nav = " + bracket;
    assert s[..3] == "nav";
    assert s[3..] == " " + ("= " + bracket) by {
      assert s == "nav" + (" " + ("= " + bracket));
    }
    OneSpace("= " + bracket);
    assert ("= " + bracket)[1..] == " " + bracket;
    OneSpace(bracket);
  }

  lemma {:induction false} OneSpace(s: string)
    requires s != "" && !IsSpace(s[0])
    ensures SkipSpaces(" " + s) == s
  {
    assert (" " + s)[1..] == s;
  }

  lemma {:induction false} SplitAgain(a: string, b: string, c: string)
    ensures (a + b + c)[..|a|] == a && (a + b + c)[|a|..] == b + c
  {
  }

  lemma {:induction false} FoundAgain(config: string, items: seq<Item>, rest: string)
    requires FindNav(config, 0).Some?
    ensures var start := FindNav(config, 0).value;
            FindNav(config[..start] + NavBlock(items) + rest, 0) == Some(start)
  {
    hide FindNav, MatchNav, LineStart;
    var start := FindNav(config, 0).value;
    var again := config[..start] + NavBlock(items) + rest;
    SplitAgain(config[..start], NavBlock(items), rest);
    BlockMatches(items, rest);
    NavStartsWithN(config, start);
    assert again[start] == again[start..][0] == 'n' by {
      assert again[start..][0] == NavBlock(items)[0];
    }
    SameLineStart(config, again, start);
    assert NavAt(again, start);
    var found := FindNav(again, 0);
    assert found.Some? && found.value <= start;
    if found.value < start {
      SameNavs(config, again, start, found.value);
      assert false;
    }
  }

  lemma {:induction false} SameNavs(s: string, t: string, start: nat, j: nat)
    requires j < start < |s| && start < |t| && s[..start] == t[..start] && s[start] == t[start] == 'n'
    ensures NavAt(s, j) <==> NavAt(t, j)
  {
    hide LineStart, MatchNav;
    SameMatches(s, t, start, j);
  }

  lemma {:induction false} NavStartsWithN(s: string, i: nat)
    requires NavAt(s, i)
    ensures s[i] == 'n'
  {
    assert s[i] == s[i..][..3][0];
  }

  lemma {:induction false} SameLineStart(s: string, t: string, i: nat)
    requires i <= |s| && i <= |t| && s[..i] == t[..i]
    ensures LineStart(s, i) <==> LineStart(t, i)
  {
    assert i > 0 ==> s[i - 1] == s[..i][i - 1] && t[i - 1] == t[..i][i - 1];
  }

  /**
    The printer and the scanner agree: once a printed block stands in the configuration, replacing it by any other gives what
    replacing the original block by that would have given.
    */
  lemma {:induction false} ReplaceTwice(config: string, items: seq<Item>, block: string)
    requires Replace(config, NavBlock(items)).Config?
    ensures Replace(Replace(config, NavBlock(items)).text, block) == Replace(config, block)
  {
    var start := FindNav(config, 0).value;
    var rest := AfterClosing(MatchNav(config[start..]).value, 0).value;
    var again := config[..start] + NavBlock(items) + rest;
    FoundAgain(config, items, rest);
    hide FindNav, MatchNav, AfterClosing;
    SplitAgain(config[..start], NavBlock(items), rest);
    BlockMatches(items, rest);
    BlockCloses(items, rest);
  }
}
