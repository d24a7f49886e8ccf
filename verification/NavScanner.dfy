/** Which text the replacement cuts out: everything from nav = [ to the bracket that closes it, and nothing else. */
module NavScanner {
  import opened Collections
  import opened NavToml

  // ----- Text as the scanner takes it apart

  datatype Quotable = Bare(c: char) | Escaped(c: char)

  /** A character of no meaning, a comment with the end of its line, a quoted string, or an array. */
  datatype Piece = Other(c: char) | Comment(text: string) | Quote(quote: char, chars: seq<Quotable>) | Array(pieces: seq<Piece>)

  predicate Fits(x: Quotable, quote: char) {
    x.Bare? ==> x.c != quote && x.c != '\\'
  }

  ghost predicate WellFormed(p: Piece)
    decreases p
  {
    match p
    case Other(c) => Plain(c)
    case Comment(text) => '\n' !in text
    case Quote(quote, chars) => (quote == '"' || quote == '\'') && forall x :: x in chars ==> Fits(x, quote)
    case Array(pieces) => AllWellFormed(pieces)
  }

  ghost predicate AllWellFormed(pieces: seq<Piece>)
    decreases pieces
  {
    forall p :: p in pieces ==> WellFormed(p)
  }

  function CharText(x: Quotable): string {
    if x.Bare? then [x.c] else ['\\', x.c]
  }

  function CharsText(chars: seq<Quotable>): string {
    if chars == [] then "" else CharText(chars[0]) + CharsText(chars[1..])
  }

  function Text(p: Piece): string
    decreases p
  {
    match p
    case Other(c) => [c]
    case Comment(text) => "#" + text + "\n"
    case Quote(quote, chars) => [quote] + CharsText(chars) + [quote]
    case Array(pieces) => "[" + TextOf(pieces) + "]"
  }

  function TextOf(pieces: seq<Piece>): string
    decreases pieces
  {
    if pieces == [] then "" else Text(pieces[0]) + TextOf(pieces[1..])
  }

  // ----- The scanner passes over it

  lemma {:induction false} SkipsChar(x: Quotable, quote: char, after: string)
    requires quote != '\\' && Fits(x, quote)
    ensures SkipString(CharText(x) + after, quote) == SkipString(after, quote)
  {
    var s := CharText(x) + after;
    assert s[|CharText(x)|..] == after;
    if x.Escaped? {
      assert s[0] == '\\' && s[2..] == after;
    } else {
      assert s[0] == x.c && s[1..] == after;
    }
  }

  lemma {:induction false} SkipsChars(chars: seq<Quotable>, quote: char, rest: string)
    requires quote != '\\' && forall x :: x in chars ==> Fits(x, quote)
    ensures SkipString(CharsText(chars) + ([quote] + rest), quote) == [quote] + rest
    decreases |chars|
  {
    var end := [quote] + rest;
    if chars == [] {
      assert CharsText(chars) + end == end;
    } else {
      var x, others := chars[0], chars[1..];
      SkipsChars(others, quote, rest);
      var after := CharsText(others) + end;
      assert CharsText(chars) + end == CharText(x) + after;
      SkipsChar(x, quote, after);
    }
  }

  lemma {:induction false} SkipsComment(text: string, rest: string)
    requires '\n' !in text
    ensures SkipComment(text + ("\n" + rest)) == "\n" + rest
    decreases |text|
  {
    if text == "" {
      assert text + ("\n" + rest) == "\n" + rest;
    } else {
      SkipsComment(text[1..], rest);
      assert (text + ("\n" + rest))[1..] == text[1..] + ("\n" + rest);
    }
  }

  lemma {:induction false} NeutralComment(text: string)
    requires '\n' !in text
    ensures Neutral("#" + text + "\n")
  {
    forall rest: string, depth: int | depth >= 1
      ensures AfterClosing("#" + text + "\n" + rest, depth) == AfterClosing(rest, depth)
    {
      var after := text + ("\n" + rest);
      assert "#" + text + "\n" + rest == "#" + after;
      assert SkipComment("#" + after) == SkipComment(after) by {
        assert ("#" + after)[1..] == after;
      }
      SkipsComment(text, rest);
      assert ("\n" + rest)[1..] == rest;
    }
  }

  lemma {:induction false} NeutralQuote(quote: char, chars: seq<Quotable>)
    requires (quote == '"' || quote == '\'') && forall x :: x in chars ==> Fits(x, quote)
    ensures Neutral([quote] + CharsText(chars) + [quote])
  {
    hide CharsText, SkipString;
    forall rest: string, depth: int | depth >= 1
      ensures AfterClosing([quote] + CharsText(chars) + [quote] + rest, depth) == AfterClosing(rest, depth)
    {
      var after := CharsText(chars) + ([quote] + rest);
      assert [quote] + CharsText(chars) + [quote] + rest == [quote] + after;
      assert ([quote] + after)[1..] == after && ([quote] + rest)[1..] == rest;
      SkipsChars(chars, quote, rest);
    }
  }

  lemma {:induction false} NeutralPiece(p: Piece)
    requires WellFormed(p)
    ensures Neutral(Text(p))
    decreases p
  {
    hide Neutral;
    match p
    case Other(c) => NeutralPlain([c]);
    case Comment(text) => NeutralComment(text);
    case Quote(quote, chars) => NeutralQuote(quote, chars);
    case Array(pieces) =>
      NeutralPieces(pieces);
      NeutralBrackets(TextOf(pieces));
  }

  lemma {:induction false} NeutralPieces(pieces: seq<Piece>)
    requires AllWellFormed(pieces)
    ensures Neutral(TextOf(pieces))
    decreases pieces
  {
    hide Neutral, WellFormed, Text;
    if pieces == [] {
      NeutralEmpty();
    } else {
      NeutralPiece(pieces[0]);
      NeutralPieces(pieces[1..]);
      NeutralAppend(Text(pieces[0]), TextOf(pieces[1..]));
    }
  }

  /** An array ends at its own bracket, whatever brackets, quotes and comments stand in it. */
  lemma {:induction false} ArrayCloses(pieces: seq<Piece>, rest: string)
    requires AllWellFormed(pieces)
    ensures AfterClosing("[" + TextOf(pieces) + "]" + rest, 0) == Some(rest)
  {
    var body := TextOf(pieces);
    NeutralPieces(pieces);
    assert ("[" + body + "]" + rest)[1..] == body + ("]" + rest);
    assert AfterClosing(body + ("]" + rest), 1) == AfterClosing("]" + rest, 1);
    assert ("]" + rest)[1..] == rest;
  }

  // ----- The match

  predicate Blank(s: string) {
    forall k :: 0 <= k < |s| ==> IsSpace(s[k])
  }

  lemma {:induction false} SkipsBlank(p: string, rest: string)
    requires Blank(p) && (rest != "" ==> !IsSpace(rest[0]))
    ensures SkipSpaces(p + rest) == rest
    decreases |p|
  {
    if p == "" {
      assert p + rest == rest;
    } else {
      assert (p + rest)[1..] == p[1..] + rest;
      SkipsBlank(p[1..], rest);
    }
  }

  lemma {:induction false} BlankSkipped(s: string) returns (p: string)
    ensures Blank(p) && s == p + SkipSpaces(s)
    decreases |s|
  {
    p := "";
    if s != "" && IsSpace(s[0]) {
      p := BlankSkipped(s[1..]);
      assert s == [s[0]] + s[1..];
      p := [s[0]] + p;
    }
  }

  /** nav, an equals sign and a bracket, with any blanks between them. */
  function NavHead(p: string, q: string): string {
    "nav" + p + "=" + q
  }

  lemma {:induction false} HeadMatches(p: string, q: string, bracket: string)
    requires Blank(p) && Blank(q) && bracket != "" && bracket[0] == '['
    ensures MatchNav(NavHead(p, q) + bracket) == Some(bracket)
  {
    var s := NavHead(p, q) + bracket;
    var equals := "=" + (q + bracket);
    assert s == "nav" + (p + equals) && s[..3] == "nav" && s[3..] == p + equals;
    SkipsBlank(p, equals);
    assert equals[1..] == q + bracket;
    SkipsBlank(q, bracket);
  }

  lemma {:induction false} MatchHasHead(s: string) returns (p: string, q: string)
    requires MatchNav(s).Some?
    ensures Blank(p) && Blank(q) && s == NavHead(p, q) + MatchNav(s).value
  {
    var equals := SkipSpaces(s[3..]);
    p := BlankSkipped(s[3..]);
    q := BlankSkipped(equals[1..]);
    assert s == s[..3] + s[3..] && equals == "=" + equals[1..];
    HeadText(p, q, MatchNav(s).value);
  }

  lemma {:induction false} HeadText(p: string, q: string, bracket: string)
    ensures NavHead(p, q) + bracket == "nav" + (p + ("=" + (q + bracket)))
  {
  }

  // ----- The replacement

  /** The first line that starts with nav = [ stands after the text before. */
  ghost predicate FirstNavAfter(config: string, before: string) {
    (before == "" || before[|before| - 1] == '\n') && forall j: nat :: j < |before| ==> !NavAt(config, j)
  }

  lemma {:induction false} FindsFirst(config: string, before: string, rest: string)
    requires config == before + rest && FirstNavAfter(config, before) && MatchNav(rest).Some?
    ensures FindNav(config, 0) == Some(|before|) && config[|before|..] == rest && config[..|before|] == before
  {
    assert config[|before|..] == rest && config[..|before|] == before;
    assert LineStart(config, |before|);
    assert NavAt(config, |before|);
  }

  /** Exactly the array that nav is set to is replaced; the text before it and after its bracket is kept. */
  lemma {:induction false} ReplaceCuts(config: string, before: string, p: string, q: string, pieces: seq<Piece>, after: string,
                                       block: string)
    requires Blank(p) && Blank(q) && AllWellFormed(pieces) && FirstNavAfter(config, before)
    requires config == before + (NavHead(p, q) + ("[" + TextOf(pieces) + "]" + after))
    ensures Replace(config, block) == Config(before + block + after)
  {
    hide NavHead, Blank, FirstNavAfter, TextOf, FindNav, AllWellFormed;
    var bracket := "[" + TextOf(pieces) + "]" + after;
    HeadMatches(p, q, bracket);
    hide MatchNav;
    FindsFirst(config, before, NavHead(p, q) + bracket);
    ArrayCloses(pieces, after);
  }

  /** Nothing is replaced exactly when no line starts with nav = [ */
  lemma {:induction false} NothingToReplace(config: string, block: string)
    ensures Replace(config, block).NoNav? <==> forall j: nat :: j < |config| ==> !NavAt(config, j)
  {
  }
}
