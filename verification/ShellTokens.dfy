/** The splitter on characters: a command is read as plain characters, escaped ones, quoted texts and
    ampersands, and is cut exactly at the double ampersands among them
    (maurice/kernel/shell_parser.py:186-226). */
module ShellTokens {
  import opened Wrappers
  import opened ShellParser
  import opened ShellRisk

  datatype Token = Plain(c: char) | Escaped(c: char) | Quoted(quote: char, body: string) | Ampersand | And

  predicate IsQuote(c: char) {
    c == '\'' || c == '"'
  }

  /** What can stand between two quotes: other characters, and any character after a backslash. */
  predicate Body(x: string, quote: char) {
    x == ""
    || (x[0] != quote && x[0] != '\\' && Body(x[1..], quote))
    || (x[0] == '\\' && |x| >= 2 && Body(x[2..], quote))
  }

  predicate ValidToken(t: Token) {
    match t
    case Plain(c) => !IsQuote(c) && c != '\\' && c != '&'
    case Quoted(quote, body) => IsQuote(quote) && Body(body, quote)
    case _ => true
  }

  /** Two ampersands in a row are one separator. */
  predicate Valid(tokens: seq<Token>) {
    && (forall i :: 0 <= i < |tokens| ==> ValidToken(tokens[i]))
    && (forall i :: 0 <= i < |tokens| - 1 && tokens[i].Ampersand? ==> !tokens[i + 1].Ampersand? && !tokens[i + 1].And?)
  }

  /** What a command may end with: nothing, a backslash, or a quote that is not closed. */
  predicate OpenEnd(tail: string) {
    tail == "" || tail == "\\" || (IsQuote(tail[0]) && OpenBody(tail[1..], tail[0]))
  }

  predicate OpenBody(x: string, quote: char) {
    x == "" || x == "\\"
    || (x[0] != quote && x[0] != '\\' && OpenBody(x[1..], quote))
    || (x[0] == '\\' && |x| >= 2 && OpenBody(x[2..], quote))
  }

  function TokenText(t: Token): (r: string)
    ensures r != ""
  {
    match t
    case Plain(c) => [c]
    case Escaped(c) => ['\\', c]
    case Quoted(quote, body) => [quote] + body + [quote]
    case Ampersand => "&"
    case And => "&&"
  }

  function CommandText(tokens: seq<Token>, tail: string): string {
    if tokens == [] then tail else TokenText(tokens[0]) + CommandText(tokens[1..], tail)
  }

  /** The texts between the double ampersands. */
  function Pieces(tokens: seq<Token>, tail: string): (r: seq<string>)
    ensures r != []
  {
    if tokens == [] then [tail]
    else if tokens[0].And? then [""] + Pieces(tokens[1..], tail)
    else Prepend(TokenText(tokens[0]), Pieces(tokens[1..], tail))
  }

  // ----- the scanner on quoted and escaped text -----

  lemma {:induction false} InsideQuotes(x: string, quote: char, rest: string)
    requires IsQuote(quote) && Body(x, quote)
    ensures Raw(x + [quote] + rest, Mode(Some(quote), false)) == Prepend(x + [quote], Raw(rest, NEUTRAL))
  {
    var s := x + [quote] + rest;
    if x == "" {
      assert s[1..] == rest && s[..1] == x + [quote];
    } else {
      var k := if x[0] == '\\' then 2 else 1;
      InsideQuotes(x[k..], quote, rest);
      assert s[k..] == x[k..] + [quote] + rest && s[..k] == x[..k];
      if x[0] == '\\' {
        EscapedInside(s, quote);
      } else {
        TakenInside(s, quote);
      }
      TakeOver(x, k, [quote], Raw(rest, NEUTRAL));
    }
  }

  lemma TakeOver(x: string, k: nat, end: string, after: seq<string>)
    requires k <= |x| && after != []
    ensures Prepend(x[..k], Prepend(x[k..] + end, after)) == Prepend(x + end, after)
  {
    PrependLaws(x[..k], x[k..] + end, after);
    assert x[..k] + (x[k..] + end) == x + end;
  }

  /** Inside quotes a character is taken over, and so are a backslash and the one after it. */
  lemma TakenInside(s: string, quote: char)
    requires IsQuote(quote) && s != "" && s[0] != quote && s[0] != '\\'
    ensures Raw(s, Mode(Some(quote), false)) == Prepend(s[..1], Raw(s[1..], Mode(Some(quote), false)))
  {
  }

  lemma EscapedInside(s: string, quote: char)
    requires IsQuote(quote) && |s| >= 2 && s[0] == '\\'
    ensures Raw(s, Mode(Some(quote), false)) == Prepend(s[..2], Raw(s[2..], Mode(Some(quote), false)))
  {
    assert s[1..][1..] == s[2..] && s[..1] + s[1..][..1] == s[..2];
    PrependLaws(s[..1], s[1..][..1], Raw(s[2..], Mode(Some(quote), false)));
  }

  lemma {:induction false} UnclosedQuote(x: string, quote: char)
    requires IsQuote(quote) && OpenBody(x, quote)
    ensures Raw(x, Mode(Some(quote), false)) == [x]
  {
    if x == "" {
    } else if x == "\\" {
      assert x[1..] == "" && x[..1] + "" == x;
    } else if x[0] == '\\' {
      UnclosedQuote(x[2..], quote);
      assert x[1..][1..] == x[2..] && x[..1] + (x[1..][..1] + x[2..]) == x;
    } else {
      UnclosedQuote(x[1..], quote);
      assert x[..1] + x[1..] == x;
    }
  }

  lemma QuotedFirst(quote: char, body: string, rest: string)
    requires IsQuote(quote) && Body(body, quote)
    ensures Raw([quote] + body + [quote] + rest, NEUTRAL) == Prepend([quote] + body + [quote], Raw(rest, NEUTRAL))
  {
    var s := [quote] + body + [quote] + rest;
    assert s[1..] == body + [quote] + rest && s[..1] == [quote];
    InsideQuotes(body, quote, rest);
    PrependLaws([quote], body + [quote], Raw(rest, NEUTRAL));
    assert [quote] + (body + [quote]) == [quote] + body + [quote];
  }

  lemma EscapedFirst(c: char, rest: string)
    ensures Raw(['\\', c] + rest, NEUTRAL) == Prepend(['\\', c], Raw(rest, NEUTRAL))
  {
    var s := ['\\', c] + rest;
    assert s[..1] == "\\" && s[1..][..1] == [c] && s[1..][1..] == rest;
    PrependLaws("\\", [c], Raw(rest, NEUTRAL));
    assert "\\" + [c] == ['\\', c];
  }

  lemma SingleFirst(c: char, rest: string)
    requires !IsQuote(c) && c != '\\' && (c == '&' ==> rest == "" || rest[0] != '&')
    ensures Raw([c] + rest, NEUTRAL) == Prepend([c], Raw(rest, NEUTRAL))
  {
    var s := [c] + rest;
    assert s[..1] == [c] && s[1..] == rest;
    assert |s| >= 2 ==> s[1] == rest[0];
  }

  lemma EndAlone(tail: string)
    requires OpenEnd(tail)
    ensures Raw(tail, NEUTRAL) == [tail]
  {
    if tail == "\\" {
      assert tail[1..] == "" && tail[..1] + "" == tail;
    } else if tail != "" {
      UnclosedQuote(tail[1..], tail[0]);
      assert tail[..1] + tail[1..] == tail;
    }
  }

  /** Every command is cut exactly at the double ampersands that stand outside quotes and escapes. */
  lemma {:induction false} CutsExactlyAtAnds(tokens: seq<Token>, tail: string)
    requires Valid(tokens) && OpenEnd(tail)
    ensures Raw(CommandText(tokens, tail), NEUTRAL) == Pieces(tokens, tail)
  {
    if tokens == [] {
      EndAlone(tail);
    } else {
      var rest := CommandText(tokens[1..], tail);
      CutsExactlyAtAnds(tokens[1..], tail);
      match tokens[0]
      case Plain(c) => SingleFirst(c, rest);
      case Escaped(c) => EscapedFirst(c, rest);
      case Quoted(quote, body) => QuotedFirst(quote, body, rest);
      case Ampersand =>
        NextIsNoAmpersand(tokens[1..], tail);
        SingleFirst('&', rest);
      case And =>
        assert ("&&" + rest)[2..] == rest;
    }
  }

  lemma NextIsNoAmpersand(tokens: seq<Token>, tail: string)
    requires Valid(tokens) && OpenEnd(tail)
    requires tokens != [] ==> !tokens[0].Ampersand? && !tokens[0].And?
    ensures CommandText(tokens, tail) == "" || CommandText(tokens, tail)[0] != '&'
  {
  }

  // ----- every command can be read so -----

  lemma {:induction false} ReadQuoted(x: string, quote: char) returns (body: string, closed: bool, rest: string)
    requires IsQuote(quote)
    ensures if closed then x == body + [quote] + rest && Body(body, quote) else body == x && OpenBody(x, quote)
    ensures |rest| <= |x|
  {
    if x == "" || x == "\\" {
      body, closed, rest := x, false, "";
    } else if x[0] == quote {
      body, closed, rest := "", true, x[1..];
      assert x == [quote] + rest;
    } else {
      var k := if x[0] == '\\' then 2 else 1;
      body, closed, rest := ReadQuoted(x[k..], quote);
      var head := x[..k];
      assert x == head + x[k..];
      assert closed ==> x == (head + body) + [quote] + rest;
      body := head + body;
      assert body[k..] == if closed then body[k..] else x[k..];
    }
  }

  lemma FirstToken(s: string) returns (first: Token, closed: bool, rest: string)
    requires s != "" && s != "\\"
    ensures if closed then
              && s == TokenText(first) + rest && ValidToken(first)
              && (first.Ampersand? ==> rest == "" || rest[0] != '&')
            else OpenEnd(s)
  {
    if IsQuote(s[0]) {
      var body;
      body, closed, rest := ReadQuoted(s[1..], s[0]);
      first := Quoted(s[0], body);
      assert closed ==> s == [s[0]] + s[1..] == TokenText(first) + rest;
    } else {
      first := if s[0] == '\\' then Escaped(s[1])
               else if s[0] != '&' then Plain(s[0])
               else if |s| >= 2 && s[1] == '&' then And else Ampersand;
      closed, rest := true, s[|TokenText(first)|..];
    }
  }

  lemma {:induction false} EveryCommandIsRead(s: string) returns (tokens: seq<Token>, tail: string)
    ensures Valid(tokens) && OpenEnd(tail) && s == CommandText(tokens, tail)
    decreases |s|
  {
    tokens, tail := [], s;
    if s != "" && s != "\\" {
      var first, closed, rest := FirstToken(s);
      if closed {
        tokens, tail := EveryCommandIsRead(rest);
        tokens := Before(first, tokens, tail);
      }
    }
  }

  lemma Before(first: Token, tokens: seq<Token>, tail: string) returns (all: seq<Token>)
    requires Valid(tokens) && OpenEnd(tail) && ValidToken(first)
    requires first.Ampersand? ==> CommandText(tokens, tail) == "" || CommandText(tokens, tail)[0] != '&'
    ensures Valid(all) && CommandText(all, tail) == TokenText(first) + CommandText(tokens, tail)
  {
    all := [first] + tokens;
    assert all[1..] == tokens;
  }

  // ----- what that means for a command -----

  /** A command with no separator outside quotes and escapes is one operand, judged by the tables. */
  lemma QuotedAndIsNoChain(t: Tables, command: string, tokens: seq<Token>, tail: string)
    requires Valid(tokens) && OpenEnd(tail) && And !in tokens
    requires Strip(command) == CommandText(tokens, tail) != ""
    ensures Operands(Strip(command)) == [Strip(command)]
    ensures Assess(t, command) == if t.critical(Strip(command)).Some?
                                  then ParseResult(false, Critical, t.critical(Strip(command)).value, false)
                                  else if t.complexity(Strip(command)).Some?
                                  then ParseResult(false, Elevated, t.complexity(Strip(command)).value, true)
                                  else if t.elevated(Strip(command)).Some?
                                  then ParseResult(false, Elevated, t.elevated(Strip(command)).value, false)
                                  else ParseResult(true, Safe, "No hazard detected.", false)
  {
    CutsExactlyAtAnds(tokens, tail);
    NoAndOnePiece(tokens, tail);
    StripIdempotent(command);
  }

  lemma {:induction false} NoAndOnePiece(tokens: seq<Token>, tail: string)
    requires And !in tokens
    ensures Pieces(tokens, tail) == [CommandText(tokens, tail)]
  {
    if tokens != [] {
      NoAndOnePiece(tokens[1..], tail);
    }
  }

  /** After a text that ends clean, a quoted text is taken over as it is, whatever it holds. */
  lemma QuotedTextStays(a: string, quote: char, x: string, b: string)
    requires EndsClean(a) && IsQuote(quote) && Body(x, quote)
    ensures var segs := Raw(a, NEUTRAL);
            var last := |segs| - 1;
            Raw(a + ([quote] + x + [quote] + b), NEUTRAL)
            == segs[..last] + Prepend(segs[last], Prepend([quote] + x + [quote], Raw(b, NEUTRAL)))
  {
    RawAppend(a, NEUTRAL, [quote] + x + [quote] + b);
    QuotedFirst(quote, x, b);
  }

  /** And so is any character after a backslash. */
  lemma EscapedCharacterStays(a: string, c: char, b: string)
    requires EndsClean(a)
    ensures var segs := Raw(a, NEUTRAL);
            var last := |segs| - 1;
            Raw(a + (['\\', c] + b), NEUTRAL)
            == segs[..last] + Prepend(segs[last], Prepend(['\\', c], Raw(b, NEUTRAL)))
  {
    RawAppend(a, NEUTRAL, ['\\', c] + b);
    EscapedFirst(c, b);
  }

  /** A text without quotes, backslashes and ampersands ends clean. */
  lemma {:induction false} PlainTextEndsClean(s: string)
    requires forall c :: c in s ==> !IsQuote(c) && c != '\\' && c != '&'
    ensures EndsClean(s)
  {
    if s != "" {
      assert s[0] in s && forall c :: c in s[1..] ==> c in s;
      PlainTextEndsClean(s[1..]);
    }
  }
}
