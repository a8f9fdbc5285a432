/**
 A style sheet as its string literals, comments and single characters, and the
 one way to split a text into them (frontend/scripts/vite-inline-views.ts; strings
 and comments are sections 4.3.5 and 4.3.2 of CSS Syntax Module Level 3, except
 that a newline does not end a string here).
 */
module CssTokens {
  import opened Wrappers

  datatype Token =
    | Literal(quote: char, body: string)   // quoted, the body holding no bare quote of its kind
    | Comment(body: string)                // between /* and */
    | Single(c: char)

  /** What runs to the end of the sheet unclosed. */
  datatype Tail = Nothing | OpenLiteral(quote: char, body: string) | OpenComment(body: string)

  datatype Sheet = Sheet(tokens: seq<Token>, tail: Tail)

  predicate IsQuote(c: char) { c == '"' || c == '\'' }

  predicate OpensComment(s: string) { |s| >= 2 && s[0] == '/' && s[1] == '*' }

  // ------------------------------------------------------------------
  // Which sheets are tokens
  // ------------------------------------------------------------------

  /** Inside of a literal: an escape takes the next character with it, and no bare quote. */
  predicate Inside(body: string, quote: char) {
    body == ""
    || (if body[0] == '\\' then |body| >= 2 && Inside(body[2..], quote) else body[0] != quote && Inside(body[1..], quote))
  }

  /** Inside of a literal nothing closes: the last escape may have nothing to take. */
  predicate Unclosed(body: string, quote: char) {
    body == ""
    || (if body[0] == '\\' then |body| == 1 || Unclosed(body[2..], quote)
        else body[0] != quote && Unclosed(body[1..], quote))
  }

  predicate NoClose(body: string) {
    forall i :: 0 <= i < |body| - 1 ==> !(body[i] == '*' && body[i + 1] == '/')
  }

  predicate ValidToken(token: Token) {
    match token
    case Literal(quote, body) => IsQuote(quote) && Inside(body, quote)
    case Comment(body) => NoClose(body)
    case Single(c) => !IsQuote(c)
  }

  predicate ValidTail(tail: Tail) {
    match tail
    case Nothing => true
    case OpenLiteral(quote, body) => IsQuote(quote) && Unclosed(body, quote)
    case OpenComment(body) => NoClose(body)
  }

  /** A slash right before a star: together they would open a comment. */
  predicate Meets(tokens: seq<Token>, i: nat) {
    i + 1 < |tokens| && tokens[i] == Single('/') && tokens[i + 1] == Single('*')
  }

  ghost predicate Valid(sheet: Sheet) {
    && (forall t :: t in sheet.tokens ==> ValidToken(t))
    && ValidTail(sheet.tail)
    && forall i: nat :: !Meets(sheet.tokens, i)
  }

  // ------------------------------------------------------------------
  // Printing
  // ------------------------------------------------------------------

  function PrintToken(token: Token): string {
    match token
    case Literal(quote, body) => [quote] + body + [quote]
    case Comment(body) => "/*" + body + "*/"
    case Single(c) => [c]
  }

  function PrintTail(tail: Tail): string {
    match tail
    case Nothing => ""
    case OpenLiteral(quote, body) => [quote] + body
    case OpenComment(body) => "/*" + body
  }

  function Print(sheet: Sheet): string
    decreases |sheet.tokens|
  {
    if sheet.tokens == [] then PrintTail(sheet.tail)
    else PrintToken(sheet.tokens[0]) + Print(Rest(sheet))
  }

  function Rest(sheet: Sheet): Sheet
    requires sheet.tokens != []
  {
    sheet.(tokens := sheet.tokens[1..])
  }

  /** A sheet without its comments, every literal as it stood. */
  function Bare(sheet: Sheet): Sheet
    decreases |sheet.tokens|
  {
    if sheet.tokens == [] then Sheet([], if sheet.tail.OpenComment? then Nothing else sheet.tail)
    else if sheet.tokens[0].Comment? then Bare(Rest(sheet))
    else With(sheet.tokens[0], Bare(Rest(sheet)))
  }

  function With(token: Token, sheet: Sheet): Sheet {
    sheet.(tokens := [token] + sheet.tokens)
  }

  // ------------------------------------------------------------------
  // Splitting
  // ------------------------------------------------------------------

  function Later(at: Option<nat>, n: nat): Option<nat> {
    match at case Some(k) => Some(k + n) case None => None
  }

  /** Where the quote that closes a literal is, past its opening. */
  function QuoteIn(s: string, quote: char): (at: Option<nat>)
    ensures at.Some? ==> at.value < |s| && s[at.value] == quote && Inside(s[..at.value], quote)
    ensures at.None? ==> Unclosed(s, quote)
  {
    if s == "" then None
    else if s[0] == '\\' then
      if |s| == 1 then None
      else
        var at := QuoteIn(s[2..], quote);
        assert at.Some? ==> s[2..][..at.value] == s[..at.value + 2][2..];
        Later(at, 2)
    else if s[0] == quote then Some(0)
    else
      var at := QuoteIn(s[1..], quote);
      assert at.Some? ==> s[1..][..at.value] == s[..at.value + 1][1..];
      Later(at, 1)
  }

  /** Where the delimiter that closes a comment is, past its opening. */
  function CloseIn(s: string): (at: Option<nat>)
    ensures at.Some? ==> at.value + 2 <= |s| && s[at.value] == '*' && s[at.value + 1] == '/' && NoClose(s[..at.value])
    ensures at.None? ==> NoClose(s)
  {
    if |s| < 2 then None
    else if s[0] == '*' && s[1] == '/' then Some(0)
    else
      var at := CloseIn(s[1..]);
      assert forall i :: 0 < i < |s| ==> s[i] == s[1..][i - 1];
      Later(at, 1)
  }

  /** The split of a text, read from the front. */
  function Split(s: string): Sheet
    decreases |s|
  {
    if s == "" then Sheet([], Nothing)
    else if IsQuote(s[0]) then
      match QuoteIn(s[1..], s[0])
      case Some(k) => With(Literal(s[0], s[1..][..k]), Split(s[k + 2..]))
      case None => Sheet([], OpenLiteral(s[0], s[1..]))
    else if OpensComment(s) then
      match CloseIn(s[2..])
      case Some(k) => With(Comment(s[2..][..k]), Split(s[k + 4..]))
      case None => Sheet([], OpenComment(s[2..]))
    else With(Single(s[0]), Split(s[1..]))
  }

  // ------------------------------------------------------------------
  // Splitting and printing undo each other
  // ------------------------------------------------------------------

  /** Every text is the print of its split. */
  lemma {:induction false} PrintSplit(s: string)
    ensures Print(Split(s)) == s
    decreases |s|
  {
    if s != "" {
      if IsQuote(s[0]) {
        var at := QuoteIn(s[1..], s[0]);
        if at.Some? {
          PrintSplit(s[at.value + 2..]);
          LiteralPrints(s, at.value);
        }
      } else if OpensComment(s) {
        var at := CloseIn(s[2..]);
        if at.Some? {
          PrintSplit(s[at.value + 4..]);
        }
        CommentPrints(s, at);
      } else {
        PrintSplit(s[1..]);
        PrintWith(Single(s[0]), Split(s[1..]));
      }
    }
  }

  lemma LiteralPrints(s: string, k: nat)
    requires s != "" && IsQuote(s[0]) && QuoteIn(s[1..], s[0]) == Some(k)
    requires Print(Split(s[k + 2..])) == s[k + 2..]
    ensures Print(Split(s)) == s
  {
    PrintWith(Literal(s[0], s[1..][..k]), Split(s[k + 2..]));
    Quoted(s, k);
  }

  lemma Quoted(s: string, k: nat)
    requires k + 2 <= |s|
    ensures s == [s[0]] + s[1..][..k] + [s[k + 1]] + s[k + 2..]
  {
  }

  lemma CommentPrints(s: string, at: Option<nat>)
    requires OpensComment(s) && CloseIn(s[2..]) == at
    requires at.Some? ==> Print(Split(s[at.value + 4..])) == s[at.value + 4..]
    ensures Print(Split(s)) == s
  {
    Opening(s);
    if at.Some? {
      PrintWith(Comment(s[2..][..at.value]), Split(s[at.value + 4..]));
      Closing(s, at.value);
    }
  }

  lemma Opening(s: string)
    requires OpensComment(s)
    ensures s == "/*" + s[2..]
  {
  }

  lemma Closing(s: string, k: nat)
    requires OpensComment(s) && k + 4 <= |s| && s[k + 2] == '*' && s[k + 3] == '/'
    ensures s == ("/*" + s[2..][..k] + "*/") + s[k + 4..]
  {
  }

  lemma PrintWith(token: Token, sheet: Sheet)
    ensures Print(With(token, sheet)) == PrintToken(token) + Print(sheet)
  {
  }

  lemma {:induction false} SplitIsValid(s: string)
    ensures Valid(Split(s))
    decreases |s|
  {
    if s != "" {
      if IsQuote(s[0]) {
        var at := QuoteIn(s[1..], s[0]);
        if at.Some? {
          SplitIsValid(s[at.value + 2..]);
          WithKeeps(Literal(s[0], s[1..][..at.value]), Split(s[at.value + 2..]));
        }
      } else if OpensComment(s) {
        var at := CloseIn(s[2..]);
        if at.Some? {
          SplitIsValid(s[at.value + 4..]);
          WithKeeps(Comment(s[2..][..at.value]), Split(s[at.value + 4..]));
        }
      } else {
        SplitIsValid(s[1..]);
        if s[0] == '/' && Split(s[1..]).tokens != [] && Split(s[1..]).tokens[0] == Single('*') {
          PrintSplit(s[1..]);
          assert false;
        }
        WithKeeps(Single(s[0]), Split(s[1..]));
      }
    }
  }

  lemma WithKeeps(token: Token, sheet: Sheet)
    requires ValidToken(token) && Valid(sheet)
    requires !Meets([token] + sheet.tokens, 0)
    ensures Valid(With(token, sheet))
  {
    var tokens := [token] + sheet.tokens;
    forall i: nat ensures !Meets(tokens, i) {
      if i > 0 {
        assert !Meets(sheet.tokens, i - 1);
      }
    }
  }

  lemma {:induction false} InsideEnds(body: string, quote: char, rest: string)
    requires Inside(body, quote) && quote != '\\'
    ensures QuoteIn(body + [quote] + rest, quote) == Some(|body|)
  {
    var s := body + [quote] + rest;
    if body != "" {
      var n := if body[0] == '\\' then 2 else 1;
      InsideEnds(body[n..], quote, rest);
      assert s[n..] == body[n..] + [quote] + rest;
    }
  }

  lemma {:induction false} UnclosedNeverEnds(body: string, quote: char)
    requires Unclosed(body, quote)
    ensures QuoteIn(body, quote) == None
  {
    if body != "" && !(body == "\\") {
      var n := if body[0] == '\\' then 2 else 1;
      UnclosedNeverEnds(body[n..], quote);
    }
  }

  lemma {:induction false} CommentEnds(body: string, rest: string)
    requires NoClose(body)
    ensures CloseIn(body + "*/" + rest) == Some(|body|)
  {
    var s := body + "*/" + rest;
    if body != "" {
      CommentEnds(body[1..], rest);
      assert s[1..] == body[1..] + "*/" + rest;
      assert s[0] == body[0] && (|body| > 1 ==> s[1] == body[1]) && (|body| == 1 ==> s[1] == '*');
    }
  }

  lemma {:induction false} CommentNeverEnds(body: string)
    requires NoClose(body)
    ensures CloseIn(body) == None
  {
  }

  lemma SplitLiteral(quote: char, body: string, rest: string)
    requires IsQuote(quote) && Inside(body, quote)
    ensures Split([quote] + body + [quote] + rest) == With(Literal(quote, body), Split(rest))
  {
    var s := [quote] + body + [quote] + rest;
    InsideEnds(body, quote, rest);
    assert s[1..] == body + [quote] + rest;
    assert s[1..][..|body|] == body;
    assert s[|body| + 2..] == rest;
  }

  lemma SplitComment(body: string, rest: string)
    requires NoClose(body)
    ensures Split("/*" + body + "*/" + rest) == With(Comment(body), Split(rest))
  {
    var s := "/*" + body + "*/" + rest;
    CommentEnds(body, rest);
    assert OpensComment(s) && s[2..] == body + "*/" + rest;
    assert s[2..][..|body|] == body;
    assert s[|body| + 4..] == rest;
  }

  /** The first token of a print, when no slash meets a star there, is the first token. */
  lemma SplitPrefix(token: Token, rest: string)
    requires ValidToken(token)
    requires token == Single('/') ==> !(rest != "" && rest[0] == '*')
    ensures Split(PrintToken(token) + rest) == With(token, Split(rest))
  {
    match token
    case Literal(quote, body) => SplitLiteral(quote, body, rest);
    case Comment(body) => SplitComment(body, rest);
    case Single(c) => assert ([c] + rest)[1..] == rest;
  }

  lemma SplitTail(tail: Tail)
    requires ValidTail(tail)
    ensures Split(PrintTail(tail)) == Sheet([], tail)
  {
    match tail
    case Nothing =>
    case OpenLiteral(quote, body) =>
      UnclosedNeverEnds(body, quote);
      assert ([quote] + body)[1..] == body;
    case OpenComment(body) =>
      CommentNeverEnds(body);
      assert ("/*" + body)[2..] == body;
      assert OpensComment("/*" + body);
  }

  lemma ValidRest(sheet: Sheet)
    requires Valid(sheet) && sheet.tokens != []
    ensures Valid(Rest(sheet))
  {
    forall i: nat ensures !Meets(sheet.tokens[1..], i) {
      assert !Meets(sheet.tokens, i + 1);
    }
  }

  /** A print starts with a star exactly when its first token is one. */
  lemma PrintStarts(sheet: Sheet)
    requires Valid(sheet)
    ensures Print(sheet) != "" && Print(sheet)[0] == '*' <==> sheet.tokens != [] && sheet.tokens[0] == Single('*')
  {
    if sheet.tokens != [] {
      assert sheet.tokens[0] in sheet.tokens;
    }
  }

  /** The split of a print is the sheet printed: no other split of a text is valid. */
  lemma {:induction false} SplitPrint(sheet: Sheet)
    requires Valid(sheet)
    ensures Split(Print(sheet)) == sheet
    decreases |sheet.tokens|
  {
    if sheet.tokens == [] {
      SplitTail(sheet.tail);
    } else {
      ValidRest(sheet);
      SplitPrint(Rest(sheet));
      PrintStarts(Rest(sheet));
      assert !Meets(sheet.tokens, 0);
      assert sheet.tokens[0] in sheet.tokens;
      SplitPrefix(sheet.tokens[0], Print(Rest(sheet)));
      assert With(sheet.tokens[0], Rest(sheet)) == sheet;
    }
  }
}
