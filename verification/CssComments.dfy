/**
 Removing the comments of a style sheet without reaching inside its string
 literals (frontend/scripts/vite-inline-views.ts, stripCSSComments): the scanner,
 what it keeps, and exactly when removing twice is removing once.
 */
module CssComments {
  import opened Wrappers
  import opened Text
  import opened CssTokens

  /** What is left of a text: its tokens but the comments, in order and as written, trimmed. */
  function Stripped(css: string): string {
    Trim(Kept(css), JsSpace)
  }

  function Kept(css: string): string {
    Print(Bare(Split(css)))
  }

  // ------------------------------------------------------------------
  // The scanner
  // ------------------------------------------------------------------

  /** The closing quote of a literal, looked for from a place on. */
  function QuoteFrom(css: string, i: nat, quote: char): Option<nat>
    requires i <= |css|
  {
    Later(QuoteIn(css[i..], quote), i)
  }

  lemma QuoteStep(css: string, i: nat, quote: char)
    requires i < |css|
    ensures QuoteFrom(css, i, quote) ==
      if css[i] == '\\' then (if i + 2 <= |css| then QuoteFrom(css, i + 2, quote) else None)
      else if css[i] == quote then Some(i)
      else QuoteFrom(css, i + 1, quote)
  {
  }

  method EndOfString(css: string, start: nat) returns (end: nat)
    requires start < |css|
    ensures end == match QuoteFrom(css, start + 1, css[start]) case Some(k) => k + 1 case None => |css|
  {
    var quote := css[start];
    var i := start + 1;
    while i < |css|
      invariant start < i <= |css| + 1
      invariant QuoteFrom(css, start + 1, quote) == if i <= |css| then QuoteFrom(css, i, quote) else None
    {
      QuoteStep(css, i, quote);
      if css[i] == '\\' {
        i := i + 2;
      } else if css[i] == quote {
        return i + 1;
      } else {
        i := i + 1;
      }
    }
    end := |css|;
  }

  /** The delimiter that closes a comment, looked for from a place on. */
  function CloseFrom(css: string, i: nat): Option<nat>
    requires i <= |css|
  {
    Later(CloseIn(css[i..]), i)
  }

  lemma CloseStep(css: string, i: nat)
    requires i < |css|
    ensures CloseFrom(css, i) ==
      if i + 1 < |css| && css[i] == '*' && css[i + 1] == '/' then Some(i) else CloseFrom(css, i + 1)
  {
  }

  /** Where the closing delimiter next stands in a text, from a place on. */
  method IndexOfClose(css: string, from: nat) returns (at: Option<nat>)
    requires from <= |css|
    ensures at == CloseFrom(css, from)
  {
    for i := from to |css|
      invariant CloseFrom(css, from) == CloseFrom(css, i)
    {
      CloseStep(css, i);
      if i + 1 < |css| && css[i] == '*' && css[i + 1] == '/' {
        return Some(i);
      }
    }
    at := None;
  }

  method EndOfComment(css: string, start: nat) returns (end: nat)
    requires start + 2 <= |css|
    ensures end == match CloseFrom(css, start + 2) case Some(k) => k + 2 case None => |css|
  {
    var at := IndexOfClose(css, start + 2);
    end := if at.Some? then at.value + 2 else |css|;
  }

  lemma BareWith(token: Token, sheet: Sheet)
    ensures Print(Bare(With(token, sheet))) == (if token.Comment? then "" else PrintToken(token)) + Print(Bare(sheet))
  {
  }

  /** What is kept of a text from a place on. */
  function KeptFrom(css: string, i: nat): string
    requires i <= |css|
  {
    Kept(css[i..])
  }

  lemma StringKept(css: string, i: nat, k: nat)
    requires i < |css| && IsQuote(css[i]) && QuoteFrom(css, i + 1, css[i]) == Some(k)
    ensures i < k < |css| && KeptFrom(css, i) == css[i..k + 1] + KeptFrom(css, k + 1)
  {
    var s := css[i..];
    assert s[1..] == css[i + 1..];
    var n := k - i - 1;
    assert QuoteIn(s[1..], s[0]) == Some(n);
    assert s[n + 2..] == css[k + 1..];
    BareWith(Literal(s[0], s[1..][..n]), Split(s[n + 2..]));
    assert s[1..][n] == s[0];
    assert s[1..][..n] == css[i + 1..k];
    Cut(css, i, k);
  }

  lemma Cut(s: string, i: nat, k: nat)
    requires i < k < |s|
    ensures s[i..k + 1] == [s[i]] + s[i + 1..k] + [s[k]]
  {
  }

  lemma OpenStringKept(css: string, i: nat)
    requires i < |css| && IsQuote(css[i]) && QuoteFrom(css, i + 1, css[i]) == None
    ensures KeptFrom(css, i) == css[i..] + KeptFrom(css, |css|)
  {
  }

  lemma CommentDropped(css: string, i: nat, end: nat)
    requires i + 1 < |css| && css[i] == '/' && css[i + 1] == '*'
    requires end == match CloseFrom(css, i + 2) case Some(k) => k + 2 case None => |css|
    ensures i < end <= |css| && KeptFrom(css, i) == KeptFrom(css, end)
  {
  }

  lemma CharacterKept(css: string, i: nat)
    requires i < |css| && !IsQuote(css[i]) && !(i + 1 < |css| && css[i] == '/' && css[i + 1] == '*')
    ensures KeptFrom(css, i) == [css[i]] + KeptFrom(css, i + 1)
  {
  }

  lemma LiteralKept(css: string, i: nat, end: nat)
    requires i < |css| && IsQuote(css[i])
    requires end == match QuoteFrom(css, i + 1, css[i]) case Some(k) => k + 1 case None => |css|
    ensures i < end <= |css| && KeptFrom(css, i) == css[i..end] + KeptFrom(css, end)
  {
    var at := QuoteFrom(css, i + 1, css[i]);
    if at.Some? {
      StringKept(css, i, at.value);
    } else {
      OpenStringKept(css, i);
      assert css[i..end] == css[i..];
    }
  }

  lemma NothingLeft(css: string)
    ensures KeptFrom(css, 0) == Kept(css) && KeptFrom(css, |css|) == ""
  {
  }

  lemma Longer(a: string, b: string, c: string)
    ensures a + (b + c) == (a + b) + c
  {
  }

  method StripComments(css: string) returns (stripped: string)
    ensures stripped == Stripped(css)
  {
    var out := "";
    var i := 0;
    while i < |css|
      invariant 0 <= i <= |css|
      invariant KeptFrom(css, 0) == out + KeptFrom(css, i)
    {
      var c := css[i];
      if IsQuote(c) {
        var end := EndOfString(css, i);
        LiteralKept(css, i, end);
        Longer(out, css[i..end], KeptFrom(css, end));
        out := out + css[i..end];
        i := end;
      } else if c == '/' && i + 1 < |css| && css[i + 1] == '*' {
        var end := EndOfComment(css, i);
        CommentDropped(css, i, end);
        i := end;
      } else {
        CharacterKept(css, i);
        Longer(out, [c], KeptFrom(css, i + 1));
        out := out + [c];
        i := i + 1;
      }
    }
    NothingLeft(css);
    assert Kept(css) == out;
    stripped := Trim(out, JsSpace);
  }

  // ------------------------------------------------------------------
  // What stripping keeps
  // ------------------------------------------------------------------

  /** Stripping a printed sheet leaves its tokens but the comments, whatever they are, as long as no slash meets a star. */
  lemma StripOfPrint(sheet: Sheet)
    requires Valid(sheet)
    ensures Stripped(Print(sheet)) == Trim(Print(Bare(sheet)), JsSpace)
  {
    SplitPrint(sheet);
  }

  lemma {:induction false} PlainInside(body: string, quote: char)
    requires quote !in body && '\\' !in body
    ensures Inside(body, quote)
  {
    if body != "" {
      PlainInside(body[1..], quote);
    }
  }

  /** Nothing inside a string literal is ever taken for a comment, whichever of the two quotes it stands in. */
  lemma LiteralsStay(quote: char, body: string, rest: string)
    requires (quote == '"' || quote == '\'') && quote !in body && '\\' !in body
    ensures Kept([quote] + body + [quote] + rest) == [quote] + body + [quote] + Kept(rest)
  {
    PlainInside(body, quote);
    SplitLiteral(quote, body, rest);
    BareWith(Literal(quote, body), Split(rest));
  }

  /** Some token of the sheet is a comment. */
  predicate Commented(sheet: Sheet) {
    sheet.tail.OpenComment? || exists t :: t in sheet.tokens && t.Comment?
  }

  lemma CommentedWith(token: Token, sheet: Sheet)
    ensures Commented(With(token, sheet)) <==> token.Comment? || Commented(sheet)
  {
  }

  /** A sheet without comments is its own bare form; one with comments prints shorter bare. */
  lemma {:induction false} BareIsShorter(sheet: Sheet)
    ensures !Commented(sheet) ==> Bare(sheet) == sheet
    ensures Commented(sheet) ==> |Print(Bare(sheet))| < |Print(sheet)|
    ensures |Print(Bare(sheet))| <= |Print(sheet)|
    decreases |sheet.tokens|
  {
    if sheet.tokens != [] {
      BareIsShorter(Rest(sheet));
      assert With(sheet.tokens[0], Rest(sheet)) == sheet;
      CommentedWith(sheet.tokens[0], Rest(sheet));
      BareWith(sheet.tokens[0], Rest(sheet));
    }
  }

  lemma {:induction false} BareIsPlain(sheet: Sheet)
    requires (forall t :: t in sheet.tokens ==> ValidToken(t)) && ValidTail(sheet.tail)
    ensures Plain(Bare(sheet))
    decreases |sheet.tokens|
  {
    if sheet.tokens != [] {
      BareIsPlain(Rest(sheet));
      assert sheet.tokens[0] in sheet.tokens;
    }
  }

  /** Tokens with no comment among them, though their print may hold one. */
  ghost predicate Plain(sheet: Sheet) {
    && (forall t :: t in sheet.tokens ==> ValidToken(t) && !t.Comment?)
    && ValidTail(sheet.tail) && !sheet.tail.OpenComment?
  }

  ghost predicate SlashMeetsStar(sheet: Sheet) {
    exists i: nat :: Meets(sheet.tokens, i)
  }

  /** The print of comment-free tokens holds a comment exactly when a slash among them meets a star. */
  lemma {:induction false} CommentMade(sheet: Sheet)
    requires Plain(sheet)
    ensures Commented(Split(Print(sheet))) <==> SlashMeetsStar(sheet)
    decreases |sheet.tokens|
  {
    if !SlashMeetsStar(sheet) {
      SplitPrint(sheet);
    } else if Meets(sheet.tokens, 0) {
      SlashStarComments(sheet);
    } else {
      var i: nat :| Meets(sheet.tokens, i);
      assert Meets(Rest(sheet).tokens, i - 1);
      CommentMade(Rest(sheet));
      FirstTokenStands(sheet);
      CommentedWith(sheet.tokens[0], Split(Print(Rest(sheet))));
    }
  }

  lemma SlashStarComments(sheet: Sheet)
    requires Plain(sheet) && Meets(sheet.tokens, 0)
    ensures Commented(Split(Print(sheet)))
  {
    var s := Print(sheet);
    assert Print(sheet) == "/" + Print(Rest(sheet));
    assert Rest(sheet).tokens[0] == Single('*');
    assert OpensComment(s);
    var at := CloseIn(s[2..]);
    if at.Some? {
      CommentedWith(Comment(s[2..][..at.value]), Split(s[at.value + 4..]));
    }
  }

  lemma FirstTokenStands(sheet: Sheet)
    requires Plain(sheet) && sheet.tokens != [] && !Meets(sheet.tokens, 0)
    ensures Split(Print(sheet)) == With(sheet.tokens[0], Split(Print(Rest(sheet))))
  {
    assert sheet.tokens[0] in sheet.tokens;
    var rest := Rest(sheet);
    if rest.tokens != [] {
      assert rest.tokens[0] in sheet.tokens;
    }
    SplitPrefix(sheet.tokens[0], Print(rest));
  }

  // ------------------------------------------------------------------
  // Trimming makes and hides no comment
  // ------------------------------------------------------------------

  lemma SpaceFirst(s: string)
    requires s != "" && JsSpace(s[0])
    ensures Commented(Split(s)) <==> Commented(Split(s[1..]))
  {
    assert !IsQuote(s[0]) && !OpensComment(s);
    CommentedWith(Single(s[0]), Split(s[1..]));
  }

  lemma {:induction false} TrimStartComments(s: string)
    ensures Commented(Split(TrimStart(s, JsSpace))) == Commented(Split(s))
  {
    if s != "" && JsSpace(s[0]) {
      TrimStartComments(s[1..]);
      SpaceFirst(s);
    }
  }

  lemma {:induction false} TrimEndComments(s: string)
    ensures Commented(Split(TrimEnd(s, JsSpace))) == Commented(Split(s))
  {
    if s != "" && JsSpace(s[|s| - 1]) {
      TrimEndComments(s[..|s| - 1]);
      DropLast(s);
    }
  }

  /** Without its last space a text holds a comment just when it did. */
  lemma {:induction false} DropLast(s: string)
    requires s != "" && JsSpace(s[|s| - 1])
    ensures Commented(Split(s[..|s| - 1])) == Commented(Split(s))
    decreases |s|
  {
    var p := s[..|s| - 1];
    if |s| == 1 {
      assert Split(s) == With(Single(s[0]), Split(""));
    } else if IsQuote(s[0]) {
      DropLastOfString(s);
    } else if OpensComment(s) {
      HasComment(s);
      HasComment(p);
    } else {
      DropLast(s[1..]);
      assert p[1..] == s[1..][..|s| - 2];
      CommentedWith(Single(s[0]), Split(s[1..]));
      CommentedWith(Single(s[0]), Split(p[1..]));
    }
  }

  lemma HasComment(s: string)
    requires OpensComment(s)
    ensures Commented(Split(s))
  {
    var at := CloseIn(s[2..]);
    if at.Some? {
      CommentedWith(Comment(s[2..][..at.value]), Split(s[at.value + 4..]));
    }
  }

  lemma {:induction false} QuoteBeforeLast(s: string, quote: char)
    requires s != "" && JsSpace(s[|s| - 1]) && IsQuote(quote)
    ensures QuoteIn(s[..|s| - 1], quote) == QuoteIn(s, quote)
  {
    var p := s[..|s| - 1];
    var n := if s[0] == '\\' then 2 else 1;
    if |s| <= n {
      assert QuoteIn(p, quote) == None;
    } else if s[0] == quote {
      assert QuoteIn(p, quote) == Some(0);
    } else {
      QuoteBeforeLast(s[n..], quote);
      assert p[n..] == s[n..][..|s| - 1 - n];
      assert QuoteIn(p, quote) == Later(QuoteIn(p[n..], quote), n);
      assert QuoteIn(s, quote) == Later(QuoteIn(s[n..], quote), n);
    }
  }

  lemma {:induction false} DropLastOfString(s: string)
    requires |s| > 1 && JsSpace(s[|s| - 1]) && IsQuote(s[0])
    ensures Commented(Split(s[..|s| - 1])) == Commented(Split(s))
    decreases |s|, 1
  {
    var p := s[..|s| - 1];
    QuoteBeforeLast(s[1..], s[0]);
    assert p[1..] == s[1..][..|s| - 2];
    var at := QuoteIn(s[1..], s[0]);
    if at.Some? {
      DropLastPastString(s, p, at.value);
    } else {
      OpenStringHasNone(s);
      OpenStringHasNone(p);
    }
  }

  lemma {:induction false} DropLastPastString(s: string, p: string, k: nat)
    requires |s| > 1 && JsSpace(s[|s| - 1]) && IsQuote(s[0]) && p == s[..|s| - 1]
    requires QuoteIn(s[1..], s[0]) == Some(k) && QuoteIn(p[1..], p[0]) == Some(k)
    ensures Commented(Split(p)) == Commented(Split(s))
    decreases |s|, 0
  {
    var end := k + 2;
    assert s[k + 1] == s[0] && end < |s|;
    DropLast(s[end..]);
    assert p[end..] == s[end..][..|s| - end - 1];
    LiteralFirst(s, k);
    LiteralFirst(p, k);
  }

  lemma OpenStringHasNone(s: string)
    requires s != "" && IsQuote(s[0]) && QuoteIn(s[1..], s[0]) == None
    ensures !Commented(Split(s))
  {
    assert Split(s) == Sheet([], OpenLiteral(s[0], s[1..]));
  }

  lemma LiteralFirst(s: string, k: nat)
    requires s != "" && IsQuote(s[0]) && QuoteIn(s[1..], s[0]) == Some(k)
    ensures Commented(Split(s)) <==> Commented(Split(s[k + 2..]))
  {
    CommentedWith(Literal(s[0], s[1..][..k]), Split(s[k + 2..]));
  }

  // ------------------------------------------------------------------
  // Stripping twice
  // ------------------------------------------------------------------

  /** A text trimmed already is left alone by stripping exactly when it holds no comment. */
  lemma StripsNothing(s: string)
    requires Trimmed(s, JsSpace)
    ensures Stripped(s) == s <==> !Commented(Split(s))
  {
    PrintSplit(s);
    BareIsShorter(Split(s));
    TrimmedStays(s, JsSpace);
  }

  /** Stripping again changes nothing exactly when no comment stood between a slash and a star. */
  lemma IdempotentExactly(css: string)
    ensures Stripped(Stripped(css)) == Stripped(css) <==> !SlashMeetsStar(Bare(Split(css)))
  {
    var bare := Bare(Split(css));
    var printed := Print(bare);
    SplitIsValid(css);
    BareIsPlain(Split(css));
    CommentMade(bare);
    TrimStartComments(printed);
    TrimEndComments(TrimStart(printed, JsSpace));
    TrimTrims(printed, JsSpace);
    StripsNothing(Stripped(css));
  }

  /** A comment standing between a slash and a star leaves a comment behind. */
  lemma StripLeavesAComment()
    ensures Stripped("//**/*") == "/*" && Stripped("/*") == ""
  {
    SlashStarStays();
    SlashStarGoes();
  }

  lemma SlashStarStays()
    ensures Stripped("//**/*") == "/*"
  {
    PrintOfThree();
    ThreeAreValid();
    SplitPrint(Sheet([Single('/'), Comment(""), Single('*')], Nothing));
    BareOfThree();
    assert Kept("//**/*") == "/*";
    TrimmedStays("/*", JsSpace);
  }

  lemma BareOfThree()
    ensures Print(Bare(Sheet([Single('/'), Comment(""), Single('*')], Nothing))) == "/*"
  {
  }

  lemma ThreeAreValid()
    ensures Valid(Sheet([Single('/'), Comment(""), Single('*')], Nothing))
  {
  }

  lemma PrintOfThree()
    ensures Print(Sheet([Single('/'), Comment(""), Single('*')], Nothing)) == "//**/*"
  {
  }

  lemma SlashStarGoes()
    ensures Stripped("/*") == ""
  {
    SplitTail(OpenComment(""));
    assert PrintTail(OpenComment("")) == "/*";
    assert Kept("/*") == "";
    TrimmedStays("", JsSpace);
  }
}
