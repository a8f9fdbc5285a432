/** Trimming white space from both ends of a text. What counts as space is the language's own. */
module Text {
  /** White space and line ends, as JavaScript's trim has them. */
  predicate JsSpace(c: char) {
    || '\t' <= c <= '\r' || c == ' ' || c == '\U{00A0}' || c == '\U{1680}' || '\U{2000}' <= c <= '\U{200A}'
    || c == '\U{2028}' || c == '\U{2029}' || c == '\U{202F}' || c == '\U{205F}' || c == '\U{3000}' || c == '\U{FEFF}'
  }

  /** White space as the Unicode property has it, which is what Go's TrimSpace trims. */
  predicate GoSpace(c: char) {
    || '\t' <= c <= '\r' || c == ' ' || c == '\U{0085}' || c == '\U{00A0}' || c == '\U{1680}'
    || '\U{2000}' <= c <= '\U{200A}' || c == '\U{2028}' || c == '\U{2029}' || c == '\U{202F}' || c == '\U{205F}'
    || c == '\U{3000}'
  }

  /** Where the two languages part: the next-line control is space to Go alone, the byte order mark to JavaScript alone. */
  lemma SpacesDiffer(c: char)
    ensures GoSpace(c) && !JsSpace(c) <==> c == '\U{0085}'
    ensures JsSpace(c) && !GoSpace(c) <==> c == '\U{FEFF}'
  {
  }

  predicate AllSpace(s: string, space: char -> bool) { forall c :: c in s ==> space(c) }

  function TrimStart(s: string, space: char -> bool): (r: string)
    ensures |r| <= |s| && r == s[|s| - |r|..]
    ensures r != [] ==> !space(r[0])
    ensures forall i :: 0 <= i < |s| - |r| ==> space(s[i])
  {
    if s != [] && space(s[0]) then
      assert forall i :: 0 < i < |s| ==> s[i] == s[1..][i - 1];
      TrimStart(s[1..], space)
    else s
  }

  function TrimEnd(s: string, space: char -> bool): (r: string)
    ensures |r| <= |s| && r == s[..|r|]
    ensures r != [] ==> !space(r[|r| - 1])
    ensures forall i :: |r| <= i < |s| ==> space(s[i])
  {
    if s != [] && space(s[|s| - 1]) then TrimEnd(s[..|s| - 1], space) else s
  }

  function Trim(s: string, space: char -> bool): string {
    TrimEnd(TrimStart(s, space), space)
  }

  /** Nothing is left to trim. */
  predicate Trimmed(s: string, space: char -> bool) {
    s != [] ==> !space(s[0]) && !space(s[|s| - 1])
  }

  lemma TrimTrims(s: string, space: char -> bool)
    ensures Trimmed(Trim(s, space), space)
  {
  }

  lemma TrimmedStays(s: string, space: char -> bool)
    requires Trimmed(s, space)
    ensures Trim(s, space) == s
  {
  }

  /** Trimming takes exactly the space around what neither starts nor ends with any. */
  lemma TrimExactly(before: string, middle: string, after: string, space: char -> bool)
    requires AllSpace(before, space) && AllSpace(after, space) && Trimmed(middle, space) && middle != ""
    ensures Trim(before + middle + after, space) == middle
  {
    assert before + middle + after == before + (middle + after);
    TrimmedAway(before, middle + after, space);
    TrimmedOff(middle, after, space);
  }

  lemma {:induction false} TrimmedAway(before: string, rest: string, space: char -> bool)
    requires AllSpace(before, space) && rest != "" && !space(rest[0])
    ensures TrimStart(before + rest, space) == rest
  {
    if before == "" {
      assert before + rest == rest;
    } else {
      var s := before + rest;
      assert s[0] == before[0] && before[0] in before;
      assert s[1..] == before[1..] + rest;
      TrimmedAway(before[1..], rest, space);
      TrimStep(s, space);
    }
  }

  lemma TrimStep(s: string, space: char -> bool)
    requires s != "" && space(s[0])
    ensures TrimStart(s, space) == TrimStart(s[1..], space)
  {
  }

  lemma {:induction false} TrimmedOff(rest: string, after: string, space: char -> bool)
    requires AllSpace(after, space) && rest != "" && !space(rest[|rest| - 1])
    ensures TrimEnd(rest + after, space) == rest
  {
    if after == "" {
      assert rest + after == rest;
    } else {
      var s := rest + after;
      TrimmedOff(rest, after[..|after| - 1], space);
      assert s[..|s| - 1] == rest + after[..|after| - 1];
    }
  }

  /** And every text is its trimmed middle with space around it. */
  lemma TrimSplits(s: string, space: char -> bool) returns (before: string, after: string)
    ensures AllSpace(before, space) && AllSpace(after, space) && s == before + Trim(s, space) + after
  {
    var rest := TrimStart(s, space);
    var middle := TrimEnd(rest, space);
    before, after := s[..|s| - |rest|], rest[|middle|..];
  }
}
