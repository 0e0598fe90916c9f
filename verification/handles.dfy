/** The two `@Pattern` grammars for a user's public handle.

    online.judge `User.handle`:
      `^(?!.*[-_]{2})(?!.*[-_]$)[a-zA-Z][a-zA-Z0-9_-]{0,19}$`
    dsa `User.handle`:
      `^[a-zA-Z]\w{2,20}$`

    Hibernate's pattern validator matches the whole string. A string the main
    part of the first pattern accepts holds no line terminator, so its `.*`
    lookaheads range over the whole string. Each grammar is stated the way
    the regular expression reads (`JudgeHandle`, `DsaHandle`) and decided by
    a single left-to-right scan (`MatchJudgeHandle`, `MatchDsaHandle`). */
module Handles {
  import opened Text

  /** `[-_]` */
  predicate IsSeparator(c: char) {
    c == '-' || c == '_'
  }

  /** `[a-zA-Z0-9_-]` */
  predicate IsJudgeHandleChar(c: char) {
    IsAsciiLetter(c) || IsAsciiDigit(c) || IsSeparator(c)
  }

  /** `(?!.*[-_]{2})`: no two neighbouring separators. */
  predicate NoAdjacentSeparators(h: string) {
    forall i :: 1 <= i < |h| ==> !(IsSeparator(h[i - 1]) && IsSeparator(h[i]))
  }

  /** What `(?!.*[-_]$)` forbids. */
  predicate EndsWithSeparator(h: string) {
    |h| > 0 && IsSeparator(h[|h| - 1])
  }

  /** The online.judge handle pattern. */
  predicate JudgeHandle(h: string) {
    && NoAdjacentSeparators(h)
    && !EndsWithSeparator(h)
    && 1 <= |h| <= 20
    && IsAsciiLetter(h[0])
    && forall i :: 1 <= i < |h| ==> IsJudgeHandleChar(h[i])
  }

  /** The dsa handle pattern. */
  predicate DsaHandle(h: string) {
    && 3 <= |h| <= 21
    && IsAsciiLetter(h[0])
    && forall i :: 1 <= i < |h| ==> IsWordChar(h[i])
  }

  /** Decides the online.judge pattern in one pass. */
  method MatchJudgeHandle(h: string) returns (ok: bool)
    ensures ok <==> JudgeHandle(h)
  {
    if |h| == 0 || |h| > 20 || !IsAsciiLetter(h[0]) {
      return false;
    }
    var i := 1;
    while i < |h|
      invariant 1 <= i <= |h|
      invariant forall k :: 1 <= k < i ==> IsJudgeHandleChar(h[k])
      invariant forall k :: 1 <= k < i ==> !(IsSeparator(h[k - 1]) && IsSeparator(h[k]))
    {
      if !IsJudgeHandleChar(h[i]) || (IsSeparator(h[i - 1]) && IsSeparator(h[i])) {
        return false;
      }
      i := i + 1;
    }
    ok := !IsSeparator(h[|h| - 1]);
  }

  /** Decides the dsa pattern in one pass. */
  method MatchDsaHandle(h: string) returns (ok: bool)
    ensures ok <==> DsaHandle(h)
  {
    if |h| < 3 || |h| > 21 || !IsAsciiLetter(h[0]) {
      return false;
    }
    var i := 1;
    while i < |h|
      invariant 1 <= i <= |h|
      invariant forall k :: 1 <= k < i ==> IsWordChar(h[k])
    {
      if !IsWordChar(h[i]) {
        return false;
      }
      i := i + 1;
    }
    return true;
  }

  /** What the online.judge handle documentation promises of an accepted handle. */
  lemma JudgeHandleShape(h: string)
    requires JudgeHandle(h)
    ensures 1 <= |h| <= 20
    ensures IsAsciiLetter(h[0])
    ensures forall i :: 0 <= i < |h| ==> IsJudgeHandleChar(h[i])
    ensures IsAsciiLetter(h[|h| - 1]) || IsAsciiDigit(h[|h| - 1])
  {
    assert IsJudgeHandleChar(h[|h| - 1]);
  }

  /** "__", "--", "_-" and "-_" are each rejected wherever they occur. */
  lemma JudgeHandleRejectsDoubledSeparator(h: string, i: nat)
    requires i + 1 < |h|
    requires h[i..i + 2] in ["__", "--", "_-", "-_"]
    ensures !JudgeHandle(h)
  {
    assert h[i] == h[i..i + 2][0] && h[i + 1] == h[i..i + 2][1];
    assert IsSeparator(h[i]) && IsSeparator(h[i + 1]);
  }

  /** What the dsa pattern promises of an accepted handle: a letter first,
      then word characters only (so never '-'), 3 to 21 characters in all. */
  lemma DsaHandleShape(h: string)
    requires DsaHandle(h)
    ensures 3 <= |h| <= 21
    ensures IsAsciiLetter(h[0])
    ensures forall i :: 0 <= i < |h| ==> IsWordChar(h[i]) && h[i] != '-'
  {
  }

  /** Where the grammars meet: an online.judge handle of at least three
      characters without '-' is also a dsa handle ... */
  lemma JudgeHandleIsDsaHandle(h: string)
    requires JudgeHandle(h)
    requires 3 <= |h|
    requires '-' !in h
    ensures DsaHandle(h)
  {
    forall i | 1 <= i < |h|
      ensures IsWordChar(h[i])
    {
      assert h[i] in h;
    }
  }

  /** ... and a dsa handle of at most 20 characters that neither doubles nor
      ends in an underscore is an online.judge handle. */
  lemma DsaHandleIsJudgeHandle(h: string)
    requires DsaHandle(h)
    requires |h| <= 20
    requires NoAdjacentSeparators(h)
    requires h[|h| - 1] != '_'
    ensures JudgeHandle(h)
  {
    assert IsWordChar(h[|h| - 1]);
  }

  /** The two grammars differ: a 21-letter handle is dsa-only, "ab-c" is online.judge-only. */
  lemma GrammarsDiffer()
    ensures DsaHandle("abcdefghijklmnopqrstu") && !JudgeHandle("abcdefghijklmnopqrstu")
    ensures JudgeHandle("ab-c") && !DsaHandle("ab-c")
  {
    assert !IsWordChar("ab-c"[2]);
  }
}
