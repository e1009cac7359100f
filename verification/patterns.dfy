/**
 * The three regular expressions of the core, written as string predicates
 * that follow the structure of each pattern, each with a lemma giving its
 * plain shape:
 *   `^#[0-9A-Fa-f]{6}$`  (theme colour)
 *   `.+@.+\..+`          (e-mail, unanchored)
 *   `^\+?[0-9]{7,15}$`   (phone number)
 * None of them carries a flag, so `.` excludes line terminators and `$`
 * matches only at the end of the input.
 */
module Patterns {
  import opened JsValues

  // ---------------------------------------------------------------------
  // ^#[0-9A-Fa-f]{6}$
  // ---------------------------------------------------------------------

  /** `[0-9A-Fa-f]` */
  predicate IsHexDigit(c: char) {
    '0' <= c <= '9' || 'A' <= c <= 'F' || 'a' <= c <= 'f'
  }

  /** `[0-9A-Fa-f]{n}$`: n hex digits, one at a time, then the end of the input. */
  predicate HexRunToEnd(t: string, n: nat)
    decreases n
  {
    if n == 0 then t == "" else |t| > 0 && IsHexDigit(t[0]) && HexRunToEnd(t[1..], n - 1)
  }

  /** `/^#[0-9A-Fa-f]{6}$/.test(s)` */
  predicate MatchesHexColor(s: string) {
    |s| > 0 && s[0] == '#' && HexRunToEnd(s[1..], 6)
  }

  lemma {:induction false} HexRunToEndIff(t: string, n: nat)
    ensures HexRunToEnd(t, n) <==> |t| == n && forall k :: 0 <= k < n ==> IsHexDigit(t[k])
    decreases n
  {
    if n > 0 && |t| > 0 {
      HexRunToEndIff(t[1..], n - 1);
      assert forall k :: 1 <= k < |t| ==> t[k] == t[1..][k - 1];
    }
  }

  /** The colour pattern accepts exactly the 7-character strings `#` followed by six hex digits of either case. */
  lemma HexColorShape(s: string)
    ensures MatchesHexColor(s) <==> |s| == 7 && s[0] == '#' && forall k :: 1 <= k < 7 ==> IsHexDigit(s[k])
  {
  }

  // ---------------------------------------------------------------------
  // .+@.+\..+
  // ---------------------------------------------------------------------

  /** `.` without the s flag: any character but a line terminator. */
  predicate RegexDot(c: char) {
    !IsLineTerminator(c)
  }

  /** `.+` matching exactly the positions strictly between `lo` and `hi`. */
  predicate DotRun(s: string, lo: int, hi: int) {
    -1 <= lo && lo + 1 < hi <= |s| && forall k :: lo < k < hi ==> RegexDot(s[k])
  }

  /**
   * `/.+@.+\..+/.test(s)`: some substring splits as a run of `.`, an `@`,
   * a run of `.`, a literal `.` and a run of `.`.
   */
  predicate MatchesEmail(s: string) {
    exists b, at, dot, e | -1 <= b < |s| && 0 <= at < |s| && 0 <= dot < |s| && 0 <= e <= |s| ::
      MatchDecomposition(s, b, at, dot, e)
  }

  /**
   * The plain shape, with the `@` at `at` and the `.` at `dot`: a character
   * before the `@`, at least one character between them and none of those a
   * line terminator, and a character after the `.`.
   */
  predicate EmailShapeAt(s: string, at: int, dot: int) {
    && 0 < at && at + 1 < dot && dot + 1 < |s|
    && s[at] == '@' && s[dot] == '.'
    && RegexDot(s[at - 1]) && RegexDot(s[dot + 1])
    && forall k :: at < k < dot ==> RegexDot(s[k])
  }

  predicate EmailShape(s: string) {
    exists at, dot | 0 <= at < |s| && 0 <= dot < |s| :: EmailShapeAt(s, at, dot)
  }

  /** `MatchDecomposition` is the substring split that `MatchesEmail` asks for. */
  predicate MatchDecomposition(s: string, b: int, at: int, dot: int, e: int) {
    DotRun(s, b, at) && DotRun(s, at, dot) && DotRun(s, dot, e) && s[at] == '@' && s[dot] == '.'
  }

  lemma EmailPatternIffShape(s: string)
    ensures MatchesEmail(s) <==> EmailShape(s)
  {
    if MatchesEmail(s) {
      var b, at, dot, e :| -1 <= b < |s| && 0 <= at < |s| && 0 <= dot < |s| && 0 <= e <= |s| && MatchDecomposition(s, b, at, dot, e);
      assert EmailShapeAt(s, at, dot);
    }
    if EmailShape(s) {
      var at, dot :| 0 <= at < |s| && 0 <= dot < |s| && EmailShapeAt(s, at, dot);
      assert MatchDecomposition(s, at - 2, at, dot, dot + 2);
    }
  }

  /** The pattern is unanchored: text around an accepted address keeps it accepted. */
  lemma EmailPatternUnanchored(s: string, before: string, after: string)
    requires MatchesEmail(s)
    ensures MatchesEmail(before + s + after)
  {
    var t := before + s + after;
    var n := |before|;
    assert t == before + (s + after);
    assert (s + after)[..|s|] == s;
    assert t[n..n + |s|] == s;
    EmailPatternInside(s, t, n);
  }

  /** An accepted string stays accepted inside a longer one. */
  lemma EmailPatternInside(s: string, t: string, n: nat)
    requires n + |s| <= |t| && t[n..n + |s|] == s && MatchesEmail(s)
    ensures MatchesEmail(t)
  {
    var b, at, dot, e :| -1 <= b < |s| && 0 <= at < |s| && 0 <= dot < |s| && 0 <= e <= |s| && MatchDecomposition(s, b, at, dot, e);
    DotRunShift(s, t, n, b, at);
    DotRunShift(s, t, n, at, dot);
    DotRunShift(s, t, n, dot, e);
    assert t[n + at] == t[n..n + |s|][at] && t[n + dot] == t[n..n + |s|][dot];
    assert MatchDecomposition(t, n + b, n + at, n + dot, n + e);
  }

  /** A run of `.` inside `s` stays one when `s` sits at offset `n` of `t`. */
  lemma DotRunShift(s: string, t: string, n: nat, lo: int, hi: int)
    requires n + |s| <= |t| && t[n..n + |s|] == s && DotRun(s, lo, hi)
    ensures DotRun(t, n + lo, n + hi)
  {
  }

  /** An accepted address holds an `@`, a later `.`, and at least five characters. */
  lemma EmailPatternNeeds(s: string)
    requires MatchesEmail(s)
    ensures |s| >= 5
    ensures exists at, dot :: 0 <= at < dot < |s| && s[at] == '@' && s[dot] == '.'
  {
  }

  // ---------------------------------------------------------------------
  // ^\+?[0-9]{7,15}$
  // ---------------------------------------------------------------------

  predicate AllDigitsFrom(s: string, p: nat)
    requires p <= |s|
  {
    forall k :: p <= k < |s| ==> IsDecimalDigit(s[k])
  }

  /**
   * `/^\+?[0-9]{7,15}$/.test(s)`: the optional `+` consumes `p` characters
   * (0 or 1), and the rest is 7 to 15 ASCII digits up to the end.
   */
  predicate MatchesPhone(s: string) {
    exists p: nat :: p <= 1 && p <= |s| && (p == 1 ==> s[0] == '+') && 7 <= |s| - p <= 15 && AllDigitsFrom(s, p)
  }

  /** The plain shape: strip one leading `+` if there is one; what remains is 7 to 15 digits. */
  predicate PhoneShape(s: string) {
    if |s| > 0 && s[0] == '+' then SevenToFifteenDigits(s[1..]) else SevenToFifteenDigits(s)
  }

  predicate SevenToFifteenDigits(d: string) {
    7 <= |d| <= 15 && forall k :: 0 <= k < |d| ==> IsDecimalDigit(d[k])
  }

  lemma PhonePatternIffShape(s: string)
    ensures MatchesPhone(s) <==> PhoneShape(s)
  {
    if |s| > 0 && s[0] == '+' {
      assert forall k :: 1 <= k < |s| ==> s[k] == s[1..][k - 1];
      assert !AllDigitsFrom(s, 0);
      if PhoneShape(s) {
        assert AllDigitsFrom(s, 1);
      }
    } else if PhoneShape(s) {
      assert AllDigitsFrom(s, 0);
    }
  }

  /** A plain positive integer of 7 to 15 digits passes the phone check once `test` turns it into a string. */
  lemma PhoneAcceptsLongNumber(n: nat)
    requires 7 <= |NatToDecimal(n)| <= 15
    ensures MatchesPhone(ToJsString(Num(n)))
  {
    var s := NatToDecimal(n);
    assert ToJsString(Num(n)) == s;
    assert AllDigitsFrom(s, 0);
  }
}
