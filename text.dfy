/**
 * The string operations of the Java standard library that the core relies
 * on: `startsWith`, `replace`, ASCII `toLowerCase` and `Integer.parseInt`.
 */
module Text {
  import opened Wrappers

  /** Bounds of a Java `int`. */
  const IntMin: int := -0x8000_0000
  const IntMax: int := 0x7fff_ffff

  predicate StartsWith(s: string, prefix: string) {
    |prefix| <= |s| && s[..|prefix|] == prefix
  }

  /** `pat` occurs somewhere in `s`. */
  predicate Contains(s: string, pat: string)
    decreases |s|
  {
    StartsWith(s, pat) || (|s| > 0 && Contains(s[1..], pat))
  }

  /**
   * Java's `String.replace(target, replacement)` for a non-empty target:
   * every occurrence of `pat`, scanned left to right without overlap, is
   * replaced by `rep`.
   */
  function ReplaceAll(s: string, pat: string, rep: string): (r: string)
    requires |pat| > 0
    ensures pat[0] !in s ==> r == s
    decreases |s|
  {
    if |s| < |pat| then s
    else if s[..|pat|] == pat then rep + ReplaceAll(s[|pat|..], pat, rep)
    else [s[0]] + ReplaceAll(s[1..], pat, rep)
  }

  /** A string in which `pat` does not occur is left as it is. */
  lemma {:induction false} ReplaceAllAbsent(s: string, pat: string, rep: string)
    requires |pat| > 0 && !Contains(s, pat)
    ensures ReplaceAll(s, pat, rep) == s
    decreases |s|
  {
    if |s| >= |pat| {
      assert !StartsWith(s, pat);
      ReplaceAllAbsent(s[1..], pat, rep);
      assert [s[0]] + s[1..] == s;
    }
  }

  /** Replacing a pattern by itself changes nothing. */
  lemma {:induction false} ReplaceAllSelf(s: string, pat: string)
    requires |pat| > 0
    ensures ReplaceAll(s, pat, pat) == s
    decreases |s|
  {
    if |s| >= |pat| {
      if s[..|pat|] == pat {
        ReplaceAllSelf(s[|pat|..], pat);
        assert pat + s[|pat|..] == s;
      } else {
        ReplaceAllSelf(s[1..], pat);
        assert [s[0]] + s[1..] == s;
      }
    }
  }

  /** An occurrence of `pat` starts at index `i` of `t`. */
  predicate MatchAt(t: string, i: nat, pat: string)
    requires i <= |t|
  {
    StartsWith(t[i..], pat)
  }

  /** No occurrence of `pat` in `a + s` starts inside `a` (it may start in `s`). */
  predicate NoMatchStartsIn(a: string, s: string, pat: string) {
    forall i :: 0 <= i < |a| ==> !MatchAt(a + s, i, pat)
  }

  /** No occurrence of `pat` starts anywhere in `x`. */
  predicate NoMatch(x: string, pat: string) {
    NoMatchStartsIn(x, [], pat)
  }

  /** No occurrence starts at the front, nor in the rest of the prefix. */
  lemma NoMatchStartsInRest(a: string, s: string, pat: string)
    requires |a| > 0 && NoMatchStartsIn(a, s, pat)
    ensures !StartsWith(a + s, pat)
    ensures NoMatchStartsIn(a[1..], s, pat)
  {
    var t := a + s;
    assert !MatchAt(t, 0, pat) && t[0..] == t;
    forall i | 0 <= i < |a| - 1
      ensures !MatchAt(a[1..] + s, i, pat)
    {
      assert !MatchAt(t, i + 1, pat);
      assert (a[1..] + s)[i..] == t[i + 1..];
    }
  }

  /**
   * A prefix in which no occurrence starts is copied unchanged, and the scan
   * continues after it; this holds even where the prefix holds the
   * pattern's first character without the rest of the pattern.
   */
  lemma {:induction false} ReplaceAllSkipsPrefix(a: string, s: string, pat: string, rep: string)
    requires |pat| > 0 && NoMatchStartsIn(a, s, pat)
    ensures ReplaceAll(a + s, pat, rep) == a + ReplaceAll(s, pat, rep)
    decreases |a|
  {
    if |a| == 0 {
      assert a + s == s;
    } else {
      NoMatchStartsInRest(a, s, pat);
      ReplaceAllSkipsPrefix(a[1..], s, pat, rep);
      ReplaceAllNoMatchAtFront(a + s, pat, rep);
      ConsSplit(a, s, ReplaceAll(s, pat, rep));
    }
  }

  /** Splitting off the first character of a non-empty prefix. */
  lemma ConsSplit(a: string, s: string, r: string)
    requires |a| > 0
    ensures (a + s)[0] == a[0] && (a + s)[1..] == a[1..] + s
    ensures [a[0]] + (a[1..] + r) == a + r
  {
    assert [a[0]] + a[1..] == a;
  }

  /** Where no occurrence starts at the front, the first character is copied. */
  lemma ReplaceAllNoMatchAtFront(t: string, pat: string, rep: string)
    requires |pat| > 0 && |t| > 0 && !StartsWith(t, pat)
    ensures ReplaceAll(t, pat, rep) == [t[0]] + ReplaceAll(t[1..], pat, rep)
  {
    if |t| < |pat| {
      assert ReplaceAll(t[1..], pat, rep) == t[1..];
      assert [t[0]] + t[1..] == t;
    }
  }

  /** A string in which no occurrence starts is left as it is. */
  lemma ReplaceAllNoMatch(x: string, pat: string, rep: string)
    requires |pat| > 0 && NoMatch(x, pat)
    ensures ReplaceAll(x, pat, rep) == x
  {
    ReplaceAllSkipsPrefix(x, [], pat, rep);
    assert x + [] == x;
  }

  /** Regrouping a three-part concatenation. */
  lemma Regroup(x: string, y: string, z: string)
    ensures x + y + z == x + (y + z)
  {
  }

  /** Regrouping a five-part concatenation. */
  lemma ConcatRegroup(x: string, y: string, z: string, u: string, v: string)
    ensures x + y + z + u + v == x + y + (z + u + v)
  {
  }

  /** An occurrence at the front is replaced, and the scan resumes after it. */
  lemma ReplaceAllAtMatch(pat: string, rest: string, rep: string)
    requires |pat| > 0
    ensures ReplaceAll(pat + rest, pat, rep) == rep + ReplaceAll(rest, pat, rep)
  {
    var t := pat + rest;
    assert t[..|pat|] == pat && t[|pat|..] == rest;
  }

  /**
   * One occurrence, with no other occurrence starting before or after it,
   * is replaced and everything around it is kept.
   */
  lemma ReplaceAllOnce(a: string, pat: string, b: string, rep: string)
    requires |pat| > 0 && NoMatchStartsIn(a, pat + b, pat) && NoMatch(b, pat)
    ensures ReplaceAll(a + pat + b, pat, rep) == a + rep + b
  {
    Regroup(a, pat, b);
    ReplaceAllSkipsPrefix(a, pat + b, pat, rep);
    ReplaceAllAtMatch(pat, b, rep);
    ReplaceAllNoMatch(b, pat, rep);
    Regroup(a, rep, b);
  }

  function LowerChar(c: char): char {
    if 'A' <= c <= 'Z' then (c as int - 'A' as int + 'a' as int) as char else c
  }

  /**
   * `toLowerCase()` restricted to ASCII letters (enum constant names are
   * ASCII): no capital is left, each capital becomes its small letter, and
   * every other character is kept.
   */
  function ToLowerAscii(s: string): (r: string)
    ensures |r| == |s|
    ensures forall i :: 0 <= i < |r| ==> !('A' <= r[i] <= 'Z')
    ensures forall i :: 0 <= i < |s| && 'A' <= s[i] <= 'Z' ==> r[i] == (s[i] as int + 32) as char
    ensures forall i :: 0 <= i < |s| && !('A' <= s[i] <= 'Z') ==> r[i] == s[i]
  {
    seq(|s|, i requires 0 <= i < |s| => LowerChar(s[i]))
  }

  predicate IsDigit(c: char) {
    '0' <= c <= '9'
  }

  predicate AllDigits(s: string) {
    forall i :: 0 <= i < |s| ==> IsDigit(s[i])
  }

  /** The value of a string of decimal digits, most significant first. */
  function DigitsValue(s: string): nat
    requires AllDigits(s)
    decreases |s|
  {
    if |s| == 0 then 0
    else 10 * DigitsValue(s[..|s| - 1]) + (s[|s| - 1] as int - '0' as int)
  }

  /**
   * `Integer.parseInt(s)`: an optional `-` or `+`, then at least one decimal
   * digit, and a value that fits in an `int`; anything else is the
   * `NumberFormatException` case, `None`.
   */
  function ParseInt(s: string): (r: Option<int>)
    ensures r.Some? ==> IntMin <= r.value <= IntMax
    ensures r.Some? ==> exists i :: 0 <= i < |s| && IsDigit(s[i])
  {
    if |s| == 0 then None
    else if s[0] == '-' || s[0] == '+' then
      if |s| == 1 || !AllDigits(s[1..]) then None
      else
        var magnitude: int := DigitsValue(s[1..]);
        var v: int := if s[0] == '-' then -magnitude else magnitude;
        assert IsDigit(s[1..][0]);
        if IntMin <= v <= IntMax then Some(v) else None
    else if AllDigits(s) then
      assert IsDigit(s[0]);
      if DigitsValue(s) <= IntMax then Some(DigitsValue(s)) else None
    else None
  }

  function DigitChar(d: nat): char
    requires d < 10
  {
    ('0' as int + d) as char
  }

  /** `Integer.toString(n)` for a non-negative `n`: the decimal digits of `n`. */
  function DecimalString(n: nat): string
    decreases n
  {
    if n < 10 then [DigitChar(n)] else DecimalString(n / 10) + [DigitChar(n % 10)]
  }

  lemma {:induction false} DecimalStringDigits(n: nat)
    ensures |DecimalString(n)| > 0
    ensures AllDigits(DecimalString(n)) && DigitsValue(DecimalString(n)) == n
    decreases n
  {
    if n >= 10 {
      DecimalStringDigits(n / 10);
      var s := DecimalString(n);
      assert s[..|s| - 1] == DecimalString(n / 10);
    }
  }

  /**
   * Parsing inverts printing: every `int`, written in decimal with a minus
   * sign when negative, parses back to itself.
   */
  lemma ParseIntDecimal(n: int)
    requires IntMin <= n <= IntMax
    ensures n >= 0 ==> ParseInt(DecimalString(n)) == Some(n)
    ensures n < 0 ==> ParseInt("-" + DecimalString(-n)) == Some(n)
  {
    if n >= 0 {
      DecimalStringDigits(n);
      assert IsDigit(DecimalString(n)[0]);
    } else {
      DecimalStringDigits(-n);
      var s := "-" + DecimalString(-n);
      assert s[1..] == DecimalString(-n);
    }
  }
}
