/**
 * The Python string and slice operations that the response-shaping code
 * relies on: `strip`, `in`, `split`, `lower`, `s[:k]` and `str(int)`.
 */
module Text {
  import opened Wrappers

  /** Python's `s[:k]` for `k >= 0`: the first `k` elements, or all of them. */
  function Take<T>(s: seq<T>, k: nat): (r: seq<T>)
    ensures |r| == if |s| < k then |s| else k
    ensures r == s[..|r|]
  {
    if |s| < k then s else s[..k]
  }

  /** The characters for which Python's `str.isspace()` holds. */
  predicate IsSpace(c: char) {
    || c == ' '
    || ('\t' <= c <= '\r')
    || ('\U{1C}' <= c <= '\U{1F}')
    || c == '\U{85}' || c == '\U{A0}' || c == '\U{1680}'
    || ('\U{2000}' <= c <= '\U{200A}')
    || c == '\U{2028}' || c == '\U{2029}' || c == '\U{202F}' || c == '\U{205F}' || c == '\U{3000}'
  }

  /** The number of whitespace characters at the start of `s`. */
  function LeadingSpaces(s: string): (n: nat)
    ensures n <= |s|
    ensures forall i | 0 <= i < n :: IsSpace(s[i])
    ensures n < |s| ==> !IsSpace(s[n])
  {
    if s != [] && IsSpace(s[0]) then 1 + LeadingSpaces(s[1..]) else 0
  }

  /** The number of whitespace characters at the end of `s`. */
  function TrailingSpaces(s: string): (n: nat)
    ensures n <= |s|
    ensures forall i | |s| - n <= i < |s| :: IsSpace(s[i])
    ensures n < |s| ==> !IsSpace(s[|s| - 1 - n])
  {
    if s != [] && IsSpace(s[|s| - 1]) then 1 + TrailingSpaces(s[..|s| - 1]) else 0
  }

  /**
   * Python's `s.strip()`: the slice of `s` that is left once the whitespace
   * at both ends is removed; it neither starts nor ends with whitespace.
   */
  function Strip(s: string): (r: string)
    ensures LeadingSpaces(s) + |r| <= |s|
    ensures r == s[LeadingSpaces(s)..LeadingSpaces(s) + |r|]
    ensures r == [] || (!IsSpace(r[0]) && !IsSpace(r[|r| - 1]))
    ensures forall i | LeadingSpaces(s) + |r| <= i < |s| :: IsSpace(s[i])
  {
    var t := s[LeadingSpaces(s)..];
    t[..|t| - TrailingSpaces(t)]
  }

  /** Stripping twice is stripping once. */
  lemma StripIdempotent(s: string)
    ensures Strip(Strip(s)) == Strip(s)
  {
    var r := Strip(s);
    assert LeadingSpaces(r) == 0;
    assert TrailingSpaces(r[LeadingSpaces(r)..]) == 0;
  }

  /** `p` occurs in `s` starting at index `i`. */
  predicate OccursAt(s: string, p: string, i: int) {
    0 <= i && i + |p| <= |s| && s[i..i + |p|] == p
  }

  /** The first occurrence of `p` in `s` at or after `from`. */
  function IndexFrom(s: string, p: string, from: nat): (r: Option<nat>)
    ensures r.Some? ==> from <= r.value && OccursAt(s, p, r.value)
    ensures forall k | from <= k && (r.None? || k < r.value) :: !OccursAt(s, p, k)
    decreases |s| - from
  {
    if from + |p| > |s| then None
    else if s[from..from + |p|] == p then Some(from)
    else IndexFrom(s, p, from + 1)
  }

  /** Python's `s.find(p)`, with `None` where Python returns -1. */
  function IndexOf(s: string, p: string): (r: Option<nat>)
    ensures r.Some? ==> OccursAt(s, p, r.value)
    ensures forall k | 0 <= k && (r.None? || k < r.value) :: !OccursAt(s, p, k)
  {
    IndexFrom(s, p, 0)
  }

  /** Python's `p in s`. */
  predicate Contains(s: string, p: string) {
    IndexOf(s, p).Some?
  }

  /** Any occurrence makes `p in s` true. */
  lemma OccurrenceContains(s: string, p: string, k: int)
    requires OccursAt(s, p, k)
    ensures Contains(s, p)
  {
  }

  /** The text before the first occurrence of `p`, or all of `s` when there is none. */
  function Before(s: string, p: string): (r: string)
    ensures |r| <= |s| && r == s[..|r|]
  {
    match IndexOf(s, p)
    case Some(i) => s[..i]
    case None => s
  }

  /** The text after the first occurrence of `p`. */
  function After(s: string, p: string): (r: string)
    requires Contains(s, p)
    ensures |r| + |p| <= |s| && r == s[|s| - |r|..]
  {
    s[IndexOf(s, p).value + |p|..]
  }

  /** The text between the first and the second occurrence of `p` (or the end of `s`). */
  function Segment(s: string, p: string): string
    requires Contains(s, p)
  {
    Before(After(s, p), p)
  }

  /** Python's `s.split(sep)` for a non-empty separator. */
  function Split(s: string, sep: string): (parts: seq<string>)
    requires sep != []
    ensures |parts| >= 1
    decreases |s|
  {
    match IndexOf(s, sep)
    case None => [s]
    case Some(i) => [s[..i]] + Split(s[i + |sep|..], sep)
  }

  /** `s.split(sep)[0]` is the text before the first separator. */
  lemma SplitFirst(s: string, sep: string)
    requires sep != []
    ensures Split(s, sep)[0] == Before(s, sep)
  {
  }

  /** When `sep` occurs, `s.split(sep)[1]` exists and is the text between its first two occurrences. */
  lemma SplitSecond(s: string, sep: string)
    requires sep != [] && Contains(s, sep)
    ensures |Split(s, sep)| >= 2 && Split(s, sep)[1] == Segment(s, sep)
  {
    var i := IndexOf(s, sep).value;
    SplitFirst(s[i + |sep|..], sep);
  }

  /** An occurrence inside a slice is an occurrence in the whole string. */
  lemma {:induction false} SliceContains(s: string, a: int, b: int, p: string)
    requires 0 <= a <= b <= |s| && Contains(s[a..b], p)
    ensures Contains(s, p)
  {
    var k := IndexOf(s[a..b], p).value;
    var r := s[a..b];
    assert OccursAt(r, p, k);
    forall t | 0 <= t < |p| ensures p[t] == s[a + k + t] {
      assert r[k..k + |p|][t] == p[t];
    }
    assert s[a + k..a + k + |p|] == p;
    OccurrenceContains(s, p, a + k);
  }

  /** A string contains each of its middle parts. */
  lemma InfixContains(a: string, b: string, c: string)
    ensures Contains(a + b + c, b)
  {
    var s := a + b + c;
    assert s[|a|..|a| + |b|] == b;
    OccurrenceContains(s, b, |a|);
  }

  /** The text before the first occurrence of a non-empty `p` does not contain `p`. */
  lemma {:induction false} BeforeExcludes(s: string, p: string)
    requires p != []
    ensures !Contains(Before(s, p), p)
  {
    var r := Before(s, p);
    if Contains(r, p) {
      var k := IndexOf(r, p).value;
      assert r[k..k + |p|] == s[k..k + |p|];
      assert OccursAt(s, p, k);
      assert false;
    }
  }

  /** Taking the text before `p` twice changes nothing the second time. */
  lemma BeforeIdempotent(s: string, p: string)
    requires p != []
    ensures Before(Before(s, p), p) == Before(s, p)
  {
    BeforeExcludes(s, p);
  }

  /** An occurrence in a prefix of `s` is an occurrence in `s`. */
  lemma PrefixOccurrence(s: string, n: int, q: string, k: int)
    requires 0 <= n <= |s| && OccursAt(s[..n], q, k)
    ensures OccursAt(s, q, k)
  {
    assert s[..n][k..k + |q|] == s[k..k + |q|];
  }

  /** Cutting `s` after its first occurrence of `q` keeps that first occurrence first. */
  lemma {:induction false} PrefixKeepsFirst(s: string, n: int, q: string)
    requires IndexOf(s, q).Some? && IndexOf(s, q).value + |q| <= n <= |s|
    ensures IndexOf(s[..n], q) == IndexOf(s, q)
  {
    var j := IndexOf(s, q).value;
    assert s[..n][j..j + |q|] == s[j..j + |q|];
    assert OccursAt(s[..n], q, j);
    var r := IndexOf(s[..n], q);
    assert r.Some? && r.value <= j;
    if r.value < j {
      PrefixOccurrence(s, n, q, r.value);
    }
  }

  /** A prefix that ends before the first occurrence of `q` is complete does not contain `q`. */
  lemma {:induction false} PrefixMissesFirst(s: string, n: int, q: string)
    requires 0 <= n <= |s|
    requires IndexOf(s, q).None? || n < IndexOf(s, q).value + |q|
    ensures !Contains(s[..n], q)
  {
    if Contains(s[..n], q) {
      var k := IndexOf(s[..n], q).value;
      PrefixOccurrence(s, n, q, k);
    }
  }

  /**
   * Cutting first at `p` and then at its prefix `q` is cutting at `q`, as long
   * as the first `q` does not straddle the start of the first `p`.
   */
  lemma {:induction false} BeforeNested(s: string, p: string, q: string)
    requires q != [] && |q| <= |p| && p[..|q|] == q
    requires IndexOf(s, p).Some? && IndexOf(s, q).Some? ==>
               IndexOf(s, q).value + |q| <= IndexOf(s, p).value || IndexOf(s, q).value == IndexOf(s, p).value
    ensures Before(Before(s, p), q) == Before(s, q)
  {
    match IndexOf(s, p)
    case None =>
    case Some(i) =>
      assert s[i..i + |q|] == p[..|q|];
      OccurrenceContains(s, q, i);
      var j := IndexOf(s, q).value;
      if j + |q| <= i {
        PrefixKeepsFirst(s, i, q);
      } else {
        PrefixMissesFirst(s, i, q);
      }
  }

  /**
   * A pattern that neither starts nor ends with whitespace occurs in `s`
   * exactly when it occurs in `s.strip()`.
   */
  lemma {:induction false} StripKeepsOccurrences(s: string, p: string)
    requires p != [] && !IsSpace(p[0]) && !IsSpace(p[|p| - 1])
    ensures Contains(Strip(s), p) <==> Contains(s, p)
  {
    var r := Strip(s);
    if Contains(r, p) {
      SliceContains(s, LeadingSpaces(s), LeadingSpaces(s) + |r|, p);
    }
    if Contains(s, p) {
      OccurrenceSurvivesStrip(s, p, IndexOf(s, p).value);
    }
  }

  /** An occurrence of a pattern with non-whitespace ends lies inside the stripped text. */
  lemma OccurrenceSurvivesStrip(s: string, p: string, k: int)
    requires p != [] && !IsSpace(p[0]) && !IsSpace(p[|p| - 1]) && OccursAt(s, p, k)
    ensures Contains(Strip(s), p)
  {
    var a := LeadingSpaces(s);
    var r := Strip(s);
    assert s[k] == s[k..k + |p|][0] == p[0];
    assert s[k + |p| - 1] == s[k..k + |p|][|p| - 1] == p[|p| - 1];
    assert a <= k && k + |p| <= a + |r|;
    assert r[k - a..k - a + |p|] == s[a..a + |r|][k - a..k - a + |p|] == s[k..k + |p|];
    OccurrenceContains(r, p, k - a);
  }

  /** Python's `str.lower()` on one character, for the ASCII letters. */
  function LowerChar(c: char): char {
    if 'A' <= c <= 'Z' then (c as int + 32) as char else c
  }

  /** Python's `s.lower()`, for the ASCII letters. */
  function Lower(s: string): (r: string)
    ensures |r| == |s|
  {
    seq(|s|, i requires 0 <= i < |s| => LowerChar(s[i]))
  }

  /**
   * Lower-casing leaves no capital: each capital is replaced by its small
   * letter and every other character is unchanged.
   */
  lemma LowerCases(s: string)
    ensures forall i | 0 <= i < |s| :: !('A' <= Lower(s)[i] <= 'Z')
    ensures forall i | 0 <= i < |s| :: 'A' <= s[i] <= 'Z' ==> Lower(s)[i] as int == s[i] as int + 32
    ensures forall i | 0 <= i < |s| :: !('A' <= s[i] <= 'Z') ==> Lower(s)[i] == s[i]
  {
  }

  /** Lower-casing twice is lower-casing once. */
  lemma LowerIdempotent(s: string)
    ensures Lower(Lower(s)) == Lower(s)
  {
    var r := Lower(s);
    LowerCases(s);
    LowerCases(r);
    assert forall i | 0 <= i < |r| :: Lower(r)[i] == r[i];
  }

  /** The decimal digit character for `d`. */
  function DigitChar(d: nat): (c: char)
    requires d < 10
    ensures '0' <= c <= '9' && c as int - '0' as int == d
  {
    (d + '0' as int) as char
  }

  predicate IsDigits(s: string) {
    forall i | 0 <= i < |s| :: '0' <= s[i] <= '9'
  }

  /** Python's `str(n)` for a natural number: its decimal digits, without leading zeros. */
  function NatToString(n: nat): (r: string)
    ensures |r| >= 1 && IsDigits(r)
    ensures r[0] == '0' ==> n == 0
  {
    if n < 10 then [DigitChar(n)] else NatToString(n / 10) + [DigitChar(n % 10)]
  }

  /** Python's `str(i)` for an integer: a minus sign before the digits of a negative number. */
  function IntToString(i: int): string {
    if i < 0 then "-" + NatToString(-i) else NatToString(i)
  }

  /** The number that a string of decimal digits denotes. */
  function DigitsValue(s: string): nat
    requires IsDigits(s)
  {
    if s == [] then 0 else 10 * DigitsValue(s[..|s| - 1]) + (s[|s| - 1] as int - '0' as int)
  }

  /** Reads back an optionally signed decimal integer, as Python's `int(s)` does for such text. */
  function DecimalValue(s: string): Option<int> {
    if |s| >= 2 && s[0] == '-' && IsDigits(s[1..]) then Some(0 - DigitsValue(s[1..]))
    else if |s| >= 1 && IsDigits(s) then Some(DigitsValue(s))
    else None
  }

  lemma {:induction false} NatToStringValue(n: nat)
    ensures DigitsValue(NatToString(n)) == n
  {
    if n >= 10 {
      NatToStringValue(n / 10);
      var r := NatToString(n);
      assert r[..|r| - 1] == NatToString(n / 10);
    }
  }

  /** The digits of a natural number read back as that number. */
  lemma NatTextValue(n: nat)
    ensures DecimalValue(NatToString(n)) == Some(n)
  {
    var s := NatToString(n);
    NatToStringValue(n);
    assert '0' <= s[0] <= '9';
    assert DecimalValue(s) == Some(DigitsValue(s));
  }

  /** A minus sign before the digits of `n` reads back as `-n`. */
  lemma NegatedTextValue(n: nat)
    ensures DecimalValue("-" + NatToString(n)) == Some(-(n as int))
  {
    var digits := NatToString(n);
    var s := "-" + digits;
    NatToStringValue(n);
    assert s[1..] == digits;
    assert |s| >= 2 && s[0] == '-' && IsDigits(s[1..]);
    assert DecimalValue(s) == Some(0 - DigitsValue(digits));
  }

  /** `str(i)` reads back as `i`: the text form of an integer loses nothing. */
  lemma IntToStringRoundTrip(i: int)
    ensures DecimalValue(IntToString(i)) == Some(i)
  {
    if i < 0 {
      NegatedTextValue(-i);
    } else {
      NatTextValue(i);
    }
  }
}
