/**
 * The few pieces of Python's string behaviour the bot relies on:
 * `str.strip()`, `str.startswith`, `str.replace(old, '')` and `int(text)`.
 * Strings are sequences of Unicode code points, as in Python 3.
 */
module Text {
  import opened Wrappers

  predicate IsDigit(c: char) { '0' <= c <= '9' }

  function DigitValue(c: char): (d: nat)
    requires IsDigit(c)
    ensures d < 10
  {
    c as int - '0' as int
  }

  function DigitChar(d: nat): (c: char)
    requires d < 10
    ensures IsDigit(c) && DigitValue(c) == d
  {
    ('0' as int + d) as char
  }

  /** The characters for which Python's `str.isspace()` holds: `strip()` removes exactly these. */
  predicate IsSpace(c: char) {
    var n := c as int;
    n == 0x20 || 0x09 <= n <= 0x0D || 0x1C <= n <= 0x1F || n == 0x85 || n == 0xA0 ||
    n == 0x1680 || 0x2000 <= n <= 0x200A || n == 0x2028 || n == 0x2029 ||
    n == 0x202F || n == 0x205F || n == 0x3000
  }

  predicate StartsWith(s: string, prefix: string) {
    |prefix| <= |s| && s[..|prefix|] == prefix
  }

  /** `s.lstrip()`: the suffix of `s` left after its longest all-space prefix. */
  function TrimLeft(s: string): (r: string)
    ensures |r| <= |s| && r == s[|s| - |r|..]
    ensures forall i :: 0 <= i < |s| - |r| ==> IsSpace(s[i])
    ensures r == [] || !IsSpace(r[0])
  {
    if s != [] && IsSpace(s[0]) then TrimLeft(s[1..]) else s
  }

  /** `s.rstrip()`: the prefix of `s` left after its longest all-space suffix. */
  function TrimRight(s: string): (r: string)
    ensures |r| <= |s| && r == s[..|r|]
    ensures forall i :: |r| <= i < |s| ==> IsSpace(s[i])
    ensures r == [] || !IsSpace(r[|r| - 1])
  {
    if s != [] && IsSpace(s[|s| - 1]) then TrimRight(s[..|s| - 1]) else s
  }

  /** `r` is `s[i..j]` and every character of `s` outside that slice is a space. */
  ghost predicate SliceWithin(s: string, r: string, i: int, j: int) {
    && 0 <= i <= j <= |s| && r == s[i..j]
    && forall k :: 0 <= k < i || j <= k < |s| ==> IsSpace(s[k])
  }

  /** `s.strip()`: the slice of `s` left after removing the spaces at both ends. */
  function Strip(s: string): (r: string)
    ensures |r| <= |s|
    ensures r == [] || (!IsSpace(r[0]) && !IsSpace(r[|r| - 1]))
    ensures exists i, j :: SliceWithin(s, r, i, j)
  {
    var left := TrimLeft(s);
    var r := TrimRight(left);
    SliceBetween(s, left, r);
    r
  }

  /** A prefix of a suffix of `s`, each cut off at spaces, is a slice with only spaces outside it. */
  lemma SliceBetween(s: string, left: string, r: string)
    requires |left| <= |s| && left == s[|s| - |left|..]
    requires forall k :: 0 <= k < |s| - |left| ==> IsSpace(s[k])
    requires |r| <= |left| && r == left[..|r|]
    requires forall k :: |r| <= k < |left| ==> IsSpace(left[k])
    ensures SliceWithin(s, r, |s| - |left|, |s| - |left| + |r|)
  {
    var i := |s| - |left|;
    assert r == s[i..i + |r|] by {
      forall k | 0 <= k < |r| ensures r[k] == s[i + k] {
        assert r[k] == left[k];
      }
    }
    forall k | i + |r| <= k < |s| ensures IsSpace(s[k]) {
      assert s[k] == left[k - i];
    }
  }

  /** A string that does not start or end with a space is left alone by `strip()`. */
  lemma StripUnchanged(s: string)
    requires s == [] || (!IsSpace(s[0]) && !IsSpace(s[|s| - 1]))
    ensures Strip(s) == s
  {
  }

  /** Whether `p` occurs in `s` at index `i`. */
  predicate OccursAt(s: string, p: string, i: int) {
    0 <= i && i + |p| <= |s| && s[i..i + |p|] == p
  }

  /**
   * `s.replace(p, '')`: one left-to-right pass deleting non-overlapping
   * occurrences of `p`. The result can contain `p` again
   * ("dday_ay_".replace("day_", "") is "day_").
   */
  function RemoveAll(s: string, p: string): (r: string)
    requires p != []
    ensures |r| <= |s|
    ensures forall c :: c in r ==> c in s
    decreases |s|
  {
    if |s| < |p| then s
    else if s[..|p|] == p then RemoveAll(s[|p|..], p)
    else [s[0]] + RemoveAll(s[1..], p)
  }

  /** With no occurrence of `p` in `s`, `replace` changes nothing. */
  lemma {:induction false} RemoveAllAbsent(s: string, p: string)
    requires p != []
    requires forall i :: !OccursAt(s, p, i)
    ensures RemoveAll(s, p) == s
    decreases |s|
  {
    if |s| >= |p| {
      assert !OccursAt(s, p, 0);
      forall i ensures !OccursAt(s[1..], p, i) {
        if OccursAt(s[1..], p, i) {
          assert s[1..][i..i + |p|] == s[i + 1..i + 1 + |p|];
          assert OccursAt(s, p, i + 1);
        }
      }
      RemoveAllAbsent(s[1..], p);
    }
  }

  /** A string none of whose characters is `p[0]` holds no occurrence of `p`. */
  lemma NoFirstCharNoOccurrence(s: string, p: string)
    requires p != []
    requires forall k :: 0 <= k < |s| ==> s[k] != p[0]
    ensures forall i :: !OccursAt(s, p, i)
  {
    forall i ensures !OccursAt(s, p, i) {
      if 0 <= i && i + |p| <= |s| {
        assert s[i..i + |p|][0] == s[i];
      }
    }
  }

  /** `(p + t).replace(p, '')` is `t` when `t` holds no occurrence of `p`. */
  lemma RemovePrefix(p: string, t: string)
    requires p != []
    requires forall i :: !OccursAt(t, p, i)
    ensures RemoveAll(p + t, p) == t
  {
    assert (p + t)[..|p|] == p;
    assert (p + t)[|p|..] == t;
    RemoveAllAbsent(t, p);
  }

  // ---------------------------------------------------------------------------
  // Python's int(text) for base 10

  /** Digits, with single underscores allowed between two digits ("1_000"). */
  predicate IsIntBody(t: string) {
    && |t| > 0 && IsDigit(t[0]) && IsDigit(t[|t| - 1])
    && DigitsOrUnderscores(t)
    && forall i :: 0 <= i < |t| - 1 ==> DigitAfterUnderscore(t, i)
  }

  /** An underscore at `i` is followed by a digit. */
  predicate DigitAfterUnderscore(t: string, i: nat)
    requires i + 1 < |t|
  {
    t[i] == '_' ==> IsDigit(t[i + 1])
  }

  predicate DigitsOrUnderscores(t: string) {
    forall i :: 0 <= i < |t| ==> IsDigit(t[i]) || t[i] == '_'
  }

  /** The decimal value of the digits of `t`, underscores skipped. */
  function DigitsValue(t: string): nat
    requires DigitsOrUnderscores(t)
  {
    if t == [] then 0
    else if t[|t| - 1] == '_' then DigitsValue(t[..|t| - 1])
    else 10 * DigitsValue(t[..|t| - 1]) + DigitValue(t[|t| - 1])
  }

  /**
   * `int(s)`: surrounding whitespace, an optional sign, then digits with
   * optional single underscores between them; `None` where Python raises
   * ValueError.
   */
  function ParseInt(s: string): (r: Option<int>)
    ensures r.Some? ==> Strip(s) != [] && IsDigit(Strip(s)[|Strip(s)| - 1])
    ensures r.Some? && r.value < 0 ==> Strip(s)[0] == '-'
  {
    var t := Strip(s);
    if t != [] && (t[0] == '-' || t[0] == '+') then
      if IsIntBody(t[1..]) then
        var v: int := DigitsValue(t[1..]);
        Some(if t[0] == '-' then -v else v)
      else None
    else if IsIntBody(t) then Some(DigitsValue(t))
    else None
  }

  /** The decimal digits of `n`, most significant first, without leading zeros. */
  function NatToString(n: nat): (r: string)
    ensures r != [] && forall i :: 0 <= i < |r| ==> IsDigit(r[i])
    decreases n
  {
    if n < 10 then [DigitChar(n)] else NatToString(n / 10) + [DigitChar(n % 10)]
  }

  /** `str(n)` for an integer. */
  function IntToString(n: int): (r: string)
    ensures r != [] && forall i :: 0 <= i < |r| ==> IsDigit(r[i]) || r[i] == '-'
  {
    if n < 0 then "-" + NatToString(-n) else NatToString(n)
  }

  lemma {:induction false} NatToStringValue(n: nat)
    ensures IsIntBody(NatToString(n)) && DigitsValue(NatToString(n)) == n
    decreases n
  {
    var r := NatToString(n);
    if n >= 10 {
      NatToStringValue(n / 10);
      var front := NatToString(n / 10);
      assert r[..|r| - 1] == front;
    }
  }

  /** Digits alone read as their value. */
  lemma ParseIntDigits(t: string)
    requires IsIntBody(t)
    ensures ParseInt(t) == Some(DigitsValue(t))
  {
    StripUnchanged(t);
  }

  /** A minus sign before digits negates their value. */
  lemma ParseIntNegative(t: string)
    requires IsIntBody(t)
    ensures ParseInt("-" + t) == Some(0 - DigitsValue(t))
  {
    var s := "-" + t;
    assert s[|s| - 1] == t[|t| - 1];
    StripUnchanged(s);
    assert s[1..] == t;
  }

  /** `int(str(n)) == n`. */
  lemma ParseIntToString(n: int)
    ensures ParseInt(IntToString(n)) == Some(n)
  {
    var digits := NatToString(if n < 0 then -n else n);
    NatToStringValue(if n < 0 then -n else n);
    if n < 0 {
      ParseIntNegative(digits);
    } else {
      ParseIntDigits(digits);
    }
  }

  /** No character of `str(n)` is a letter, so no letter-led pattern occurs in it. */
  lemma IntToStringAvoids(n: int, p: string)
    requires p != [] && !IsDigit(p[0]) && p[0] != '-'
    ensures forall i :: !OccursAt(IntToString(n), p, i)
  {
    NoFirstCharNoOccurrence(IntToString(n), p);
  }
}
