/**
 * The availability text a rider sends: `H[H]:MM-H[H]:MM`, optionally
 * followed by `*` for a preferred window. The pattern is matched at the
 * start of the text only; whatever follows it is ignored.
 */
module Window {
  import opened Wrappers
  import opened Text
  import opened Times

  datatype Window = Window(start: Time, end: Time, preferred: bool)

  /** The pattern did not match, or an hour above 23 or a minute above 59 was given. */
  datatype WindowError = BadFormat | OutOfRange

  /** The four captured numbers, not yet range-checked. */
  datatype Fields = Fields(startHour: nat, startMinute: nat, endHour: nat, endMinute: nat)

  /** `time_text.endswith('*')`. */
  predicate MarkedPreferred(text: string) {
    |text| > 0 && text[|text| - 1] == '*'
  }

  /** The text the pattern is matched against: one trailing `*` removed, then stripped. */
  function Candidate(text: string): string {
    Strip(if MarkedPreferred(text) then text[..|text| - 1] else text)
  }

  /** The value of the `width` (1 or 2) digits at index `i`. */
  function NumberAt(t: string, i: nat, width: nat): (n: nat)
    requires 1 <= width <= 2 && i + width <= |t|
    requires forall k :: i <= k < i + width ==> IsDigit(t[k])
    ensures n < if width == 1 then 10 else 100
  {
    if width == 1 then DigitValue(t[i]) else 10 * DigitValue(t[i]) + DigitValue(t[i + 1])
  }

  /**
   * The reference shape: `a` hour digits, `:`, two minute digits, `-`,
   * `b` hour digits, `:`, two minute digits, from the start of `t`.
   */
  predicate ShapeAt(t: string, a: nat, b: nat) {
    && 1 <= a <= 2 && 1 <= b <= 2 && a + b + 7 <= |t|
    && (forall k :: 0 <= k < a ==> IsDigit(t[k]))
    && t[a] == ':' && IsDigit(t[a + 1]) && IsDigit(t[a + 2]) && t[a + 3] == '-'
    && (forall k :: a + 4 <= k < a + 4 + b ==> IsDigit(t[k]))
    && t[a + b + 4] == ':' && IsDigit(t[a + b + 5]) && IsDigit(t[a + b + 6])
  }

  /** The numbers a shape captures. */
  function FieldsAt(t: string, a: nat, b: nat): Fields
    requires ShapeAt(t, a, b)
  {
    Fields(NumberAt(t, 0, a), NumberAt(t, a + 1, 2), NumberAt(t, a + 4, b), NumberAt(t, a + b + 5, 2))
  }

  /**
   * How many digits `\d{1,2}:` takes at index `i` (0 when it does not match):
   * two digits if a colon follows them, else one digit followed by a colon.
   */
  function HourWidth(t: string, i: nat): (w: nat)
    ensures w <= 2
    ensures w > 0 ==> i + w < |t| && t[i + w] == ':' && forall k :: i <= k < i + w ==> IsDigit(t[k])
  {
    if i + 2 < |t| && IsDigit(t[i]) && IsDigit(t[i + 1]) && t[i + 2] == ':' then 2
    else if i + 1 < |t| && IsDigit(t[i]) && t[i + 1] == ':' then 1
    else 0
  }

  /** `re.match(r'(\d{1,2}):(\d{2})-(\d{1,2}):(\d{2})', t)`, left to right. */
  function MatchTimes(t: string): (r: Option<Fields>)
  {
    var a := HourWidth(t, 0);
    if a == 0 || !(a + 4 <= |t| && IsDigit(t[a + 1]) && IsDigit(t[a + 2]) && t[a + 3] == '-') then None
    else
      var b := HourWidth(t, a + 4);
      if b == 0 || !(a + b + 7 <= |t| && IsDigit(t[a + b + 5]) && IsDigit(t[a + b + 6])) then None
      else
        assert ShapeAt(t, a, b);
        Some(FieldsAt(t, a, b))
  }

  predicate InRange(f: Fields) {
    f.startHour < 24 && f.startMinute < 60 && f.endHour < 24 && f.endMinute < 60
  }

  /** The outcome for the captures of a match, if any: `time(...)` accepts only hours below 24 and minutes below 60. */
  function FromMatch(m: Option<Fields>, preferred: bool): (r: Result<Window, WindowError>)
    ensures r == Err(BadFormat) <==> m.None?
    ensures r == Err(OutOfRange) <==> m.Some? && !InRange(m.value)
    ensures r.Ok? ==> m.Some? && r.value == Window(
      HourMinute(m.value.startHour, m.value.startMinute), HourMinute(m.value.endHour, m.value.endMinute), preferred)
  {
    match m
    case None => Err(BadFormat)
    case Some(f) =>
      if InRange(f) then
        Ok(Window(HourMinute(f.startHour, f.startMinute), HourMinute(f.endHour, f.endMinute), preferred))
      else Err(OutOfRange)
  }

  /**
   * The parse in the availability handler. A failed match is `BadFormat`;
   * an hour above 23 or a minute above 59, where `time(...)` raises, is
   * `OutOfRange`.
   */
  function ParseWindow(text: string): (r: Result<Window, WindowError>)
    ensures r.Ok? ==> r.value.preferred == MarkedPreferred(text)
    ensures r == Err(BadFormat) <==> MatchTimes(Candidate(text)).None?
    ensures r == Err(OutOfRange) <==> MatchTimes(Candidate(text)).Some? && !InRange(MatchTimes(Candidate(text)).value)
    ensures r.Ok? ==> var f := MatchTimes(Candidate(text)).value;
      r.value.start == HourMinute(f.startHour, f.startMinute) && r.value.end == HourMinute(f.endHour, f.endMinute)
  {
    FromMatch(MatchTimes(Candidate(text)), MarkedPreferred(text))
  }

  /** Whenever the pattern matches, the text has the reference shape and the captures are its numbers. */
  lemma MatchSound(t: string) returns (a: nat, b: nat)
    requires MatchTimes(t).Some?
    ensures ShapeAt(t, a, b) && MatchTimes(t) == Some(FieldsAt(t, a, b))
  {
    a := HourWidth(t, 0);
    b := HourWidth(t, a + 4);
  }

  /** Whenever the text has the reference shape, the pattern matches and captures its numbers. */
  lemma MatchComplete(t: string, a: nat, b: nat)
    requires ShapeAt(t, a, b)
    ensures MatchTimes(t) == Some(FieldsAt(t, a, b))
  {
    assert HourWidth(t, 0) == a by {
      if a == 1 { assert !IsDigit(t[1]); }
    }
    assert HourWidth(t, a + 4) == b by {
      if b == 1 { assert !IsDigit(t[a + 5]); }
    }
  }

  /** The match is anchored at the start only: text after a match does not change it. */
  lemma MatchIgnoresSuffix(t: string, rest: string)
    requires MatchTimes(t).Some?
    ensures MatchTimes(t + rest) == MatchTimes(t)
  {
    var a, b := MatchSound(t);
    var u := t + rest;
    assert forall k :: 0 <= k < |t| ==> u[k] == t[k];
    assert ShapeAt(u, a, b);
    MatchComplete(u, a, b);
    assert FieldsAt(u, a, b) == FieldsAt(t, a, b);
  }

  /** Two digits, zero-padded, as `strftime('%H')` and `'%M'` print them. */
  function TwoDigits(n: nat): (s: string)
    requires n < 100
    ensures |s| == 2 && IsDigit(s[0]) && IsDigit(s[1])
    ensures 10 * DigitValue(s[0]) + DigitValue(s[1]) == n
  {
    [DigitChar(n / 10), DigitChar(n % 10)]
  }

  /** `HH:MM-HH:MM` for the two times of a window. */
  function FormatTimes(w: Window): (body: string)
    ensures |body| == 11 && IsDigit(body[0]) && IsDigit(body[10])
  {
    TwoDigits(w.start.hour) + ":" + TwoDigits(w.start.minute) + "-" +
    TwoDigits(w.end.hour) + ":" + TwoDigits(w.end.minute)
  }

  /** The text a rider types for a window: `HH:MM-HH:MM`, with `*` when preferred. */
  function FormatWindow(w: Window): string {
    FormatTimes(w) + (if w.preferred then "*" else "")
  }

  /** The times of a window have the two-digit shape and capture its hours and minutes. */
  lemma FormatTimesMatch(w: Window)
    ensures MatchTimes(FormatTimes(w)) == Some(Fields(w.start.hour, w.start.minute, w.end.hour, w.end.minute))
  {
    var body := FormatTimes(w);
    assert ShapeAt(body, 2, 2);
    MatchComplete(body, 2, 2);
  }

  /** The `*` is recognised and removed, and nothing is left to strip. */
  lemma FormatWindowCandidate(w: Window)
    ensures MarkedPreferred(FormatWindow(w)) == w.preferred
    ensures Candidate(FormatWindow(w)) == FormatTimes(w)
  {
    CandidateOfMarked(FormatTimes(w), w.preferred);
  }

  /** A text with no space at either end and no trailing `*`, marked or not, is its own candidate. */
  lemma CandidateOfMarked(body: string, preferred: bool)
    requires body != [] && !IsSpace(body[0]) && !IsSpace(body[|body| - 1]) && body[|body| - 1] != '*'
    ensures var text := body + (if preferred then "*" else "");
      MarkedPreferred(text) == preferred && Candidate(text) == body
  {
    var text := body + (if preferred then "*" else "");
    StripUnchanged(body);
    if preferred {
      assert text[..|text| - 1] == body;
    } else {
      assert text == body;
    }
  }

  /** Parsing the text of a window gives that window back. */
  lemma ParseFormatWindow(w: Window)
    ensures ParseWindow(FormatWindow(w)) == Ok(w)
  {
    FormatWindowCandidate(w);
    FormatTimesMatch(w);
  }

  /** A preferred evening window. */
  lemma ExamplePreferred()
    ensures ParseWindow("19:00-23:00*") == Ok(Window(HourMinute(19, 0), HourMinute(23, 0), true))
  {
    var w := Window(HourMinute(19, 0), HourMinute(23, 0), true);
    assert TwoDigits(19) == "19" && TwoDigits(0) == "00" && TwoDigits(23) == "23";
    assert FormatWindow(w) == "19:00-23:00*";
    ParseFormatWindow(w);
  }
}
