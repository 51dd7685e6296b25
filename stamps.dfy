/**
 * Date-time values of the core properties and their W3CDTF text form,
 * `strftime('%Y-%m-%dT%H:%M:%SZ')`: four-digit year, then two-digit
 * month, day, hour, minute and second, zero-padded, with no fraction of a
 * second and no zone offset other than the literal `Z`.
 */
module Stamps {
  import opened Wrappers

  /** A naive calendar date and time of day, field by field as a Python `datetime` holds it. */
  datatype DateTime = DateTime(year: nat, month: nat, day: nat, hour: nat, minute: nat, second: nat, microsecond: nat)

  predicate IsLeap(y: nat) {
    y % 4 == 0 && (y % 100 != 0 || y % 400 == 0)
  }

  function DaysIn(y: nat, m: nat): nat {
    if m == 2 then (if IsLeap(y) then 29 else 28)
    else if m in {4, 6, 9, 11} then 30
    else 31
  }

  /** The ranges a `datetime` enforces on its fields. */
  predicate ValidDateTime(d: DateTime) {
    1 <= d.year <= 9999 && 1 <= d.month <= 12 && 1 <= d.day <= DaysIn(d.year, d.month) &&
    d.hour < 24 && d.minute < 60 && d.second < 60 && d.microsecond < 1000000
  }

  type Timestamp = d: DateTime | ValidDateTime(d) witness DateTime(1, 1, 1, 0, 0, 0, 0)

  function Pow10(n: nat): nat {
    if n == 0 then 1 else 10 * Pow10(n - 1)
  }

  predicate IsDigit(c: char) {
    '0' <= c <= '9'
  }

  predicate AllDigits(s: string) {
    forall i :: 0 <= i < |s| ==> IsDigit(s[i])
  }

  function DigitChar(n: nat): (c: char)
    requires n < 10
    ensures IsDigit(c)
  {
    ('0' as int + n) as char
  }

  /** The low `width` decimal digits of `n`, zero-padded on the left. */
  function Pad(n: nat, width: nat): (s: string)
    ensures |s| == width
  {
    if width == 0 then "" else Pad(n / 10, width - 1) + [DigitChar(n % 10)]
  }

  /** The number a string of decimal digits stands for. */
  function DigitsValue(s: string): (v: int)
    ensures AllDigits(s) ==> v >= 0
  {
    if s == [] then 0 else 10 * DigitsValue(s[..|s| - 1]) + (s[|s| - 1] as int - '0' as int)
  }

  lemma {:induction false} PadIsDigits(n: nat, width: nat)
    ensures AllDigits(Pad(n, width))
  {
    if width > 0 {
      PadIsDigits(n / 10, width - 1);
    }
  }

  /** Padding loses nothing when the number fits the width: reading the digits back gives `n`. */
  lemma {:induction false} PadValue(n: nat, width: nat)
    requires n < Pow10(width)
    ensures DigitsValue(Pad(n, width)) == n
  {
    if width > 0 {
      var s := Pad(n, width);
      assert s[..|s| - 1] == Pad(n / 10, width - 1);
      PadValue(n / 10, width - 1);
    }
  }

  /** The date half of the layout, `YYYY-MM-DD`. */
  function DatePart(y: string, mo: string, d: string): string {
    y + "-" + mo + "-" + d
  }

  /** The time half of the layout, `HH:MM:SSZ`. */
  function TimePart(h: string, mi: string, se: string): string {
    h + ":" + mi + ":" + se + "Z"
  }

  /** The fixed layout `YYYY-MM-DDTHH:MM:SSZ`, given the digit groups. */
  function Layout(y: string, mo: string, d: string, h: string, mi: string, se: string): string {
    DatePart(y, mo, d) + "T" + TimePart(h, mi, se)
  }

  lemma DateSlices(y: string, mo: string, d: string)
    requires |y| == 4 && |mo| == 2 && |d| == 2
    ensures var s := DatePart(y, mo, d);
      |s| == 10 && s[4] == '-' && s[7] == '-' && s[0..4] == y && s[5..7] == mo && s[8..10] == d
  {
  }

  lemma TimeSlices(h: string, mi: string, se: string)
    requires |h| == 2 && |mi| == 2 && |se| == 2
    ensures var s := TimePart(h, mi, se);
      |s| == 9 && s[2] == ':' && s[5] == ':' && s[8] == 'Z' && s[0..2] == h && s[3..5] == mi && s[6..8] == se
  {
  }

  /** Each digit group of the layout sits at its fixed offset, between fixed separators. */
  lemma LayoutSlices(y: string, mo: string, d: string, h: string, mi: string, se: string)
    requires |y| == 4 && |mo| == 2 && |d| == 2 && |h| == 2 && |mi| == 2 && |se| == 2
    ensures var s := Layout(y, mo, d, h, mi, se);
      |s| == 20 && s[4] == '-' && s[7] == '-' && s[10] == 'T' && s[13] == ':' && s[16] == ':' && s[19] == 'Z' &&
      s[0..4] == y && s[5..7] == mo && s[8..10] == d && s[11..13] == h && s[14..16] == mi && s[17..19] == se
  {
    var date, time := DatePart(y, mo, d), TimePart(h, mi, se);
    DateSlices(y, mo, d);
    TimeSlices(h, mi, se);
    var s := Layout(y, mo, d, h, mi, se);
    assert s[..10] == date;
    assert s[11..] == time;
    assert s[11..13] == time[0..2];
    assert s[14..16] == time[3..5];
    assert s[17..19] == time[6..8];
  }

  /** `d.strftime('%Y-%m-%dT%H:%M:%SZ')`. */
  function FormatStamp(d: Timestamp): (s: string)
    ensures |s| == 20
  {
    Layout(Pad(d.year, 4), Pad(d.month, 2), Pad(d.day, 2), Pad(d.hour, 2), Pad(d.minute, 2), Pad(d.second, 2))
  }

  /** The number held in `s[lo..hi]`, when that slice is all digits. */
  function Field(s: string, lo: nat, hi: nat): Option<nat> {
    if lo <= hi <= |s| && AllDigits(s[lo..hi]) then Some(DigitsValue(s[lo..hi]) as nat) else None
  }

  /**
   * `datetime.strptime(s, '%Y-%m-%dT%H:%M:%SZ')` on the fixed-width form:
   * the separators in place, digits elsewhere and a real date and time;
   * the result has no fraction of a second.
   */
  function ParseStamp(s: string): (r: Option<DateTime>)
    ensures r.Some? ==> ValidDateTime(r.value) && r.value.microsecond == 0
  {
    if |s| == 20 && s[4] == '-' && s[7] == '-' && s[10] == 'T' && s[13] == ':' && s[16] == ':' && s[19] == 'Z' then
      var y, mo, d := Field(s, 0, 4), Field(s, 5, 7), Field(s, 8, 10);
      var h, mi, se := Field(s, 11, 13), Field(s, 14, 16), Field(s, 17, 19);
      if y.Some? && mo.Some? && d.Some? && h.Some? && mi.Some? && se.Some? then
        var r := DateTime(y.value, mo.value, d.value, h.value, mi.value, se.value, 0);
        if ValidDateTime(r) then Some(r) else None
      else None
    else None
  }

  lemma PadField(s: string, lo: nat, n: nat, width: nat)
    requires lo + width <= |s| && s[lo..lo + width] == Pad(n, width) && n < Pow10(width)
    ensures Field(s, lo, lo + width) == Some(n)
  {
    PadIsDigits(n, width);
    PadValue(n, width);
  }

  /**
   * The text written for a timestamp reads back as the same date and time,
   * truncated to the second: what the source's own test checks with
   * `strptime` against `datetime(*created.timetuple()[:6])`.
   */
  lemma FormatThenParse(d: Timestamp)
    ensures ParseStamp(FormatStamp(d)) == Some(d.(microsecond := 0))
  {
    var s := FormatStamp(d);
    assert Pow10(2) == 100 && Pow10(4) == 10000;
    LayoutSlices(Pad(d.year, 4), Pad(d.month, 2), Pad(d.day, 2), Pad(d.hour, 2), Pad(d.minute, 2), Pad(d.second, 2));
    PadField(s, 0, d.year, 4);
    PadField(s, 5, d.month, 2);
    PadField(s, 8, d.day, 2);
    PadField(s, 11, d.hour, 2);
    PadField(s, 14, d.minute, 2);
    PadField(s, 17, d.second, 2);
  }

  /** Two timestamps that agree to the second are written identically, and only those. */
  lemma FormatInjective(d1: Timestamp, d2: Timestamp)
    ensures FormatStamp(d1) == FormatStamp(d2) <==> d1.(microsecond := 0) == d2.(microsecond := 0)
  {
    if FormatStamp(d1) == FormatStamp(d2) {
      FormatThenParse(d1);
      FormatThenParse(d2);
    }
  }

  /** A worked example: 2020-01-02 03:04:05 is written zero-padded. */
  lemma FormatExample()
    ensures FormatStamp(DateTime(2020, 1, 2, 3, 4, 5, 0)) == "2020-01-02T03:04:05Z"
  {
  }
}
