/** Calendar dates and the two date formats the module handles: the
    `%Y-%m-%d` folder names of inventory reports, and the
    `%Y-%m-%dT%H:%M:%S.%fZ` timestamps in inventory records. */
module Dates {
  import opened Wrappers
  import opened Strings

  /** A `datetime.date`; dates compare field by field. */
  datatype Date = Date(year: int, month: int, day: int)

  /** A `datetime.datetime` to the microsecond. */
  datatype DateTime = DateTime(date: Date, hour: int, minute: int, second: int, micro: int)

  predicate IsLeap(y: int) {
    y % 4 == 0 && (y % 100 != 0 || y % 400 == 0)
  }

  function DaysInMonth(y: int, m: int): int
    requires 1 <= m <= 12
  {
    if m == 2 then (if IsLeap(y) then 29 else 28)
    else if m == 4 || m == 6 || m == 9 || m == 11 then 30
    else 31
  }

  /** A date `datetime.date` accepts: years 1 to 9999, real days of months. */
  predicate Valid(d: Date) {
    1 <= d.year <= 9999 && 1 <= d.month <= 12 && 1 <= d.day <= DaysInMonth(d.year, d.month)
  }

  predicate ValidTime(t: DateTime) {
    Valid(t.date) && 0 <= t.hour < 24 && 0 <= t.minute < 60 && 0 <= t.second < 60 && 0 <= t.micro < 1000000
  }

  /** `a < b` between dates. */
  predicate Before(a: Date, b: Date) {
    a.year < b.year || (a.year == b.year && (a.month < b.month || (a.month == b.month && a.day < b.day)))
  }

  /** `today - timedelta(1)`; None stands for the `OverflowError` raised on
      the first day of year 1. */
  function PrevDay(d: Date): Option<Date>
    requires Valid(d)
  {
    if d.day > 1 then Some(Date(d.year, d.month, d.day - 1))
    else if d.month > 1 then Some(Date(d.year, d.month - 1, DaysInMonth(d.year, d.month - 1)))
    else if d.year > 1 then Some(Date(d.year - 1, 12, 31))
    else None
  }

  /** The day before a valid date is a valid date, earlier, with no valid date
      strictly between the two; only 0001-01-01 has none. */
  lemma PrevDayIsPrevious(d: Date)
    requires Valid(d)
    ensures PrevDay(d).None? <==> d == Date(1, 1, 1)
    ensures PrevDay(d).Some? ==>
      var p := PrevDay(d).value;
      Valid(p) && Before(p, d) && forall x :: Valid(x) && Before(p, x) ==> !Before(x, d)
  {
  }

  /** `d.strftime('%Y-%m-%d')`. */
  function FormatDate(d: Date): string
    requires Valid(d)
  {
    Pad(d.year, 4) + "-" + Pad(d.month, 2) + "-" + Pad(d.day, 2)
  }

  /** `t.strftime('%Y-%m-%dT%H:%M:%S.%fZ')`. */
  function FormatTimestamp(t: DateTime): string
    requires ValidTime(t)
  {
    FormatDate(t.date) + FormatClock(t)
  }

  /** The `T%H:%M:%S.%fZ` tail of a timestamp. */
  function FormatClock(t: DateTime): string
    requires ValidTime(t)
  {
    "T" + Pad(t.hour, 2) + ":" + Pad(t.minute, 2) + ":" + Pad(t.second, 2) + "." + Pad(t.micro, 6) + "Z"
  }

  /** The number written by the field `f`, if it is all digits. */
  function Number(f: string): Option<nat>
  {
    if AllDigits(f) then Some(Value(f)) else None
  }

  /** The microseconds written by one to six digits (`%f` pads on the right). */
  function Micros(f: string): Option<nat>
  {
    if 1 <= |f| <= 6 && AllDigits(f) then Some(Value(f) * Pow10(6 - |f|)) else None
  }

  /** `datetime.strptime(s, '%Y-%m-%dT%H:%M:%S.%fZ')`, None standing for the
      `ValueError` it raises; each field has its full width here. */
  function ParseTimestamp(s: string): Option<DateTime>
  {
    if !(22 <= |s| <= 27) then None
    else if s[4] != '-' || s[7] != '-' || s[10] != 'T' || s[13] != ':' || s[16] != ':' || s[19] != '.' || s[|s| - 1] != 'Z' then None
    else
      var y := Number(s[0..4]);
      var mo := Number(s[5..7]);
      var d := Number(s[8..10]);
      var h := Number(s[11..13]);
      var mi := Number(s[14..16]);
      var sec := Number(s[17..19]);
      var f := Micros(s[20..|s| - 1]);
      if y.None? || mo.None? || d.None? || h.None? || mi.None? || sec.None? || f.None? then None
      else
        var t := DateTime(Date(y.value, mo.value, d.value), h.value, mi.value, sec.value, f.value);
        if ValidTime(t) then Some(t) else None
  }

  /** Where the three fields of a `%Y-%m-%d` string sit. */
  lemma DateShape(y: string, m: string, dd: string)
    requires |y| == 4 && |m| == 2 && |dd| == 2
    ensures var s := y + "-" + m + "-" + dd;
      |s| == 10 && s[4] == '-' && s[7] == '-' && s[0..4] == y && s[5..7] == m && s[8..10] == dd
  {
    var p1 := y + "-" + m;
    assert |p1| == 7 && p1[..4] == y && p1[4] == '-' && p1[5..7] == m;
    var s := p1 + "-" + dd;
    assert s[..7] == p1 && s[7] == '-' && s[8..10] == dd;
    assert s[0..4] == p1[0..4];
    assert s[5..7] == p1[5..7];
  }

  /** Where the four fields of a `T%H:%M:%S.%fZ` string sit. */
  lemma ClockShape(h: string, mi: string, sec: string, f: string)
    requires |h| == 2 && |mi| == 2 && |sec| == 2 && |f| == 6
    ensures var c := "T" + h + ":" + mi + ":" + sec + "." + f + "Z";
      |c| == 17 && c[0] == 'T' && c[3] == ':' && c[6] == ':' && c[9] == '.' && c[16] == 'Z' &&
      c[1..3] == h && c[4..6] == mi && c[7..9] == sec && c[10..16] == f
  {
    var p1 := "T" + h;
    assert |p1| == 3 && p1[0] == 'T' && p1[1..3] == h;
    var p2 := p1 + ":" + mi;
    assert |p2| == 6 && p2[..3] == p1 && p2[3] == ':' && p2[4..6] == mi;
    var p3 := p2 + ":" + sec;
    assert |p3| == 9 && p3[..6] == p2 && p3[6] == ':' && p3[7..9] == sec;
    var p4 := p3 + "." + f;
    assert |p4| == 16 && p4[..9] == p3 && p4[9] == '.' && p4[10..16] == f;
    var c := p4 + "Z";
    assert c[..16] == p4 && c[16] == 'Z';
    assert c[1..3] == p4[1..3] == p3[1..3] == p2[1..3] == p1[1..3];
    assert c[4..6] == p4[4..6] == p3[4..6] == p2[4..6];
    assert c[7..9] == p4[7..9] == p3[7..9];
    assert c[10..16] == p4[10..16];
  }

  /** Where each field of a written timestamp sits. */
  lemma TimestampLayout(t: DateTime)
    requires ValidTime(t)
    ensures var s := FormatTimestamp(t);
      |s| == 27 && s[4] == '-' && s[7] == '-' && s[10] == 'T' && s[13] == ':' && s[16] == ':' && s[19] == '.' && s[26] == 'Z' &&
      s[0..4] == Pad(t.date.year, 4) && s[5..7] == Pad(t.date.month, 2) && s[8..10] == Pad(t.date.day, 2) &&
      s[11..13] == Pad(t.hour, 2) && s[14..16] == Pad(t.minute, 2) && s[17..19] == Pad(t.second, 2) &&
      s[20..26] == Pad(t.micro, 6)
  {
    var a := FormatDate(t.date);
    var c := FormatClock(t);
    DateShape(Pad(t.date.year, 4), Pad(t.date.month, 2), Pad(t.date.day, 2));
    ClockShape(Pad(t.hour, 2), Pad(t.minute, 2), Pad(t.second, 2), Pad(t.micro, 6));
    var s := a + c;
    assert s[0..4] == a[0..4] && s[5..7] == a[5..7] && s[8..10] == a[8..10];
    assert s[11..13] == c[1..3] && s[14..16] == c[4..6] && s[17..19] == c[7..9] && s[20..26] == c[10..16];
  }

  /** A field written with `Pad` reads back as the number written. */
  lemma PadNumber(n: nat, w: nat)
    requires n < Pow10(w)
    ensures Number(Pad(n, w)) == Some(n)
  {
    PadValue(n, w);
  }

  /** A 27-character string with the separators in place and fields that
      read as the fields of a valid `t` parses as `t`. */
  lemma ParseFields(s: string, t: DateTime)
    requires ValidTime(t) && |s| == 27
    requires s[4] == '-' && s[7] == '-' && s[10] == 'T' && s[13] == ':' && s[16] == ':' && s[19] == '.' && s[26] == 'Z'
    requires Number(s[0..4]) == Some(t.date.year) && Number(s[5..7]) == Some(t.date.month) && Number(s[8..10]) == Some(t.date.day)
    requires Number(s[11..13]) == Some(t.hour) && Number(s[14..16]) == Some(t.minute) && Number(s[17..19]) == Some(t.second)
    requires Micros(s[20..26]) == Some(t.micro)
    ensures ParseTimestamp(s) == Some(t)
  {
  }

  /** Each field of a written timestamp reads as the number written. */
  lemma TimestampFields(t: DateTime)
    requires ValidTime(t)
    ensures var s := FormatTimestamp(t);
      |s| == 27 && s[4] == '-' && s[7] == '-' && s[10] == 'T' && s[13] == ':' && s[16] == ':' && s[19] == '.' && s[26] == 'Z' &&
      Number(s[0..4]) == Some(t.date.year) && Number(s[5..7]) == Some(t.date.month) && Number(s[8..10]) == Some(t.date.day) &&
      Number(s[11..13]) == Some(t.hour) && Number(s[14..16]) == Some(t.minute) && Number(s[17..19]) == Some(t.second) &&
      Micros(s[20..26]) == Some(t.micro)
  {
    TimestampLayout(t);
    DateFields(t);
    ClockFields(t);
  }

  lemma DateFields(t: DateTime)
    requires ValidTime(t)
    ensures Number(Pad(t.date.year, 4)) == Some(t.date.year) && Number(Pad(t.date.month, 2)) == Some(t.date.month) &&
      Number(Pad(t.date.day, 2)) == Some(t.date.day)
  {
    PadNumber(t.date.year, 4);
    PadNumber(t.date.month, 2);
    PadNumber(t.date.day, 2);
  }

  lemma ClockFields(t: DateTime)
    requires ValidTime(t)
    ensures Number(Pad(t.hour, 2)) == Some(t.hour) && Number(Pad(t.minute, 2)) == Some(t.minute) &&
      Number(Pad(t.second, 2)) == Some(t.second) && Micros(Pad(t.micro, 6)) == Some(t.micro)
  {
    PadNumber(t.hour, 2);
    PadNumber(t.minute, 2);
    PadNumber(t.second, 2);
    PadMicros(t.micro);
  }

  /** Six written fraction digits read back as the microseconds written. */
  lemma PadMicros(n: nat)
    requires n < 1000000
    ensures Micros(Pad(n, 6)) == Some(n)
  {
    var f := Pad(n, 6);
    PadValue(n, 6);
    assert Pow10(6 - |f|) == 1;
  }

  /** Every timestamp written in the format parses back to itself. */
  lemma ParseFormat(t: DateTime)
    requires ValidTime(t)
    ensures ParseTimestamp(FormatTimestamp(t)) == Some(t)
  {
    TimestampFields(t);
    ParseFields(FormatTimestamp(t), t);
  }
}
