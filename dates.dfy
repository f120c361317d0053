/** Calendar dates as the pipeline reads and writes them: `YYYYMMDD`
    directory names, `YYYY-MM-DD` dates, ISO 8601 `YYYY-MM-DDTHH:MM:SS`
    date-times, and the day field of `DDHHmmss00.avi` clip names. */
module Dates {
  import opened Prelude
  import opened Seqs
  import opened Text
  import Numbers

  datatype Date = Date(year: int, month: int, day: int)

  datatype DateTime = DateTime(date: Date, hour: int, minute: int, second: int)

  predicate IsLeap(year: int) {
    year % 4 == 0 && (year % 100 != 0 || year % 400 == 0)
  }

  function DaysInMonth(year: int, month: int): int
    requires 1 <= month <= 12
  {
    if month == 2 then (if IsLeap(year) then 29 else 28)
    else if month == 4 || month == 6 || month == 9 || month == 11 then 30
    else 31
  }

  /** What Python's `datetime(year, month, day)` accepts. */
  predicate ValidDate(d: Date) {
    1 <= d.year <= 9999 && 1 <= d.month <= 12 && 1 <= d.day <= DaysInMonth(d.year, d.month)
  }

  predicate ValidDateTime(t: DateTime) {
    ValidDate(t.date) && 0 <= t.hour <= 23 && 0 <= t.minute <= 59 && 0 <= t.second <= 59
  }

  /** `datetime(year, month, day)`: None where Python raises ValueError. */
  function MakeDate(year: int, month: int, day: int): (r: Option<Date>)
    ensures r.Some? <==> ValidDate(Date(year, month, day))
    ensures r.Some? ==> r.value == Date(year, month, day)
  {
    if ValidDate(Date(year, month, day)) then Some(Date(year, month, day)) else None
  }

  function Pad(n: int, width: nat): string {
    if n >= 0 then ZeroPad(n, width) else "-" + ZeroPad(-n, width)
  }

  /** `strftime("%Y-%m-%d")`. */
  function FormatDate(d: Date): string {
    Pad(d.year, 4) + "-" + Pad(d.month, 2) + "-" + Pad(d.day, 2)
  }

  /** `strftime("%Y%m%d")`. */
  function FormatCompact(d: Date): string {
    Pad(d.year, 4) + Pad(d.month, 2) + Pad(d.day, 2)
  }

  /** `isoformat()` of a date-time without microseconds. */
  function IsoFormat(t: DateTime): string {
    FormatDate(t.date) + "T" + Pad(t.hour, 2) + ":" + Pad(t.minute, 2) + ":" + Pad(t.second, 2)
  }

  /** `parse_dir_date`: an eight-digit name read as year, month and day,
      None unless it is a real date. */
  function ParseCompact(s: string): Option<Date>
  {
    if |s| == 8 && AllDigits(s) then
      MakeDate(DigitsValue(s[0..4]), DigitsValue(s[4..6]), DigitsValue(s[6..8]))
    else None
  }

  /** `strptime(s, "%Y-%m-%d")` on canonical text: four, two and two digits
      separated by '-', forming a real date. */
  function ParseIsoDate(s: string): Option<Date>
  {
    if |s| == 10 && s[4] == '-' && s[7] == '-' &&
       AllDigits(s[0..4]) && AllDigits(s[5..7]) && AllDigits(s[8..10]) then
      MakeDate(DigitsValue(s[0..4]), DigitsValue(s[5..7]), DigitsValue(s[8..10]))
    else None
  }

  /** `datetime.fromisoformat` on what `IsoFormat` writes. */
  function ParseIsoDateTime(s: string): Option<DateTime>
  {
    if |s| == 19 && s[10] == 'T' && s[13] == ':' && s[16] == ':' &&
       AllDigits(s[11..13]) && AllDigits(s[14..16]) && AllDigits(s[17..19]) then
      match ParseIsoDate(s[..10])
      case None => None
      case Some(d) =>
        var t := DateTime(d, DigitsValue(s[11..13]), DigitsValue(s[14..16]), DigitsValue(s[17..19]));
        if ValidDateTime(t) then Some(t) else None
    else None
  }

  // ---------------------------------------------------------------------
  // Round trips
  // ---------------------------------------------------------------------

  /** A number below 10^width pads to exactly `width` digits that read back as it. */
  lemma PadFits(n: int, width: nat)
    requires width >= 1 && 0 <= n < Numbers.Pow10(width)
    ensures |Pad(n, width)| == width && AllDigits(Pad(n, width)) && DigitsValue(Pad(n, width)) == n
  {
    NatToStringLength(n, width);
    ZeroPadRoundTrip(n, width);
  }

  /** The value of `k` digits is below 10^k. */
  lemma {:induction false} DigitsBound(s: string)
    requires AllDigits(s)
    ensures DigitsValue(s) < Numbers.Pow10(|s|)
  {
    if s != [] {
      DigitsBound(s[..|s| - 1]);
    }
  }

  /** Two digit strings of the same length and value are the same string. */
  lemma {:induction false} DigitsInjective(a: string, b: string)
    requires AllDigits(a) && AllDigits(b) && |a| == |b| && DigitsValue(a) == DigitsValue(b)
    ensures a == b
  {
    if a != [] {
      var n := |a| - 1;
      assert DigitValue(a[n]) == DigitsValue(a) % 10 == DigitValue(b[n]);
      DigitsInjective(a[..n], b[..n]);
      assert a == a[..n] + [a[n]] && b == b[..n] + [b[n]];
    }
  }

  /** Padding the value of a digit string to its own width gives it back. */
  lemma PadDigits(s: string)
    requires AllDigits(s) && |s| >= 1
    ensures Pad(DigitsValue(s), |s|) == s
  {
    DigitsBound(s);
    PadFits(DigitsValue(s), |s|);
    DigitsInjective(Pad(DigitsValue(s), |s|), s);
  }

  lemma FormatDateFields(d: Date)
    requires ValidDate(d)
    ensures var s := FormatDate(d);
            |s| == 10 && s[4] == '-' && s[7] == '-' &&
            s[0..4] == Pad(d.year, 4) && s[5..7] == Pad(d.month, 2) && s[8..10] == Pad(d.day, 2)
  {
    PadFits(d.year, 4);
    PadFits(d.month, 2);
    PadFits(d.day, 2);
  }

  /** A real date written as `YYYY-MM-DD` reads back as itself. */
  lemma FormatDateRoundTrip(d: Date)
    requires ValidDate(d)
    ensures ParseIsoDate(FormatDate(d)) == Some(d)
  {
    FormatDateFields(d);
    PadFits(d.year, 4);
    PadFits(d.month, 2);
    PadFits(d.day, 2);
  }

  /** Conversely, text that reads as a date is that date's canonical form. */
  lemma ParseIsoDateCanonical(s: string)
    requires ParseIsoDate(s).Some?
    ensures FormatDate(ParseIsoDate(s).value) == s
  {
    var d := ParseIsoDate(s).value;
    PadDigits(s[0..4]);
    PadDigits(s[5..7]);
    PadDigits(s[8..10]);
    FormatDateFields(d);
    assert s == s[0..4] + "-" + s[5..7] + "-" + s[8..10];
  }

  /** A real date written as `YYYYMMDD` reads back as itself. */
  lemma CompactRoundTrip(d: Date)
    requires ValidDate(d)
    ensures ParseCompact(FormatCompact(d)) == Some(d)
  {
    PadFits(d.year, 4);
    PadFits(d.month, 2);
    PadFits(d.day, 2);
    var c := FormatCompact(d);
    assert c[0..4] == Pad(d.year, 4) && c[4..6] == Pad(d.month, 2) && c[6..8] == Pad(d.day, 2);
  }

  /** An eight-digit name that reads as a date is that date's compact form. */
  lemma CompactCanonical(s: string)
    requires ParseCompact(s).Some?
    ensures FormatCompact(ParseCompact(s).value) == s
  {
    PadDigits(s[0..4]);
    PadDigits(s[4..6]);
    PadDigits(s[6..8]);
    assert s == s[0..4] + s[4..6] + s[6..8];
  }

  /** A valid date-time written by `isoformat()` reads back as itself. */
  lemma IsoRoundTrip(t: DateTime)
    requires ValidDateTime(t)
    ensures ParseIsoDateTime(IsoFormat(t)) == Some(t)
  {
    var s := IsoFormat(t);
    FormatDateRoundTrip(t.date);
    FormatDateFields(t.date);
    PadFits(t.hour, 2);
    PadFits(t.minute, 2);
    PadFits(t.second, 2);
    assert s[..10] == FormatDate(t.date);
    assert s[11..13] == Pad(t.hour, 2) && s[14..16] == Pad(t.minute, 2) && s[17..19] == Pad(t.second, 2);
  }

  // ---------------------------------------------------------------------
  // Clip names
  // ---------------------------------------------------------------------

  /** The day of month a clip name `DDHHmmss00.avi` starts with, when the
      name has at least ten characters, two leading ASCII digits, and a day
      in 1..31. */
  function FilenameDay(name: string): Option<int> {
    if |name| >= 10 && AllDigits(name[0..2]) && 1 <= DigitsValue(name[0..2]) <= 31 then
      Some(DigitsValue(name[0..2]))
    else None
  }

  /** The days read from a directory's clip names, in listing order. */
  function FilenameDays(names: seq<string>): (r: seq<int>)
    ensures |r| <= |names|
    ensures forall i :: 0 <= i < |r| ==> 1 <= r[i] <= 31
  {
    if names == [] then []
    else
      var rest := FilenameDays(names[..|names| - 1]);
      match FilenameDay(names[|names| - 1])
      case None => rest
      case Some(d) => rest + [d]
  }

  /** The days are exactly the days of the names that have one. */
  lemma {:induction false} FilenameDaysMembers(names: seq<string>, day: int)
    ensures day in FilenameDays(names) <==> exists i :: 0 <= i < |names| && FilenameDay(names[i]) == Some(day)
  {
    if names != [] {
      var init := names[..|names| - 1];
      FilenameDaysMembers(init, day);
      assert forall i :: 0 <= i < |init| ==> init[i] == names[i];
      if exists i :: 0 <= i < |names| && FilenameDay(names[i]) == Some(day) {
        var i :| 0 <= i < |names| && FilenameDay(names[i]) == Some(day);
        if i < |init| {
          assert FilenameDay(init[i]) == Some(day);
        }
      }
    }
  }

  function MinOf(s: seq<int>): (m: int)
    requires s != []
    ensures m in s && forall i :: 0 <= i < |s| ==> m <= s[i]
  {
    if |s| == 1 then s[0] else var r := MinOf(s[1..]); if s[0] <= r then s[0] else r
  }

  function MaxOf(s: seq<int>): (m: int)
    requires s != []
    ensures m in s && forall i :: 0 <= i < |s| ==> s[i] <= m
  {
    if |s| == 1 then s[0] else var r := MaxOf(s[1..]); if s[0] >= r then s[0] else r
  }

  /** The day range check shared by `validate_timestamps` and
      `extract_date_range`: does the directory's day lie between the
      smallest and the largest clip day?  The branch for a range that wraps
      over a month end is kept as written; it is never taken. */
  predicate DayInRange(days: seq<int>, dirDay: int)
    requires days != []
  {
    var lo, hi := MinOf(days), MaxOf(days);
    if lo <= hi then lo <= dirDay <= hi else dirDay >= lo || dirDay <= hi
  }

  /** The wrap-around branch is dead: the smallest day never exceeds the
      largest, so the check is a plain interval test. */
  lemma DayRangeNeverWraps(days: seq<int>, dirDay: int)
    requires days != []
    ensures MinOf(days) <= MaxOf(days)
    ensures DayInRange(days, dirDay) <==> exists i, j :: 0 <= i < |days| && 0 <= j < |days| && days[i] <= dirDay <= days[j]
  {
    var lo, hi := MinOf(days), MaxOf(days);
    if DayInRange(days, dirDay) {
      var i :| 0 <= i < |days| && days[i] == lo;
      var j :| 0 <= j < |days| && days[j] == hi;
    }
  }
}
