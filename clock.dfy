/** Naive `datetime` values, their `strftime` renderings, `strptime` with the storage
    format, and the whole-second `timedelta` arithmetic the health checks use. */
module Clock {
  import opened Wrappers
  import opened Text

  /** A naive (time-zone-less) `datetime`. */
  datatype DateTime = DateTime(year: nat, month: nat, day: nat, hour: nat, minute: nat, second: nat, microsecond: nat)

  /** A `timedelta` with no microsecond part, as whole seconds (may be negative). */
  datatype Duration = Duration(seconds: int)

  predicate IsLeap(y: int)
  {
    y % 4 == 0 && (y % 100 != 0 || y % 400 == 0)
  }

  function DaysInMonth(y: int, m: nat): nat
  {
    if m == 2 then (if IsLeap(y) then 29 else 28)
    else if m == 4 || m == 6 || m == 9 || m == 11 then 30
    else 31
  }

  /** The range checks `datetime(...)` performs. */
  predicate Valid(d: DateTime)
  {
    && 1 <= d.year <= 9999
    && 1 <= d.month <= 12
    && 1 <= d.day <= DaysInMonth(d.year, d.month)
    && d.hour < 24 && d.minute < 60 && d.second < 60
    && d.microsecond < 1000000
  }

  /** `.replace(microsecond=0)`. */
  function Truncate(d: DateTime): (r: DateTime)
    ensures Valid(d) ==> Valid(r)
    ensures r.microsecond == 0
  {
    d.(microsecond := 0)
  }

  /** `strftime('%Y-%m-%d')`, the date half of the storage format (10 characters). */
  function DateText(d: DateTime): string
  {
    ZeroPad(d.year, 4) + "-" + ZeroPad(d.month, 2) + "-" + ZeroPad(d.day, 2)
  }

  /** `strftime('%H:%M:%S.%f')`, the time half of the storage format (15 characters). */
  function TimeText(d: DateTime): string
  {
    ZeroPad(d.hour, 2) + ":" + ZeroPad(d.minute, 2) + ":" + ZeroPad(d.second, 2) + "." + ZeroPad(d.microsecond, 6)
  }

  /** `strftime('%Y-%m-%dT%H:%M:%S.%f')`, the storage format. */
  function Encode(d: DateTime): string
  {
    DateText(d) + "T" + TimeText(d)
  }

  /** The digits of `s[lo..hi]`, or `None` when one of them is not a digit. */
  function FieldAt(s: string, lo: nat, hi: nat): Option<nat>
    requires lo <= hi <= |s|
  {
    if AllDigits(s[lo..hi]) then Some(DigitsValue(s[lo..hi])) else None
  }

  /** `%Y-%m-%d` on exactly ten characters: (year, month, day). */
  function ParseDate(s: string): Option<(nat, nat, nat)>
  {
    if |s| != 10 || s[4] != '-' || s[7] != '-' then None
    else
      match (FieldAt(s, 0, 4), FieldAt(s, 5, 7), FieldAt(s, 8, 10))
      case (Some(y), Some(m), Some(d)) => Some((y, m, d))
      case _ => None
  }

  /** `%H:%M:%S.%f` on exactly fifteen characters: (hour, minute, second, microsecond). */
  function ParseTime(s: string): Option<(nat, nat, nat, nat)>
  {
    if |s| != 15 || s[2] != ':' || s[5] != ':' || s[8] != '.' then None
    else
      match (FieldAt(s, 0, 2), FieldAt(s, 3, 5), FieldAt(s, 6, 8), FieldAt(s, 9, 15))
      case (Some(h), Some(m), Some(sec), Some(us)) => Some((h, m, sec, us))
      case _ => None
  }

  /** `datetime.strptime(s, '%Y-%m-%dT%H:%M:%S.%f')` on the fixed-width form the encoder
      writes; `None` stands for the `ValueError` it raises. Every accepted string denotes a
      valid date and time. */
  function Parse(s: string): (r: Option<DateTime>)
    ensures r.Some? ==> Valid(r.value)
  {
    if |s| != 26 || s[10] != 'T' then None
    else
      match (ParseDate(s[..10]), ParseTime(s[11..]))
      case (Some((y, mo, da)), Some((h, mi, se, us))) =>
        var d := DateTime(y, mo, da, h, mi, se, us);
        if Valid(d) then Some(d) else None
      case _ => None
  }

  lemma FieldOf(pre: string, field: string, post: string)
    requires AllDigits(field)
    ensures |pre| + |field| <= |pre + field + post|
    ensures FieldAt(pre + field + post, |pre|, |pre| + |field|) == Some(DigitsValue(field))
  {
    assert (pre + field + post)[|pre|..|pre| + |field|] == field;
  }

  lemma ParseDateOf(s: string, y: nat, m: nat, d: nat)
    requires |s| == 10 && s[4] == '-' && s[7] == '-'
    requires FieldAt(s, 0, 4) == Some(y) && FieldAt(s, 5, 7) == Some(m) && FieldAt(s, 8, 10) == Some(d)
    ensures ParseDate(s) == Some((y, m, d))
  {
  }

  lemma ParseTimeOf(s: string, h: nat, m: nat, sec: nat, us: nat)
    requires |s| == 15 && s[2] == ':' && s[5] == ':' && s[8] == '.'
    requires FieldAt(s, 0, 2) == Some(h) && FieldAt(s, 3, 5) == Some(m)
    requires FieldAt(s, 6, 8) == Some(sec) && FieldAt(s, 9, 15) == Some(us)
    ensures ParseTime(s) == Some((h, m, sec, us))
  {
  }

  predicate DateParts(y: string, mo: string, da: string)
  {
    |y| == 4 && |mo| == 2 && |da| == 2 && AllDigits(y) && AllDigits(mo) && AllDigits(da)
  }

  lemma DateYear(y: string, mo: string, da: string)
    requires DateParts(y, mo, da)
    ensures FieldAt(y + "-" + mo + "-" + da, 0, 4) == Some(DigitsValue(y))
  {
    var s := y + "-" + mo + "-" + da;
    assert s[0..4] == y;
  }

  lemma DateMonth(y: string, mo: string, da: string)
    requires DateParts(y, mo, da)
    ensures FieldAt(y + "-" + mo + "-" + da, 5, 7) == Some(DigitsValue(mo))
  {
    FieldOf(y + "-", mo, "-" + da);
    assert y + "-" + mo + "-" + da == (y + "-") + mo + ("-" + da);
  }

  lemma DateDay(y: string, mo: string, da: string)
    requires DateParts(y, mo, da)
    ensures FieldAt(y + "-" + mo + "-" + da, 8, 10) == Some(DigitsValue(da))
  {
    FieldOf(y + "-" + mo + "-", da, []);
    assert y + "-" + mo + "-" + da == (y + "-" + mo + "-") + da + [];
  }

  lemma ParseDateFields(y: string, mo: string, da: string)
    requires DateParts(y, mo, da)
    ensures ParseDate(y + "-" + mo + "-" + da) == Some((DigitsValue(y), DigitsValue(mo), DigitsValue(da)))
  {
    var s := y + "-" + mo + "-" + da;
    DateYear(y, mo, da);
    DateMonth(y, mo, da);
    DateDay(y, mo, da);
    assert |s| == 10 && s[4] == '-' && s[7] == '-';
    ParseDateOf(s, DigitsValue(y), DigitsValue(mo), DigitsValue(da));
  }

  predicate TimeParts(h: string, mi: string, se: string, us: string)
  {
    |h| == 2 && |mi| == 2 && |se| == 2 && |us| == 6
    && AllDigits(h) && AllDigits(mi) && AllDigits(se) && AllDigits(us)
  }

  lemma TimeHour(h: string, mi: string, se: string, us: string)
    requires TimeParts(h, mi, se, us)
    ensures FieldAt(h + ":" + mi + ":" + se + "." + us, 0, 2) == Some(DigitsValue(h))
  {
    var s := h + ":" + mi + ":" + se + "." + us;
    assert s[0..2] == h;
  }

  lemma TimeMinute(h: string, mi: string, se: string, us: string)
    requires TimeParts(h, mi, se, us)
    ensures FieldAt(h + ":" + mi + ":" + se + "." + us, 3, 5) == Some(DigitsValue(mi))
  {
    FieldOf(h + ":", mi, ":" + se + "." + us);
    assert h + ":" + mi + ":" + se + "." + us == (h + ":") + mi + (":" + se + "." + us);
  }

  lemma TimeSecond(h: string, mi: string, se: string, us: string)
    requires TimeParts(h, mi, se, us)
    ensures FieldAt(h + ":" + mi + ":" + se + "." + us, 6, 8) == Some(DigitsValue(se))
  {
    FieldOf(h + ":" + mi + ":", se, "." + us);
    assert h + ":" + mi + ":" + se + "." + us == (h + ":" + mi + ":") + se + ("." + us);
  }

  lemma TimeMicrosecond(h: string, mi: string, se: string, us: string)
    requires TimeParts(h, mi, se, us)
    ensures FieldAt(h + ":" + mi + ":" + se + "." + us, 9, 15) == Some(DigitsValue(us))
  {
    FieldOf(h + ":" + mi + ":" + se + ".", us, []);
    assert h + ":" + mi + ":" + se + "." + us == (h + ":" + mi + ":" + se + ".") + us + [];
  }

  lemma ParseTimeFields(h: string, mi: string, se: string, us: string)
    requires TimeParts(h, mi, se, us)
    ensures ParseTime(h + ":" + mi + ":" + se + "." + us)
            == Some((DigitsValue(h), DigitsValue(mi), DigitsValue(se), DigitsValue(us)))
  {
    var s := h + ":" + mi + ":" + se + "." + us;
    TimeHour(h, mi, se, us);
    TimeMinute(h, mi, se, us);
    TimeSecond(h, mi, se, us);
    TimeMicrosecond(h, mi, se, us);
    assert |s| == 15 && s[2] == ':' && s[5] == ':' && s[8] == '.';
    ParseTimeOf(s, DigitsValue(h), DigitsValue(mi), DigitsValue(se), DigitsValue(us));
  }

  lemma ParseDateText(d: DateTime)
    requires Valid(d)
    ensures ParseDate(DateText(d)) == Some((d.year, d.month, d.day))
  {
    assert Pow10(2) == 100 && Pow10(4) == 10000;
    ZeroPadFixed(d.year, 4);
    ZeroPadFixed(d.month, 2);
    ZeroPadFixed(d.day, 2);
    ParseDateFields(ZeroPad(d.year, 4), ZeroPad(d.month, 2), ZeroPad(d.day, 2));
  }

  lemma ParseTimeText(d: DateTime)
    requires Valid(d)
    ensures ParseTime(TimeText(d)) == Some((d.hour, d.minute, d.second, d.microsecond))
  {
    assert Pow10(2) == 100 && Pow10(6) == 1000000;
    ZeroPadFixed(d.hour, 2);
    ZeroPadFixed(d.minute, 2);
    ZeroPadFixed(d.second, 2);
    ZeroPadFixed(d.microsecond, 6);
    ParseTimeFields(ZeroPad(d.hour, 2), ZeroPad(d.minute, 2), ZeroPad(d.second, 2), ZeroPad(d.microsecond, 6));
  }

  /** Parsing the storage encoding of a valid timestamp gives it back, to the microsecond. */
  lemma ParseEncode(d: DateTime)
    requires Valid(d)
    ensures Parse(Encode(d)) == Some(d)
  {
    ParseDateText(d);
    ParseTimeText(d);
    var s := Encode(d);
    assert s[..10] == DateText(d);
    assert s[11..] == TimeText(d);
  }

  /** Days before 1 January of year `y` since 1 January of year 1 (Python's
      `_days_before_year`). */
  function DaysBeforeYear(y: int): int
  {
    var p := y - 1;
    p * 365 + p / 4 - p / 100 + p / 400
  }

  /** Days in year `y` before the first of month `m`. */
  function DaysBeforeMonth(y: int, m: nat): nat
  {
    if m <= 1 then 0 else DaysBeforeMonth(y, m - 1) + DaysInMonth(y, m - 1)
  }

  /** The proleptic Gregorian ordinal (`date.toordinal()`); 1 January of year 1 is 1. */
  function Ordinal(d: DateTime): int
  {
    DaysBeforeYear(d.year) + DaysBeforeMonth(d.year, d.month) + d.day
  }

  /** Whole seconds since the start of year 1, ignoring microseconds. */
  function WholeSeconds(d: DateTime): int
  {
    Ordinal(d) * 86400 + d.hour * 3600 + d.minute * 60 + d.second
  }

  /** `later.replace(microsecond=0) - earlier.replace(microsecond=0)`. */
  function Between(later: DateTime, earlier: DateTime): Duration
  {
    Duration(WholeSeconds(later) - WholeSeconds(earlier))
  }

  /** `earlier <= later` on the fields `Between` looks at. */
  predicate NotAfter(earlier: DateTime, later: DateTime)
  {
    (earlier.year, earlier.month, earlier.day, earlier.hour, earlier.minute, earlier.second)
      == (later.year, later.month, later.day, later.hour, later.minute, later.second)
    || earlier.year < later.year
    || (earlier.year == later.year && earlier.month < later.month)
    || (earlier.year == later.year && earlier.month == later.month && earlier.day < later.day)
    || (earlier.year == later.year && earlier.month == later.month && earlier.day == later.day
        && (earlier.hour, earlier.minute, earlier.second) != (later.hour, later.minute, later.second)
        && (earlier.hour < later.hour
            || (earlier.hour == later.hour && earlier.minute < later.minute)
            || (earlier.hour == later.hour && earlier.minute == later.minute && earlier.second < later.second)))
  }

  lemma DaysBeforeYearStep(y: int)
    requires y >= 1
    ensures DaysBeforeYear(y + 1) == DaysBeforeYear(y) + 365 + (if IsLeap(y) then 1 else 0)
  {
    var p := y - 1;
    assert (p + 1) / 4 - p / 4 == (if y % 4 == 0 then 1 else 0);
    assert (p + 1) / 100 - p / 100 == (if y % 100 == 0 then 1 else 0);
    assert (p + 1) / 400 - p / 400 == (if y % 400 == 0 then 1 else 0);
  }

  lemma {:induction false} DaysBeforeYearMonotonic(y: int, y': int)
    requires 1 <= y <= y'
    ensures DaysBeforeYear(y) + (if y < y' then 365 else 0) <= DaysBeforeYear(y')
    decreases y' - y
  {
    if y < y' {
      DaysBeforeYearStep(y);
      DaysBeforeYearMonotonic(y + 1, y');
    }
  }

  lemma {:induction false} DaysBeforeMonthMonotonic(y: int, m: nat, m': nat)
    requires 1 <= m <= m'
    ensures DaysBeforeMonth(y, m) + (if m < m' then DaysInMonth(y, m) else 0) <= DaysBeforeMonth(y, m')
    decreases m' - m
  {
    if m < m' {
      DaysBeforeMonthMonotonic(y, m + 1, m');
    }
  }

  lemma {:induction false} DaysBeforeYearEnd(y: int, m: nat)
    requires 1 <= m <= 12
    ensures DaysBeforeMonth(y, m) + DaysInMonth(y, m) <= 365 + (if IsLeap(y) then 1 else 0)
  {
    DaysBeforeMonthMonotonic(y, m, 12);
    var leap := if IsLeap(y) then 1 else 0;
    assert DaysBeforeMonth(y, 2) == 31;
    assert DaysBeforeMonth(y, 3) == 59 + leap;
    assert DaysBeforeMonth(y, 4) == 90 + leap;
    assert DaysBeforeMonth(y, 5) == 120 + leap;
    assert DaysBeforeMonth(y, 6) == 151 + leap;
    assert DaysBeforeMonth(y, 7) == 181 + leap;
    assert DaysBeforeMonth(y, 8) == 212 + leap;
    assert DaysBeforeMonth(y, 9) == 243 + leap;
    assert DaysBeforeMonth(y, 10) == 273 + leap;
    assert DaysBeforeMonth(y, 11) == 304 + leap;
    assert DaysBeforeMonth(y, 12) == 334 + leap;
  }

  /** The ordinal does not decrease along the calendar order of dates. */
  lemma OrdinalMonotonic(a: DateTime, b: DateTime)
    requires Valid(a) && Valid(b)
    requires a.year < b.year || (a.year == b.year && a.month < b.month)
             || (a.year == b.year && a.month == b.month && a.day < b.day)
    ensures Ordinal(a) < Ordinal(b)
  {
    if a.year < b.year {
      DaysBeforeYearEnd(a.year, a.month);
      DaysBeforeYearStep(a.year);
      DaysBeforeYearMonotonic(a.year + 1, b.year);
    } else if a.month < b.month {
      DaysBeforeMonthMonotonic(a.year, a.month, b.month);
    }
  }

  /** Time measured between two valid timestamps taken in calendar order is never
      negative: a downtime computed from an earlier last-healthy time and a later clock
      reading is a non-negative duration. */
  lemma BetweenNonNegative(earlier: DateTime, later: DateTime)
    requires Valid(earlier) && Valid(later) && NotAfter(earlier, later)
    ensures Between(later, earlier).seconds >= 0
  {
    if earlier.year < later.year || (earlier.year == later.year && earlier.month < later.month)
       || (earlier.year == later.year && earlier.month == later.month && earlier.day < later.day) {
      OrdinalMonotonic(earlier, later);
    }
  }

  /** `str(timedelta)` for a whole-second duration: `[D day[s], ]H:MM:SS`, with the day count
      floored so that the clock part is always in [0, 24h). */
  function DurationText(d: Duration): string
  {
    var days := d.seconds / 86400;
    var rest := d.seconds % 86400;
    var hms := ClockText(rest / 3600, rest % 3600 / 60, rest % 60);
    if days == 0 then hms
    else IntToString(days) + " day" + (if days == 1 || days == -1 then "" else "s") + ", " + hms
  }

  /** The clock part of a rendered duration: hours, then zero-padded minutes and seconds. */
  function ClockText(h: nat, m: nat, s: nat): string
  {
    NatToString(h) + ":" + ZeroPad(m, 2) + ":" + ZeroPad(s, 2)
  }

  /** A downtime under one day renders as the bare clock part `H:MM:SS`. */
  lemma DurationTextSameDay(h: nat, m: nat, s: nat)
    requires h < 24 && m < 60 && s < 60
    ensures DurationText(Duration(h * 3600 + m * 60 + s)) == ClockText(h, m, s)
  {
    var t := h * 3600 + m * 60 + s;
    assert t / 86400 == 0 && t % 86400 == t;
    assert t / 3600 == h && t % 3600 / 60 == m && t % 60 == s by {
      assert 0 <= m * 60 + s < 3600;
      assert t % 3600 == m * 60 + s;
      assert (m * 60 + s) / 60 == m;
    }
  }

  /** A clock that went back one second renders as Python's "-1 day, 23:59:59". */
  lemma DurationTextNegative()
    ensures DurationText(Duration(-1)) == "-1 day, 23:59:59"
  {
    assert -1 / 86400 == -1 && -1 % 86400 == 86399;
    assert 86399 / 3600 == 23 && 86399 % 3600 / 60 == 59 && 86399 % 60 == 59;
    assert ClockText(23, 59, 59) == "23:59:59" by {
      assert NatToString(23) == "23";
      assert NatToString(59) == "59";
    }
    assert IntToString(-1) == "-1";
  }

  /** A duration whose floored day count is -1 renders as "-1 day, " and its clock part. */
  lemma DurationTextMinusOneDay(x: int)
    requires x / 86400 == -1
    ensures DurationText(Duration(x)) == "-1 day, " + ClockText(x % 86400 / 3600, x % 86400 % 3600 / 60, x % 86400 % 60)
  {
    assert IntToString(-1) == "-1";
  }

  /** A clock that went back by up to a day renders as "-1 day, " followed by the text of
      the day's remainder: `timedelta` floors the day count, so the clock part counts up
      from the previous midnight. */
  lemma DurationTextDayBehind(t: nat)
    requires t < 86400
    ensures DurationText(Duration(t - 86400)) == "-1 day, " + DurationText(Duration(t))
  {
    assert (t - 86400) / 86400 == -1 && (t - 86400) % 86400 == t;
    DurationTextMinusOneDay(t - 86400);
    assert t / 86400 == 0 && t % 86400 == t;
  }

  /** `strftime('%d/%m/%Y %H:%M:%S')`. */
  function DayFirstText(d: DateTime): string
  {
    ZeroPad(d.day, 2) + "/" + ZeroPad(d.month, 2) + "/" + ZeroPad(d.year, 4) + " "
    + ZeroPad(d.hour, 2) + ":" + ZeroPad(d.minute, 2) + ":" + ZeroPad(d.second, 2)
  }

  /** `strftime('%m/%d/%Y %H:%M:%S')`. */
  function MonthFirstText(d: DateTime): string
  {
    ZeroPad(d.month, 2) + "/" + ZeroPad(d.day, 2) + "/" + ZeroPad(d.year, 4) + " "
    + ZeroPad(d.hour, 2) + ":" + ZeroPad(d.minute, 2) + ":" + ZeroPad(d.second, 2)
  }
}
