/**
 * Wall-clock date-times in the dashboard's single zone (Asia/Dubai, a fixed
 * offset with no daylight saving), as Python's `datetime` sees them: a civil
 * record compared field by field, an ordinal day number as in
 * `date.toordinal()`, hour stepping with calendar roll-over, the
 * YYYYMMDDHH key the routers build with `strftime("%Y%m%d%H")`, and the
 * subset of `datetime.fromisoformat` that the dashboard sends.
 */
module Calendar {
  import opened Wrappers
  import opened Text

  datatype DateTime = DateTime(year: int, month: int, day: int, hour: int, minute: int, second: int, micro: int)

  // ------------------------------------------------------------- calendar

  predicate IsLeap(y: int) {
    y % 4 == 0 && (y % 100 != 0 || y % 400 == 0)
  }

  function DaysInMonth(y: int, m: int): (n: int)
    ensures 28 <= n <= 31
  {
    if m == 2 then (if IsLeap(y) then 29 else 28)
    else if m == 4 || m == 6 || m == 9 || m == 11 then 30
    else 31
  }

  function DaysInYear(y: int): int {
    if IsLeap(y) then 366 else 365
  }

  predicate ValidDate(y: int, m: int, d: int) {
    1 <= y && 1 <= m <= 12 && 1 <= d <= DaysInMonth(y, m)
  }

  predicate Valid(dt: DateTime) {
    ValidDate(dt.year, dt.month, dt.day) && 0 <= dt.hour < 24 && 0 <= dt.minute < 60
    && 0 <= dt.second < 60 && 0 <= dt.micro < 1000000
  }

  predicate OnTheHour(dt: DateTime) {
    dt.minute == 0 && dt.second == 0 && dt.micro == 0
  }

  /** Python's `<` on datetimes of one zone: field by field, year first. */
  predicate Before(a: DateTime, b: DateTime) {
    a.year < b.year || (a.year == b.year &&
    (a.month < b.month || (a.month == b.month &&
    (a.day < b.day || (a.day == b.day &&
    (a.hour < b.hour || (a.hour == b.hour &&
    (a.minute < b.minute || (a.minute == b.minute &&
    (a.second < b.second || (a.second == b.second && a.micro < b.micro)))))))))))
  }

  predicate AtOrBefore(a: DateTime, b: DateTime) {
    a == b || Before(a, b)
  }

  lemma BeforeTotal(a: DateTime, b: DateTime)
    ensures Before(a, b) || a == b || Before(b, a)
    ensures !(Before(a, b) && Before(b, a))
  {
  }

  // -------------------------------------------------------- day numbering

  /** Days in the years before `y`, counted from 0001-01-01. */
  function DaysBeforeYear(y: int): (n: nat)
    requires 1 <= y
  {
    if y == 1 then 0 else DaysBeforeYear(y - 1) + DaysInYear(y - 1)
  }

  /** Days in the months of year `y` before month `m`. */
  function DaysBeforeMonth(y: int, m: int): (n: nat)
    requires 1 <= m <= 12
  {
    var leap := if IsLeap(y) then 1 else 0;
    if m == 1 then 0 else if m == 2 then 31 else if m == 3 then 59 + leap
    else if m == 4 then 90 + leap else if m == 5 then 120 + leap
    else if m == 6 then 151 + leap else if m == 7 then 181 + leap
    else if m == 8 then 212 + leap else if m == 9 then 243 + leap
    else if m == 10 then 273 + leap else if m == 11 then 304 + leap
    else 334 + leap
  }

  /** `date.toordinal()`: 0001-01-01 is day 1. */
  function Ordinal(dt: DateTime): (n: int)
    requires ValidDate(dt.year, dt.month, dt.day)
    ensures n >= 1
  {
    DaysBeforeYear(dt.year) + DaysBeforeMonth(dt.year, dt.month) + dt.day
  }

  /** The number of whole hours from 0001-01-01T00:00 to the start of dt's hour. */
  function HourIndex(dt: DateTime): int
    requires Valid(dt)
  {
    (Ordinal(dt) - 1) * 24 + dt.hour
  }

  lemma MonthStep(y: int, m: int)
    requires 1 <= m < 12
    ensures DaysBeforeMonth(y, m + 1) == DaysBeforeMonth(y, m) + DaysInMonth(y, m)
  {
  }

  lemma LastMonth(y: int)
    ensures DaysBeforeMonth(y, 12) + DaysInMonth(y, 12) == DaysInYear(y)
  {
  }

  lemma {:induction false} MonthGap(y: int, m1: int, m2: int)
    requires 1 <= m1 < m2 <= 12
    ensures DaysBeforeMonth(y, m1) + DaysInMonth(y, m1) <= DaysBeforeMonth(y, m2)
  {
    MonthStep(y, m2 - 1);
    if m1 < m2 - 1 {
      MonthGap(y, m1, m2 - 1);
    }
  }

  lemma {:induction false} YearGap(y1: int, y2: int)
    requires 1 <= y1 < y2
    ensures DaysBeforeYear(y1) + DaysInYear(y1) <= DaysBeforeYear(y2)
  {
    if y1 < y2 - 1 {
      YearGap(y1, y2 - 1);
    }
  }

  lemma DayOfYearBound(dt: DateTime)
    requires ValidDate(dt.year, dt.month, dt.day)
    ensures DaysBeforeMonth(dt.year, dt.month) + dt.day <= DaysInYear(dt.year)
  {
    if dt.month < 12 {
      MonthGap(dt.year, dt.month, 12);
    }
    LastMonth(dt.year);
  }

  // -------------------------------------------------------- hour stepping

  /** `dt + timedelta(hours=1)`, rolling over day, month and year. */
  function NextHour(dt: DateTime): (r: DateTime)
    requires Valid(dt)
    ensures Valid(r)
    ensures r.minute == dt.minute && r.second == dt.second && r.micro == dt.micro
  {
    if dt.hour < 23 then dt.(hour := dt.hour + 1)
    else if dt.day < DaysInMonth(dt.year, dt.month) then dt.(day := dt.day + 1, hour := 0)
    else if dt.month < 12 then dt.(month := dt.month + 1, day := 1, hour := 0)
    else dt.(year := dt.year + 1, month := 1, day := 1, hour := 0)
  }

  /** Stepping one hour moves the hour index by exactly one. */
  lemma NextHourIndex(dt: DateTime)
    requires Valid(dt)
    ensures HourIndex(NextHour(dt)) == HourIndex(dt) + 1
  {
    var r := NextHour(dt);
    if dt.hour == 23 && dt.day == DaysInMonth(dt.year, dt.month) {
      if dt.month < 12 {
        MonthStep(dt.year, dt.month);
      } else {
        LastMonth(dt.year);
        assert DaysBeforeYear(r.year) == DaysBeforeYear(dt.year) + DaysInYear(dt.year);
      }
    }
  }

  /** `dt + timedelta(hours=n)`. */
  function AddHours(dt: DateTime, n: nat): (r: DateTime)
    requires Valid(dt)
    ensures Valid(r)
    ensures r.minute == dt.minute && r.second == dt.second && r.micro == dt.micro
  {
    if n == 0 then dt else NextHour(AddHours(dt, n - 1))
  }

  lemma {:induction false} AddHoursIndex(dt: DateTime, n: nat)
    requires Valid(dt)
    ensures HourIndex(AddHours(dt, n)) == HourIndex(dt) + n
  {
    if n > 0 {
      AddHoursIndex(dt, n - 1);
      NextHourIndex(AddHours(dt, n - 1));
    }
  }

  /**
   * Among valid datetimes, the order by hour index agrees with Python's
   * comparison; on the hour the two are the same order.
   */
  lemma BeforeIndex(a: DateTime, b: DateTime)
    requires Valid(a) && Valid(b) && Before(a, b)
    ensures HourIndex(a) <= HourIndex(b)
    ensures OnTheHour(a) && OnTheHour(b) ==> HourIndex(a) < HourIndex(b)
  {
    if a.year < b.year {
      DayOfYearBound(a);
      YearGap(a.year, b.year);
    } else if a.year == b.year && a.month < b.month {
      MonthGap(a.year, a.month, b.month);
    }
  }

  lemma OrderByIndex(a: DateTime, b: DateTime)
    requires Valid(a) && Valid(b) && OnTheHour(a) && OnTheHour(b)
    ensures Before(a, b) <==> HourIndex(a) < HourIndex(b)
    ensures a == b <==> HourIndex(a) == HourIndex(b)
  {
    BeforeTotal(a, b);
    if Before(a, b) {
      BeforeIndex(a, b);
    } else if Before(b, a) {
      BeforeIndex(b, a);
    }
  }

  /** Consecutive steps are strictly ordered, so `AddHours` is strictly increasing in n. */
  lemma AddHoursOrder(dt: DateTime, i: nat, j: nat)
    requires Valid(dt) && OnTheHour(dt) && i < j
    ensures Before(AddHours(dt, i), AddHours(dt, j))
  {
    AddHoursIndex(dt, i);
    AddHoursIndex(dt, j);
    OrderByIndex(AddHours(dt, i), AddHours(dt, j));
  }

  // ------------------------------------------------------------ truncation

  /** `dt.replace(minute=0, second=0, microsecond=0)`. */
  function Truncate(dt: DateTime): (r: DateTime)
    ensures OnTheHour(r)
    ensures r == dt <==> OnTheHour(dt)
    ensures Valid(dt) ==> Valid(r) && AtOrBefore(r, dt) && HourIndex(r) == HourIndex(dt)
  {
    dt.(minute := 0, second := 0, micro := 0)
  }

  /** Microseconds since the start of day 1: a single number ordering valid datetimes. */
  function MicroIndex(dt: DateTime): int
    requires Valid(dt)
  {
    ((HourIndex(dt) * 60 + dt.minute) * 60 + dt.second) * 1000000 + dt.micro
  }

  /** Python's comparison of datetimes of one zone is the order of their microsecond index. */
  lemma {:induction false} MicroIndexOrder(a: DateTime, b: DateTime)
    requires Valid(a) && Valid(b)
    ensures Before(a, b) <==> MicroIndex(a) < MicroIndex(b)
    ensures a == b <==> MicroIndex(a) == MicroIndex(b)
  {
    var ha, hb := HourIndex(a), HourIndex(b);
    var sa, sb := SubHourMicro(a), SubHourMicro(b);
    assert MicroIndex(a) == ha * 3600000000 + sa && MicroIndex(b) == hb * 3600000000 + sb;
    LexOrder(ha, sa, hb, sb, 3600000000);
    var ta, tb := Truncate(a), Truncate(b);
    assert (Before(ta, tb) <==> ha < hb) && (ta == tb <==> ha == hb) by {
      OrderByIndex(ta, tb);
    }
    assert (Before(a, b) <==> ha < hb || (ha == hb && sa < sb)) && (a == b <==> ha == hb && sa == sb) by {
      SubHourOrder(a, b);
    }
  }

  /** The microseconds of dt past its hour. */
  function SubHourMicro(dt: DateTime): (r: int)
    requires Valid(dt)
    ensures 0 <= r < 3600000000
  {
    (dt.minute * 60 + dt.second) * 1000000 + dt.micro
  }

  /** Within one hour, minute, second and microsecond order as their combined count. */
  lemma SubHourOrder(a: DateTime, b: DateTime)
    requires Valid(a) && Valid(b)
    ensures (a.minute, a.second, a.micro) == (b.minute, b.second, b.micro) <==> SubHourMicro(a) == SubHourMicro(b)
    ensures (a.minute < b.minute || (a.minute == b.minute && (a.second < b.second || (a.second == b.second && a.micro < b.micro))))
      <==> SubHourMicro(a) < SubHourMicro(b)
  {
    LexOrder(a.minute * 60 + a.second, a.micro, b.minute * 60 + b.second, b.micro, 1000000);
    LexOrder(a.minute, a.second, b.minute, b.second, 60);
  }

  /** A number written as h·c + s with 0 <= s < c orders lexicographically by (h, s). */
  lemma LexOrder(ha: int, sa: int, hb: int, sb: int, c: int)
    requires 0 <= sa < c && 0 <= sb < c
    ensures ha * c + sa < hb * c + sb <==> ha < hb || (ha == hb && sa < sb)
    ensures ha * c + sa == hb * c + sb <==> ha == hb && sa == sb
  {
    if ha < hb {
      GapAtLeastOne(ha, hb, c);
    } else if hb < ha {
      GapAtLeastOne(hb, ha, c);
    }
  }

  lemma GapAtLeastOne(lo: int, hi: int, c: int)
    requires lo < hi && 0 < c
    ensures hi * c >= lo * c + c
  {
    var d := hi - lo - 1;
    assert hi * c == lo * c + c + d * c;
    assert d * c >= 0;
  }

  /** Dividing q·c + r by c, with 0 <= r < c, gives back q and r. */
  lemma DivModOf(q: int, r: int, c: int)
    requires 0 <= r < c
    ensures (q * c + r) / c == q && (q * c + r) % c == r
  {
    var x := q * c + r;
    var q2 := x / c;
    if q2 < q {
      GapAtLeastOne(q2, q, c);
    } else if q < q2 {
      GapAtLeastOne(q, q2, c);
    }
  }

  /** `(end - start).days` for two on-the-hour datetimes: the floor of the hour gap over 24. */
  function DaysBetween(start: DateTime, end: DateTime): int
    requires Valid(start) && Valid(end)
  {
    (HourIndex(end) - HourIndex(start)) / 24
  }

  // ------------------------------------------------------------ hour keys

  /** `int(dt.strftime("%Y%m%d%H"))`. */
  function HourKey(dt: DateTime): int {
    dt.year * 1000000 + dt.month * 10000 + dt.day * 100 + dt.hour
  }

  /** The key can be read back field by field. */
  lemma HourKeyDecode(dt: DateTime)
    requires Valid(dt)
    ensures HourKey(dt) % 100 == dt.hour
    ensures HourKey(dt) / 100 % 100 == dt.day
    ensures HourKey(dt) / 10000 % 100 == dt.month
    ensures HourKey(dt) / 1000000 == dt.year
  {
    var ym := dt.year * 100 + dt.month;
    var ymd := ym * 100 + dt.day;
    assert HourKey(dt) == ymd * 100 + dt.hour;
    DivModOf(ymd, dt.hour, 100);
    DivModOf(ym, dt.day, 100);
    DivModOf(dt.year, dt.month, 100);
    assert HourKey(dt) == ym * 10000 + (dt.day * 100 + dt.hour);
    DivModOf(ym, dt.day * 100 + dt.hour, 10000);
    assert HourKey(dt) == dt.year * 1000000 + (dt.month * 10000 + dt.day * 100 + dt.hour);
    DivModOf(dt.year, dt.month * 10000 + dt.day * 100 + dt.hour, 1000000);
  }

  /** Keys follow the order of datetimes, and on the hour they determine it. */
  lemma HourKeyOrder(a: DateTime, b: DateTime)
    requires Valid(a) && Valid(b)
    ensures AtOrBefore(a, b) ==> HourKey(a) <= HourKey(b)
    ensures OnTheHour(a) && OnTheHour(b) ==> (Before(a, b) <==> HourKey(a) < HourKey(b))
  {
    var ra := a.month * 10000 + a.day * 100 + a.hour;
    var rb := b.month * 10000 + b.day * 100 + b.hour;
    assert ra < 1000000 && rb < 1000000;
    if a.year < b.year {
      assert a.year * 1000000 + 1000000 <= b.year * 1000000;
    }
  }

  // --------------------------------------------------------- ISO parsing

  function Digits(s: string, i: nat, j: nat): Option<nat>
    requires i <= j <= |s|
  {
    if AllDigits(s[i..j]) then Some(DigitsValue(s[i..j])) else None
  }

  /**
   * `datetime.fromisoformat` on the forms the dashboard produces:
   * "YYYY-MM-DD", then optionally any separator character and "HH",
   * "HH:MM" or "HH:MM:SS". Anything else, and any field out of range, is a
   * parse error (None).
   */
  function ParseIso(s: string): (r: Option<DateTime>)
    ensures r.Some? ==> Valid(r.value) && r.value.micro == 0
  {
    if |s| < 10 || s[4] != '-' || s[7] != '-' then None
    else if !(|s| == 10 || |s| == 13 || (|s| == 16 && s[13] == ':') || (|s| == 19 && s[13] == ':' && s[16] == ':')) then None
    else
      var y := Digits(s, 0, 4);
      var mo := Digits(s, 5, 7);
      var d := Digits(s, 8, 10);
      var h := if |s| >= 13 then Digits(s, 11, 13) else Some(0);
      var mi := if |s| >= 16 then Digits(s, 14, 16) else Some(0);
      var sec := if |s| >= 19 then Digits(s, 17, 19) else Some(0);
      if y.None? || mo.None? || d.None? || h.None? || mi.None? || sec.None? then None
      else
        var dt := DateTime(y.value, mo.value, d.value, h.value, mi.value, sec.value, 0);
        if Valid(dt) then Some(dt) else None
  }

  /** The local parse the routers apply: fromisoformat, then truncation to the hour. */
  function ParseLocalHour(s: string): (r: Option<DateTime>)
    ensures r.Some? ==> Valid(r.value) && OnTheHour(r.value)
    ensures r.Some? <==> ParseIso(s).Some?
  {
    match ParseIso(s)
    case Some(dt) => Some(Truncate(dt))
    case None => None
  }
}
