/** Proleptic Gregorian dates and naive date-times, with the day arithmetic
    of Python's `datetime` module: a date's ordinal counts days from
    0001-01-01 (ordinal 1), `date - timedelta(days=n)` moves the ordinal,
    `weekday()` is 0 for Monday, and dates compare field by field. */
module Calendar {
  import opened Wrappers

  const MinYear := 1
  const MaxYear := 9999

  datatype Date = Date(year: int, month: int, day: int)

  predicate IsLeap(y: int) {
    y % 4 == 0 && (y % 100 != 0 || y % 400 == 0)
  }

  function DaysInMonth(y: int, m: int): (n: int)
    requires 1 <= m <= 12
    ensures 28 <= n <= 31
  {
    if m == 2 then (if IsLeap(y) then 29 else 28)
    else if m == 4 || m == 6 || m == 9 || m == 11 then 30
    else 31
  }

  function DaysInYear(y: int): int {
    if IsLeap(y) then 366 else 365
  }

  predicate ValidDate(d: Date) {
    MinYear <= d.year <= MaxYear && 1 <= d.month <= 12 && 1 <= d.day <= DaysInMonth(d.year, d.month)
  }

  /** Days in the years before `y` (CPython's `_days_before_year`). */
  function DaysBeforeYear(y: int): int {
    var p := y - 1;
    p * 365 + p / 4 - p / 100 + p / 400
  }

  /** Days in the months of year `y` before month `m` (CPython's `_days_before_month`). */
  function DaysBeforeMonth(y: int, m: int): int
    requires 1 <= m <= 12
  {
    [0, 31, 59, 90, 120, 151, 181, 212, 243, 273, 304, 334][m - 1] + (if m > 2 && IsLeap(y) then 1 else 0)
  }

  /** `date.toordinal()`: 0001-01-01 is day 1 (CPython's `_ymd2ord`). */
  function Ordinal(d: Date): int
    requires 1 <= d.month <= 12
  {
    DaysBeforeYear(d.year) + DaysBeforeMonth(d.year, d.month) + d.day
  }

  /** `date.weekday()`: Monday is 0, Sunday is 6. */
  function Weekday(d: Date): (w: int)
    requires 1 <= d.month <= 12
    ensures 0 <= w < 7
  {
    (Ordinal(d) + 6) % 7
  }

  /** Python's `date.__le__`: lexicographic on (year, month, day). */
  predicate DateLe(a: Date, b: Date) {
    a.year < b.year ||
    (a.year == b.year && (a.month < b.month || (a.month == b.month && a.day <= b.day)))
  }

  lemma DaysBeforeNextYear(y: int)
    requires MinYear <= y
    ensures DaysBeforeYear(y + 1) == DaysBeforeYear(y) + DaysInYear(y)
  {
    var a := if y % 4 == 0 then 1 else 0;
    var b := if y % 100 == 0 then 1 else 0;
    var c := if y % 400 == 0 then 1 else 0;
    assert y / 4 - (y - 1) / 4 == a;
    assert y / 100 - (y - 1) / 100 == b;
    assert y / 400 - (y - 1) / 400 == c;
    if y % 400 == 0 {
      assert y == 100 * (4 * (y / 400));
    }
    if y % 100 == 0 {
      assert y == 4 * (25 * (y / 100));
    }
    assert DaysBeforeYear(y + 1) == DaysBeforeYear(y) + 365 + a - b + c;
  }

  lemma DaysBeforeNextMonth(y: int, m: int)
    requires 1 <= m < 12
    ensures DaysBeforeMonth(y, m + 1) == DaysBeforeMonth(y, m) + DaysInMonth(y, m)
  {
  }

  lemma DaysBeforeDecember(y: int)
    ensures DaysBeforeMonth(y, 12) + DaysInMonth(y, 12) == DaysInYear(y)
  {
  }

  /** Years earlier in the calendar start earlier. */
  lemma {:induction false} DaysBeforeYearMonotone(y: int, z: int)
    requires MinYear <= y <= z
    ensures DaysBeforeYear(y) + DaysInYear(y) <= DaysBeforeYear(z) || y == z
    ensures DaysBeforeYear(y) <= DaysBeforeYear(z)
    decreases z - y
  {
    if y < z {
      DaysBeforeNextYear(y);
      DaysBeforeYearMonotone(y + 1, z);
    }
  }

  lemma {:induction false} DaysBeforeMonthMonotone(y: int, m: int, n: int)
    requires 1 <= m < n <= 12
    ensures DaysBeforeMonth(y, m) + DaysInMonth(y, m) <= DaysBeforeMonth(y, n)
    decreases n - m
  {
    DaysBeforeNextMonth(y, m);
    if m + 1 < n {
      DaysBeforeMonthMonotone(y, m + 1, n);
    }
  }

  /** A date's ordinal lies inside its own year. */
  lemma OrdinalWithinYear(d: Date)
    requires ValidDate(d)
    ensures DaysBeforeYear(d.year) < Ordinal(d) <= DaysBeforeYear(d.year) + DaysInYear(d.year)
  {
    if d.month < 12 {
      DaysBeforeMonthMonotone(d.year, d.month, 12);
    }
    DaysBeforeDecember(d.year);
  }

  /** Every calendar day has an ordinal of at least 1. */
  lemma OrdinalPositive(d: Date)
    requires ValidDate(d)
    ensures Ordinal(d) >= 1
  {
    OrdinalWithinYear(d);
  }

  /** An earlier date has a smaller ordinal. */
  lemma OrdinalStrictlyMonotone(a: Date, b: Date)
    requires ValidDate(a) && ValidDate(b)
    requires DateLe(a, b) && a != b
    ensures Ordinal(a) < Ordinal(b)
  {
    if a.year < b.year {
      OrdinalWithinYear(a);
      OrdinalWithinYear(b);
      DaysBeforeYearMonotone(a.year, b.year);
    } else if a.month < b.month {
      DaysBeforeMonthMonotone(a.year, a.month, b.month);
    }
  }

  /** A date whose ordinal is no larger comes no later. */
  lemma OrdinalLeToDateLe(a: Date, b: Date)
    requires ValidDate(a) && ValidDate(b)
    requires Ordinal(a) <= Ordinal(b)
    ensures DateLe(a, b)
  {
    if !DateLe(a, b) {
      OrdinalStrictlyMonotone(b, a);
    }
  }

  /** A date that comes no later has an ordinal no larger. */
  lemma DateLeToOrdinalLe(a: Date, b: Date)
    requires ValidDate(a) && ValidDate(b)
    requires DateLe(a, b)
    ensures Ordinal(a) <= Ordinal(b)
  {
    if a != b {
      OrdinalStrictlyMonotone(a, b);
    }
  }

  /** Python's field-wise date order is the order of ordinals; in particular,
      the ordinal identifies a date (what `date.fromordinal` relies on). */
  lemma DateLeIffOrdinalLe(a: Date, b: Date)
    requires ValidDate(a) && ValidDate(b)
    ensures DateLe(a, b) <==> Ordinal(a) <= Ordinal(b)
    ensures Ordinal(a) == Ordinal(b) ==> a == b
  {
    if a != b {
      if DateLe(a, b) {
        OrdinalStrictlyMonotone(a, b);
      } else {
        OrdinalStrictlyMonotone(b, a);
      }
    }
  }

  /** Only 0001-01-01 has ordinal 1; every later day has a day before it. */
  lemma NotFirstDay(d: Date)
    requires ValidDate(d) && Ordinal(d) > 1
    ensures d != Date(MinYear, 1, 1)
  {
    assert Ordinal(Date(MinYear, 1, 1)) == 1;
  }

  /** The last day of the previous month is the day before the first of a month. */
  lemma EndOfPreviousMonth(d: Date)
    requires ValidDate(d) && d.day == 1 && d.month > 1
    ensures var p := Date(d.year, d.month - 1, DaysInMonth(d.year, d.month - 1));
      ValidDate(p) && Ordinal(p) == Ordinal(d) - 1
  {
    DaysBeforeNextMonth(d.year, d.month - 1);
  }

  /** 31 December of the previous year is the day before 1 January. */
  lemma EndOfPreviousYear(d: Date)
    requires ValidDate(d) && d.day == 1 && d.month == 1 && d.year > MinYear
    ensures var p := Date(d.year - 1, 12, 31);
      ValidDate(p) && Ordinal(p) == Ordinal(d) - 1
  {
    DaysBeforeNextYear(d.year - 1);
    DaysBeforeDecember(d.year - 1);
  }

  /** The day before `d`. */
  function PrevDay(d: Date): (p: Date)
    requires ValidDate(d) && d != Date(MinYear, 1, 1)
    ensures ValidDate(p) && Ordinal(p) == Ordinal(d) - 1
  {
    if d.day > 1 then
      Date(d.year, d.month, d.day - 1)
    else if d.month > 1 then
      EndOfPreviousMonth(d);
      Date(d.year, d.month - 1, DaysInMonth(d.year, d.month - 1))
    else
      EndOfPreviousYear(d);
      Date(d.year - 1, 12, 31)
  }

  /** `d - timedelta(days=n)`. Python raises OverflowError unless the result's
      ordinal is at least 1, which is this function's precondition. */
  function SubDays(d: Date, n: nat): (r: Date)
    requires ValidDate(d) && n < Ordinal(d)
    ensures ValidDate(r) && Ordinal(r) == Ordinal(d) - n
    decreases n
  {
    if n == 0 then d
    else
      NotFirstDay(d);
      SubDays(PrevDay(d), n - 1)
  }

  /** `SubDays` gives the one valid date whose ordinal is `n` less, which is
      what Python's `date.fromordinal(d.toordinal() - n)` returns. */
  lemma SubDaysIsFromOrdinal(d: Date, n: nat, e: Date)
    requires ValidDate(d) && n < Ordinal(d)
    requires ValidDate(e) && Ordinal(e) == Ordinal(d) - n
    ensures SubDays(d, n) == e
  {
    DateLeIffOrdinalLe(SubDays(d, n), e);
  }

  /** Day-count arithmetic behind the week window: with `w == (o + 6) % 7`,
      day `o - w` has weekday 0, lies at most six days back, and no day `om`
      with weekday 0 lies strictly between it and `o`. */
  lemma BackToMonday(o: int, w: int, om: int)
    requires o >= 1 && w == (o + 6) % 7
    ensures 0 <= w < o && o - 6 <= o - w
    ensures (o - w + 6) % 7 == 0
    ensures om <= o && (om + 6) % 7 == 0 ==> om <= o - w
  {
    var q := (o + 6) / 7;
    assert o + 6 == 7 * q + w;
    if o < 7 {
      assert o + 6 == 7 * 1 + (o - 1);
    }
    assert o - w + 6 == 7 * q;
    if om <= o && (om + 6) % 7 == 0 {
      var k := (om + 6) / 7;
      assert om + 6 == 7 * k;
      assert k <= q;
    }
  }

  /** A date's weekday is smaller than its ordinal, so stepping back to
      Monday never leaves the calendar. */
  lemma WeekdayBelowOrdinal(d: Date)
    requires ValidDate(d)
    ensures Weekday(d) < Ordinal(d)
  {
    var o := Ordinal(d);
    assert o >= 1 by { OrdinalPositive(d); }
    BackToMonday(o, Weekday(d), o);
  }

  /** Monday of the week of `today`: `today - timedelta(days=today.weekday())`. */
  function StartOfWeek(today: Date): (r: Date)
    requires ValidDate(today)
    ensures ValidDate(r) && Ordinal(r) == Ordinal(today) - Weekday(today)
  {
    WeekdayBelowOrdinal(today);
    SubDays(today, Weekday(today))
  }

  /** The week window starts on a Monday. */
  lemma StartOfWeekIsMonday(today: Date)
    requires ValidDate(today)
    ensures Weekday(StartOfWeek(today)) == 0
  {
    var o, w := Ordinal(today), Weekday(today);
    assert o >= 1 by { OrdinalPositive(today); }
    MondayAt(StartOfWeek(today), o, w);
  }

  /** Weekdays agree with the calendar: 2025-01-06 was a Monday and the day
      before it a Sunday. */
  lemma WeekdayAnchor()
    ensures Weekday(Date(2025, 1, 6)) == 0
    ensures Weekday(Date(2025, 1, 5)) == 6
  {
    assert DaysBeforeYear(2025) == 739251;
  }

  /** A day `w` days before ordinal `o`, where `w` is `o`'s weekday, is a Monday. */
  lemma MondayAt(s: Date, o: int, w: int)
    requires 1 <= s.month <= 12 && o >= 1 && w == (o + 6) % 7 && Ordinal(s) == o - w
    ensures Weekday(s) == 0
  {
    BackToMonday(o, w, o);
  }

  /** The week window starts at most six days before today, and not after it. */
  lemma StartOfWeekWithinSixDays(today: Date)
    requires ValidDate(today)
    ensures Ordinal(today) - 6 <= Ordinal(StartOfWeek(today)) <= Ordinal(today)
    ensures DateLe(StartOfWeek(today), today)
  {
    var o := Ordinal(today);
    assert o >= 1 by { OrdinalPositive(today); }
    BackToMonday(o, Weekday(today), o);
    OrdinalLeToDateLe(StartOfWeek(today), today);
  }

  /** The week window starts on the latest Monday on or before `today`. */
  lemma StartOfWeekIsLatestMonday(today: Date, monday: Date)
    requires ValidDate(today) && ValidDate(monday)
    requires Weekday(monday) == 0 && DateLe(monday, today)
    ensures DateLe(monday, StartOfWeek(today))
  {
    var o, om, w := Ordinal(today), Ordinal(monday), Weekday(today);
    assert om <= o by { DateLeToOrdinalLe(monday, today); }
    assert o >= 1 by { OrdinalPositive(today); }
    assert (om + 6) % 7 == 0;
    assert om <= o - w by { BackToMonday(o, w, om); }
    OrdinalLeToDateLe(monday, StartOfWeek(today));
  }

  /** The first of the month of `today`: `today.replace(day=1)`. */
  function StartOfMonth(today: Date): (r: Date)
    requires ValidDate(today)
    ensures ValidDate(r) && r.day == 1 && DateLe(r, today)
  {
    Date(today.year, today.month, 1)
  }

  /** A date lies in the month window exactly when it is in today's month, on or before today. */
  lemma MonthWindowIsCurrentMonth(today: Date, e: Date)
    requires ValidDate(today)
    ensures DateLe(StartOfMonth(today), e) && DateLe(e, today) <==>
            e.year == today.year && e.month == today.month && 1 <= e.day <= today.day
  {
  }

  /** A date lies in the week window exactly when its ordinal is between
      Monday's and today's: at most seven days. */
  lemma WeekWindowIsCurrentWeek(today: Date, e: Date)
    requires ValidDate(today) && ValidDate(e)
    ensures DateLe(StartOfWeek(today), e) && DateLe(e, today) <==>
            Ordinal(today) - Weekday(today) <= Ordinal(e) <= Ordinal(today)
  {
    DateLeIffOrdinalLe(StartOfWeek(today), e);
    DateLeIffOrdinalLe(e, today);
  }

  // ---------------------------------------------------------------------
  // Date-times

  /** A parsed ISO 8601 date-time; `utcOffset` (seconds) is `None` for a naive value. */
  datatype DateTime = DateTime(date: Date, hour: int, minute: int, second: int,
                               microsecond: int, utcOffset: Option<int>)

  predicate ValidDateTime(t: DateTime) {
    ValidDate(t.date) && 0 <= t.hour < 24 && 0 <= t.minute < 60 && 0 <= t.second < 60 &&
    0 <= t.microsecond < 1000000
  }

  const MicrosPerSecond := 1_000_000
  const MicrosPerHour := 3_600_000_000
  const MicrosPerDay := 86_400_000_000

  /** Microseconds since midnight of the wall-clock reading. */
  function TimeOfDayMicros(t: DateTime): (us: int)
    requires ValidDateTime(t)
    ensures 0 <= us < MicrosPerDay
  {
    ((t.hour * 60 + t.minute) * 60 + t.second) * MicrosPerSecond + t.microsecond
  }

  /** Microseconds of the wall-clock reading since 0000-12-31T00:00, ignoring
      any offset: the value Python's naive arithmetic works with. */
  function NaiveMicros(t: DateTime): int
    requires ValidDateTime(t)
  {
    Ordinal(t.date) * MicrosPerDay + TimeOfDayMicros(t)
  }

  /** `t.replace(tzinfo=None)`: the same wall-clock reading with its offset dropped, not applied. */
  function Naive(t: DateTime): DateTime {
    t.(utcOffset := None)
  }

  /** Python's comparison of two naive datetimes: field by field. */
  predicate NaiveLe(a: DateTime, b: DateTime) {
    if a.date != b.date then DateLe(a.date, b.date)
    else if a.hour != b.hour then a.hour < b.hour
    else if a.minute != b.minute then a.minute < b.minute
    else if a.second != b.second then a.second < b.second
    else a.microsecond <= b.microsecond
  }

  /** Comparing microsecond counts is Python's field-wise comparison. */
  lemma NaiveLeIffMicrosLe(a: DateTime, b: DateTime)
    requires ValidDateTime(a) && ValidDateTime(b)
    ensures NaiveLe(a, b) <==> NaiveMicros(a) <= NaiveMicros(b)
  {
    DateLeIffOrdinalLe(a.date, b.date);
    if a.date != b.date {
      var oa, ob := Ordinal(a.date), Ordinal(b.date);
      assert oa < ob || ob < oa;
      if oa < ob {
        assert oa * MicrosPerDay + MicrosPerDay <= ob * MicrosPerDay;
      } else {
        assert ob * MicrosPerDay + MicrosPerDay <= oa * MicrosPerDay;
      }
    }
  }

  /** Microseconds of 0001-01-01T00:00, the earliest instant Python's `datetime` can hold. */
  const MinMicros := MicrosPerDay

  lemma MinMicrosIsFirstInstant()
    ensures NaiveMicros(DateTime(Date(MinYear, 1, 1), 0, 0, 0, 0, None)) == MinMicros
  {
  }

  /** Whole days `t - timedelta(hours=h)` steps back: `h div 24`, plus one when the
      remaining hours reach back past midnight. */
  function HoursBackDays(t: DateTime, h: nat): nat {
    h / 24 + (if t.hour < h % 24 then 1 else 0)
  }

  /** Python's `datetime - timedelta(hours=h)` stays on or after 0001-01-01 (it
      raises `OverflowError` otherwise). */
  predicate SubHoursDefined(t: DateTime, h: nat)
    requires ValidDateTime(t)
  {
    HoursBackDays(t, h) < Ordinal(t.date)
  }

  /** Microsecond arithmetic behind `SubHours`, on plain integers: stepping
      back `h` hours from hour `hour` of day `o` lands on hour `hour2` of day
      `o - back`, and that day is still a calendar day exactly when the
      result is at least one whole day of microseconds. */
  lemma HourShift(o: int, hour: int, rest: int, h: nat, back: int, hour2: int)
    requires 0 <= hour < 24 && 0 <= rest < MicrosPerHour
    requires back == h / 24 + (if hour < h % 24 then 1 else 0)
    requires hour2 == hour - h % 24 + (if hour < h % 24 then 24 else 0)
    ensures 0 <= hour2 < 24
    ensures (o - back) * MicrosPerDay + hour2 * MicrosPerHour + rest ==
            o * MicrosPerDay + hour * MicrosPerHour + rest - h * MicrosPerHour
    ensures back < o <==> MicrosPerDay <= o * MicrosPerDay + hour * MicrosPerHour + rest - h * MicrosPerHour
  {
    var q, rr := h / 24, h % 24;
    assert h == 24 * q + rr && 0 <= rr < 24;
    assert h * MicrosPerHour == q * MicrosPerDay + rr * MicrosPerHour;
    var x := o * MicrosPerDay + hour * MicrosPerHour + rest - h * MicrosPerHour;
    assert x == (o - back) * MicrosPerDay + hour2 * MicrosPerHour + rest;
    assert 0 <= hour2 * MicrosPerHour + rest < MicrosPerDay;
    if back < o {
      assert (o - back) * MicrosPerDay >= MicrosPerDay;
    } else {
      assert (o - back) * MicrosPerDay <= 0;
    }
  }

  /** The part of the time of day below the hour. */
  function SubHourMicros(t: DateTime): (us: int)
    requires ValidDateTime(t)
    ensures 0 <= us < MicrosPerHour
    ensures TimeOfDayMicros(t) == t.hour * MicrosPerHour + us
  {
    (t.minute * 60 + t.second) * MicrosPerSecond + t.microsecond
  }

  /** `t - timedelta(hours=h)`: the same minute, second and offset, `h` hours earlier. */
  function SubHours(t: DateTime, h: nat): (r: DateTime)
    requires ValidDateTime(t) && SubHoursDefined(t, h)
    ensures ValidDateTime(r) && r.utcOffset == t.utcOffset
    ensures NaiveMicros(r) == NaiveMicros(t) - h * MicrosPerHour
  {
    var k := HoursBackDays(t, h);
    var hour := t.hour - h % 24 + (if t.hour < h % 24 then 24 else 0);
    HourShift(Ordinal(t.date), t.hour, SubHourMicros(t), h, k, hour);
    var r := t.(date := SubDays(t.date, k), hour := hour);
    assert SubHourMicros(r) == SubHourMicros(t);
    r
  }

  /** The subtraction is defined exactly when its result is no earlier than the
      first instant Python can represent. */
  lemma SubHoursDefinedIffInRange(t: DateTime, h: nat)
    requires ValidDateTime(t)
    ensures SubHoursDefined(t, h) <==> MinMicros <= NaiveMicros(t) - h * MicrosPerHour
  {
    var hour := t.hour - h % 24 + (if t.hour < h % 24 then 24 else 0);
    HourShift(Ordinal(t.date), t.hour, SubHourMicros(t), h, HoursBackDays(t, h), hour);
  }

  /** Looking further back gives an earlier cutoff. */
  lemma SubHoursAntitone(t: DateTime, h1: nat, h2: nat)
    requires ValidDateTime(t) && h1 <= h2 && SubHoursDefined(t, h2)
    ensures SubHoursDefined(t, h1)
    ensures NaiveLe(SubHours(t, h2), SubHours(t, h1))
  {
    SubHoursDefinedIffInRange(t, h1);
    SubHoursDefinedIffInRange(t, h2);
    NaiveLeIffMicrosLe(SubHours(t, h2), SubHours(t, h1));
  }

  /** Python's datetime order is transitive. */
  lemma NaiveLeTransitive(a: DateTime, b: DateTime, c: DateTime)
    requires NaiveLe(a, b) && NaiveLe(b, c)
    ensures NaiveLe(a, c)
  {
  }
}
