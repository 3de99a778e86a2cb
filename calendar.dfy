/**
 * The slice of Python's `datetime` the form relies on: calendar dates in the
 * proleptic Gregorian calendar with years 1..9999, wall-clock times, naive
 * comparison, and adding a number of minutes with day rollover.
 */
module Calendar {
  import opened Common

  datatype Date = Date(year: int, month: int, day: int)

  /** A `datetime.time`: hour, minute, second and microsecond. */
  datatype TimeOfDay = TimeOfDay(hour: int, minute: int, second: int, micro: int)

  /** A `datetime` read as its wall-clock date and time. */
  datatype DateTime = DateTime(date: Date, time: TimeOfDay)

  /** Python's `OverflowError("date value out of range")`. */
  datatype Overflow = DateOutOfRange

  const MinYear := 1
  const MaxYear := 9999

  predicate IsLeap(y: int) {
    y % 4 == 0 && (y % 100 != 0 || y % 400 == 0)
  }

  function DaysInYear(y: int): int {
    if IsLeap(y) then 366 else 365
  }

  function DaysInMonth(y: int, m: int): int
    requires 1 <= m <= 12
  {
    if m == 2 then (if IsLeap(y) then 29 else 28)
    else if m == 4 || m == 6 || m == 9 || m == 11 then 30
    else 31
  }

  /** A day that exists in the proleptic Gregorian calendar, whatever the year. */
  predicate CivilValid(d: Date) {
    1 <= d.month <= 12 && 1 <= d.day <= DaysInMonth(d.year, d.month)
  }

  /** A value Python's `date` accepts. */
  predicate ValidDate(d: Date) {
    CivilValid(d) && MinYear <= d.year <= MaxYear
  }

  predicate ValidTime(t: TimeOfDay) {
    0 <= t.hour < 24 && 0 <= t.minute < 60 && 0 <= t.second < 60 && 0 <= t.micro < 1000000
  }

  predicate ValidDateTime(dt: DateTime) {
    ValidDate(dt.date) && ValidTime(dt.time)
  }

  /** Days in the years before `y`: the first term of Python's `date.toordinal()`. */
  function DaysBeforeYear(y: int): int {
    var k := y - 1;
    365 * k + k / 4 - k / 100 + k / 400
  }

  /** Days in the months of year `y` before month `m`. */
  function DaysBeforeMonth(y: int, m: int): int
    requires 1 <= m <= 12
  {
    var common :=
      if m == 1 then 0 else if m == 2 then 31 else if m == 3 then 59
      else if m == 4 then 90 else if m == 5 then 120 else if m == 6 then 151
      else if m == 7 then 181 else if m == 8 then 212 else if m == 9 then 243
      else if m == 10 then 273 else if m == 11 then 304 else 334;
    common + (if m > 2 && IsLeap(y) then 1 else 0)
  }

  /** Python's `date.toordinal()`: 0001-01-01 is day 1. */
  function Ordinal(d: Date): int
    requires CivilValid(d)
  {
    DaysBeforeYear(d.year) + DaysBeforeMonth(d.year, d.month) + d.day
  }

  /** The ordinal of 9999-12-31, the last day Python's `date` can hold. */
  const MaxOrdinal := 3652059

  /** Stepping `k` to `k + 1` raises `k / 4` by one exactly when 4 divides `k + 1`; likewise for 100 and 400. */
  lemma DivStep4(k: int)
    ensures (k + 1) / 4 == k / 4 + (if (k + 1) % 4 == 0 then 1 else 0)
  {
    var q, r := k / 4, k % 4;
    assert k == 4 * q + r;
    if r == 3 {
      assert (k + 1) / 4 == q + 1 && (k + 1) % 4 == 0;
    } else {
      assert (k + 1) / 4 == q && (k + 1) % 4 == r + 1;
    }
  }

  lemma DivStep100(k: int)
    ensures (k + 1) / 100 == k / 100 + (if (k + 1) % 100 == 0 then 1 else 0)
  {
    var q, r := k / 100, k % 100;
    assert k == 100 * q + r;
    if r == 99 {
      assert (k + 1) / 100 == q + 1 && (k + 1) % 100 == 0;
    } else {
      assert (k + 1) / 100 == q && (k + 1) % 100 == r + 1;
    }
  }

  lemma DivStep400(k: int)
    ensures (k + 1) / 400 == k / 400 + (if (k + 1) % 400 == 0 then 1 else 0)
  {
    var q, r := k / 400, k % 400;
    assert k == 400 * q + r;
    if r == 399 {
      assert (k + 1) / 400 == q + 1 && (k + 1) % 400 == 0;
    } else {
      assert (k + 1) / 400 == q && (k + 1) % 400 == r + 1;
    }
  }

  /** A multiple of 400 is a multiple of 100, and a multiple of 100 a multiple of 4. */
  lemma Div400Div100(y: int)
    requires y % 400 == 0
    ensures y % 100 == 0
  {
    var q := y / 400;
    assert y == 100 * (4 * q) + 0;
  }

  lemma Div100Div4(y: int)
    requires y % 100 == 0
    ensures y % 4 == 0
  {
    var q := y / 100;
    assert y == 4 * (25 * q) + 0;
  }

  /** Going from year `y` to `y + 1` adds the days of year `y`. */
  lemma YearStep(y: int)
    ensures DaysBeforeYear(y + 1) == DaysBeforeYear(y) + DaysInYear(y)
  {
    var k := y - 1;
    DivStep4(k);
    DivStep100(k);
    DivStep400(k);
    if y % 400 == 0 { Div400Div100(y); }
    if y % 100 == 0 { Div100Div4(y); }
    var extra := (if y % 4 == 0 then 1 else 0) - (if y % 100 == 0 then 1 else 0) + (if y % 400 == 0 then 1 else 0);
    assert extra == (if IsLeap(y) then 1 else 0);
    assert DaysBeforeYear(y + 1) == 365 * y + y / 4 - y / 100 + y / 400;
    assert DaysBeforeYear(y + 1) - DaysBeforeYear(y) == 365 + extra;
  }

  lemma {:induction false} DaysBeforeYearMonotone(a: int, b: int)
    requires a <= b
    ensures DaysBeforeYear(a) + 365 * (b - a) <= DaysBeforeYear(b)
    decreases b - a
  {
    if a < b {
      DaysBeforeYearMonotone(a, b - 1);
      YearStep(b - 1);
    }
  }

  lemma MonthStep(y: int, m: int)
    requires 1 <= m < 12
    ensures DaysBeforeMonth(y, m + 1) == DaysBeforeMonth(y, m) + DaysInMonth(y, m)
  {
  }

  lemma LastMonth(y: int)
    ensures DaysBeforeMonth(y, 12) + DaysInMonth(y, 12) == DaysInYear(y)
  {
  }

  lemma {:induction false} DaysBeforeMonthMonotone(y: int, a: int, b: int)
    requires 1 <= a <= b <= 12
    ensures DaysBeforeMonth(y, a) + 28 * (b - a) <= DaysBeforeMonth(y, b)
    decreases b - a
  {
    if a < b {
      DaysBeforeMonthMonotone(y, a, b - 1);
      MonthStep(y, b - 1);
    }
  }

  /** Every day of year `y` has an ordinal after the days before `y` and within the year. */
  lemma OrdinalWithinYear(d: Date)
    requires CivilValid(d)
    ensures DaysBeforeYear(d.year) < Ordinal(d) <= DaysBeforeYear(d.year + 1)
  {
    YearStep(d.year);
    LastMonth(d.year);
    DaysBeforeMonthMonotone(d.year, d.month, 12);
    if d.month < 12 {
      MonthStep(d.year, d.month);
      DaysBeforeMonthMonotone(d.year, d.month + 1, 12);
    }
  }

  /** Python's `date` ordering: by year, then month, then day. */
  predicate DateLt(a: Date, b: Date) {
    a.year < b.year || (a.year == b.year && (a.month < b.month || (a.month == b.month && a.day < b.day)))
  }

  predicate DateLe(a: Date, b: Date) {
    a == b || DateLt(a, b)
  }

  /** The calendar order and the ordinal order agree. */
  lemma OrdinalMonotone(a: Date, b: Date)
    requires CivilValid(a) && CivilValid(b) && DateLt(a, b)
    ensures Ordinal(a) < Ordinal(b)
  {
    if a.year < b.year {
      OrdinalWithinYear(a);
      OrdinalWithinYear(b);
      DaysBeforeYearMonotone(a.year + 1, b.year);
    } else if a.month < b.month {
      MonthStep(a.year, a.month);
      DaysBeforeMonthMonotone(a.year, a.month + 1, b.month);
    }
  }

  /** Comparing two real days with `<=` is comparing their ordinals. */
  lemma DateLeIffOrdinalLe(a: Date, b: Date)
    requires CivilValid(a) && CivilValid(b)
    ensures DateLe(a, b) <==> Ordinal(a) <= Ordinal(b)
  {
    if DateLt(a, b) {
      OrdinalMonotone(a, b);
    } else if DateLt(b, a) {
      OrdinalMonotone(b, a);
    }
  }

  /** Two real days with the same ordinal are the same day. */
  lemma OrdinalInjective(a: Date, b: Date)
    requires CivilValid(a) && CivilValid(b) && Ordinal(a) == Ordinal(b)
    ensures a == b
  {
    if DateLt(a, b) {
      OrdinalMonotone(a, b);
    } else if DateLt(b, a) {
      OrdinalMonotone(b, a);
    }
  }

  /** The years Python accepts are exactly the ordinals 1..MaxOrdinal. */
  lemma OrdinalRange(d: Date)
    requires CivilValid(d)
    ensures MinYear <= d.year <= MaxYear <==> 1 <= Ordinal(d) <= MaxOrdinal
  {
    OrdinalWithinYear(d);
    assert DaysBeforeYear(1) == 0;
    assert DaysBeforeYear(10000) == MaxOrdinal;
    if d.year < MinYear {
      DaysBeforeYearMonotone(d.year + 1, 1);
    } else if d.year > MaxYear {
      DaysBeforeYearMonotone(10000, d.year);
    } else {
      DaysBeforeYearMonotone(1, d.year);
      DaysBeforeYearMonotone(d.year + 1, 10000);
    }
  }

  /** The day after `d`. */
  function NextDay(d: Date): (r: Date)
    requires CivilValid(d)
    ensures CivilValid(r) && Ordinal(r) == Ordinal(d) + 1
  {
    if d.day < DaysInMonth(d.year, d.month) then
      Date(d.year, d.month, d.day + 1)
    else if d.month < 12 then
      MonthStep(d.year, d.month);
      Date(d.year, d.month + 1, 1)
    else
      YearStep(d.year);
      LastMonth(d.year);
      Date(d.year + 1, 1, 1)
  }

  /** The day before `d`. */
  function PrevDay(d: Date): (r: Date)
    requires CivilValid(d)
    ensures CivilValid(r) && Ordinal(r) == Ordinal(d) - 1
  {
    if d.day > 1 then
      Date(d.year, d.month, d.day - 1)
    else if d.month > 1 then
      MonthStep(d.year, d.month - 1);
      Date(d.year, d.month - 1, DaysInMonth(d.year, d.month - 1))
    else
      YearStep(d.year - 1);
      LastMonth(d.year - 1);
      Date(d.year - 1, 12, 31)
  }

  /** `d + timedelta(days=k)` on the unbounded calendar. */
  function AddDays(d: Date, k: int): Date
    requires CivilValid(d)
    decreases if k < 0 then -k else k
  {
    if k == 0 then d
    else if k > 0 then AddDays(NextDay(d), k - 1)
    else AddDays(PrevDay(d), k + 1)
  }

  /** Moving `k` days moves the ordinal by `k`. */
  lemma {:induction false} AddDaysOrdinal(d: Date, k: int)
    requires CivilValid(d)
    ensures CivilValid(AddDays(d, k)) && Ordinal(AddDays(d, k)) == Ordinal(d) + k
    decreases if k < 0 then -k else k
  {
    if k > 0 {
      AddDaysOrdinal(NextDay(d), k - 1);
    } else if k < 0 {
      AddDaysOrdinal(PrevDay(d), k + 1);
    }
  }

  /** Minutes since the start of day 0 of the ordinal count; seconds are not counted. */
  function MinuteStamp(dt: DateTime): int
    requires CivilValid(dt.date)
  {
    Ordinal(dt.date) * 1440 + dt.time.hour * 60 + dt.time.minute
  }

  /**
   * `datetime.combine(day, time) + timedelta(minutes=delta)`, then `.date()` and
   * `.time().replace(microsecond=0)`. Adding to an aware datetime in Python is
   * wall-clock arithmetic, so the time zone plays no part.
   */
  function ShiftMinutes(dt: DateTime, delta: int): (r: Result<DateTime, Overflow>)
    requires ValidDateTime(dt)
    ensures r.Ok? <==> 1440 <= MinuteStamp(dt) + delta < (MaxOrdinal + 1) * 1440
    ensures r.Ok? ==> ValidDateTime(r.value) && MinuteStamp(r.value) == MinuteStamp(dt) + delta
    ensures r.Ok? ==> r.value.time.second == dt.time.second && r.value.time.micro == 0
  {
    var t := dt.time.hour * 60 + dt.time.minute + delta;
    var day := AddDays(dt.date, t / 1440);
    var m := t % 1440;
    AddDaysOrdinal(dt.date, t / 1440);
    OrdinalRange(day);
    if MinYear <= day.year <= MaxYear then
      Ok(DateTime(day, TimeOfDay(m / 60, m % 60, dt.time.second, 0)))
    else
      Err(DateOutOfRange)
  }

  /** The date, hour and minute are fixed by the minute stamp, so ShiftMinutes' contract fixes its result. */
  lemma MinuteStampInjective(a: DateTime, b: DateTime)
    requires ValidDateTime(a) && ValidDateTime(b) && MinuteStamp(a) == MinuteStamp(b)
    requires a.time.second == b.time.second && a.time.micro == b.time.micro
    ensures a == b
  {
    var ma := a.time.hour * 60 + a.time.minute;
    var mb := b.time.hour * 60 + b.time.minute;
    assert Ordinal(a.date) == Ordinal(b.date);
    OrdinalInjective(a.date, b.date);
    assert ma == mb;
  }

  /** A zero shift only drops the microseconds. */
  lemma ShiftByZero(dt: DateTime)
    requires ValidDateTime(dt)
    ensures ShiftMinutes(dt, 0) == Ok(dt.(time := dt.time.(micro := 0)))
  {
    OrdinalRange(dt.date);
    var r := ShiftMinutes(dt, 0);
    MinuteStampInjective(r.value, dt.(time := dt.time.(micro := 0)));
  }

  /** Two shifts in a row are one shift by the sum, out-of-range included. */
  lemma ShiftCompose(dt: DateTime, a: int, b: int)
    requires ValidDateTime(dt) && ShiftMinutes(dt, a).Ok?
    ensures ShiftMinutes(ShiftMinutes(dt, a).value, b) == ShiftMinutes(dt, a + b)
  {
    var mid := ShiftMinutes(dt, a).value;
    var two, one := ShiftMinutes(mid, b), ShiftMinutes(dt, a + b);
    if two.Ok? {
      MinuteStampInjective(two.value, one.value);
    }
  }

  /** Stepping back by the same number of minutes restores a selection without microseconds. */
  lemma ShiftUndo(dt: DateTime, delta: int)
    requires ValidDateTime(dt) && dt.time.micro == 0 && ShiftMinutes(dt, delta).Ok?
    ensures ShiftMinutes(ShiftMinutes(dt, delta).value, -delta) == Ok(dt)
  {
    var mid := ShiftMinutes(dt, delta).value;
    ShiftCompose(dt, delta, -delta);
    assert delta + -delta == 0;
    ShiftByZero(dt);
    assert dt.(time := dt.time.(micro := 0)) == dt;
    assert ShiftMinutes(mid, -delta) == ShiftMinutes(dt, 0);
  }

  /** Microseconds since 0001-01-01 00:00 minus one day: a point on the local time line. */
  function MicroStamp(dt: DateTime): int
    requires CivilValid(dt.date)
  {
    ((Ordinal(dt.date) * 86400 + dt.time.hour * 3600 + dt.time.minute * 60 + dt.time.second) * 1000000)
      + dt.time.micro
  }

  /** Python's naive `datetime` ordering: date first, then the time fields in turn. */
  predicate DateTimeLt(a: DateTime, b: DateTime) {
    DateLt(a.date, b.date) ||
    (a.date == b.date &&
      (a.time.hour < b.time.hour ||
      (a.time.hour == b.time.hour && (a.time.minute < b.time.minute ||
      (a.time.minute == b.time.minute && (a.time.second < b.time.second ||
      (a.time.second == b.time.second && a.time.micro < b.time.micro)))))))
  }

  /** Python's lexicographic order on naive datetimes is the order of their points on the time line. */
  lemma DateTimeLtIffEarlier(a: DateTime, b: DateTime)
    requires ValidDateTime(a) && ValidDateTime(b)
    ensures DateTimeLt(a, b) <==> MicroStamp(a) < MicroStamp(b)
  {
    var da, db := Ordinal(a.date), Ordinal(b.date);
    var ta := (a.time.hour * 3600 + a.time.minute * 60 + a.time.second) * 1000000 + a.time.micro;
    var tb := (b.time.hour * 3600 + b.time.minute * 60 + b.time.second) * 1000000 + b.time.micro;
    assert 0 <= ta < 86400000000 && 0 <= tb < 86400000000;
    assert MicroStamp(a) == da * 86400000000 + ta;
    assert MicroStamp(b) == db * 86400000000 + tb;
    DateLeIffOrdinalLe(a.date, b.date);
    DateLeIffOrdinalLe(b.date, a.date);
    if a.date == b.date {
      assert DateTimeLt(a, b) <==> ta < tb;
    } else if DateLt(a.date, b.date) {
      assert da + 1 <= db;
    } else {
      assert db + 1 <= da;
    }
  }

  /** `today.replace(day=1)`. */
  function FirstOfMonth(d: Date): (r: Date)
    requires ValidDate(d)
    ensures ValidDate(r) && r.year == d.year && r.month == d.month && r.day == 1
    ensures DateLe(r, d)
  {
    Date(d.year, d.month, 1)
  }
}
