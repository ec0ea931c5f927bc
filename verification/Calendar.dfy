/** The proleptic Gregorian calendar that Go's `time` package uses for UTC
    times.  Days are numbered from 0001-01-01, which is day 0. */
module Calendar {
  // The calendar repeats after 400 years, which are a whole number of weeks.
  const DAYS_PER_CYCLE := 146097

  datatype Date = Date(year: int, month: int, day: int) {
    predicate Valid() {
      1 <= month <= 12 && 1 <= day <= DaysIn(year, month)
    }

    /** The date after this one: the next day of the month, the first of the
        next month, or the first of January. */
    function Successor(): Date
      requires Valid()
    {
      if day < DaysIn(year, month) then Date(year, month, day + 1)
      else if month < 12 then Date(year, month + 1, 1)
      else Date(year + 1, 1, 1)
    }
  }

  predicate IsLeap(y: int) {
    y % 4 == 0 && (y % 100 != 0 || y % 400 == 0)
  }

  function DaysIn(y: int, m: int): int
    requires 1 <= m <= 12
  {
    if m == 2 then (if IsLeap(y) then 29 else 28)
    else if m == 4 || m == 6 || m == 9 || m == 11 then 30
    else 31
  }

  /** The length of month `m` in the years where it is longest. */
  function LongestLength(m: int): int
    requires 1 <= m <= 12
  {
    DaysIn(4, m)
  }

  /** The number of days before the year `e + 1`. */
  function YearStart(e: int): int {
    365 * e + e / 4 - e / 100 + e / 400
  }

  function DaysBeforeMonth(y: int, m: int): int
    requires 1 <= m <= 13
    decreases m
  {
    if m == 1 then 0 else DaysBeforeMonth(y, m - 1) + DaysIn(y, m - 1)
  }

  function DayNumber(date: Date): int
    requires date.Valid()
  {
    YearStart(date.year - 1) + DaysBeforeMonth(date.year, date.month) + date.day - 1
  }

  function YearLength(y: int): int {
    if IsLeap(y) then 366 else 365
  }

  lemma YearStartStep(e: int)
    ensures YearStart(e + 1) == YearStart(e) + YearLength(e + 1)
  {
    Quotient4(e);
    Quotient100(e);
    Quotient400(e);
    Multiples(e + 1);
  }

  lemma Quotient4(e: int)
    ensures (e + 1) / 4 - e / 4 == if (e + 1) % 4 == 0 then 1 else 0
  {
  }

  lemma Quotient100(e: int)
    ensures (e + 1) / 100 - e / 100 == if (e + 1) % 100 == 0 then 1 else 0
  {
  }

  lemma Quotient400(e: int)
    ensures (e + 1) / 400 - e / 400 == if (e + 1) % 400 == 0 then 1 else 0
  {
  }

  lemma Multiples(f: int)
    ensures f % 100 == 0 ==> f % 4 == 0
    ensures f % 400 == 0 ==> f % 100 == 0
  {
  }

  /** The days before each month, written as a table. */
  lemma MonthTable(y: int)
    ensures var l := if IsLeap(y) then 1 else 0;
      && DaysBeforeMonth(y, 1) == 0 && DaysBeforeMonth(y, 2) == 31
      && DaysBeforeMonth(y, 3) == 59 + l && DaysBeforeMonth(y, 4) == 90 + l
      && DaysBeforeMonth(y, 5) == 120 + l && DaysBeforeMonth(y, 6) == 151 + l
      && DaysBeforeMonth(y, 7) == 181 + l && DaysBeforeMonth(y, 8) == 212 + l
      && DaysBeforeMonth(y, 9) == 243 + l && DaysBeforeMonth(y, 10) == 273 + l
      && DaysBeforeMonth(y, 11) == 304 + l && DaysBeforeMonth(y, 12) == 334 + l
      && DaysBeforeMonth(y, 13) == 365 + l
  {
    assert DaysBeforeMonth(y, 3) == DaysBeforeMonth(y, 2) + DaysIn(y, 2);
    assert DaysBeforeMonth(y, 5) == DaysBeforeMonth(y, 4) + DaysIn(y, 4);
    assert DaysBeforeMonth(y, 7) == DaysBeforeMonth(y, 6) + DaysIn(y, 6);
    assert DaysBeforeMonth(y, 9) == DaysBeforeMonth(y, 8) + DaysIn(y, 8);
    assert DaysBeforeMonth(y, 11) == DaysBeforeMonth(y, 10) + DaysIn(y, 10);
  }

  /** The number of whole years before day `n`: the day is split into 400-year
      cycles, centuries, four-year blocks and years, where the last century of a
      cycle and the last year of a block are one day longer. */
  function YearIndex(n: int): (e: int)
    ensures YearStart(e) <= n < YearStart(e + 1)
  {
    var a, b := n / DAYS_PER_CYCLE, n % DAYS_PER_CYCLE;
    var c := if b / 36524 < 4 then b / 36524 else 3;
    var b1 := b - 36524 * c;
    var q := b1 / 1461;
    var b2 := b1 - 1461 * q;
    var r := if b2 / 365 < 4 then b2 / 365 else 3;
    YearIndexCorrect(n, a, c, q, r, b2 - 365 * r);
    400 * a + 100 * c + 4 * q + r
  }

  lemma Quotients(a: int, c: int, q: int, r: int)
    requires 0 <= c <= 3 && 0 <= q <= 24 && 0 <= r <= 3
    ensures var e := 400 * a + 100 * c + 4 * q + r;
      e / 4 == 100 * a + 25 * c + q && e / 100 == 4 * a + c && e / 400 == a
  {
  }

  lemma YearIndexCorrect(n: int, a: int, c: int, q: int, r: int, yday: int)
    requires 0 <= c <= 3 && 0 <= q <= 24 && 0 <= r <= 3 && 0 <= yday <= 365
    requires n == DAYS_PER_CYCLE * a + 36524 * c + 1461 * q + 365 * r + yday
    requires yday == 365 ==> r == 3 && (q == 24 ==> c == 3)
    ensures var e := 400 * a + 100 * c + 4 * q + r; YearStart(e) <= n < YearStart(e + 1)
  {
    var e := 400 * a + 100 * c + 4 * q + r;
    Quotients(a, c, q, r);
    var start := YearStart(e);
    assert n == start + yday;
    if r < 3 {
      Quotients(a, c, q, r + 1);
    } else if q < 24 {
      Quotients(a, c, q + 1, 0);
    } else if c < 3 {
      Quotients(a, c + 1, 0, 0);
    } else {
      Quotients(a + 1, 0, 0, 0);
    }
  }

  function MonthOf(y: int, yday: int): (m: int)
    requires 0 <= yday < YearLength(y)
    ensures 1 <= m <= 12 && DaysBeforeMonth(y, m) <= yday < DaysBeforeMonth(y, m + 1)
  {
    MonthTable(y);
    MonthFrom(y, yday, 1)
  }

  function MonthFrom(y: int, yday: int, m: int): (r: int)
    requires 1 <= m <= 12 && DaysBeforeMonth(y, m) <= yday < DaysBeforeMonth(y, 13)
    ensures m <= r <= 12 && DaysBeforeMonth(y, r) <= yday < DaysBeforeMonth(y, r + 1)
    decreases 12 - m
  {
    if yday < DaysBeforeMonth(y, m + 1) then m else MonthFrom(y, yday, m + 1)
  }

  /** The date of day `n`, computed from the quotients. */
  function CivilDate(n: int): (date: Date)
    ensures date.Valid() && DayNumber(date) == n
  {
    var e := YearIndex(n);
    YearStartStep(e);
    var yday := n - YearStart(e);
    var m := MonthOf(e + 1, yday);
    Date(e + 1, m, yday - DaysBeforeMonth(e + 1, m) + 1)
  }

  lemma DateExists(n: int)
    ensures exists date: Date :: date.Valid() && DayNumber(date) == n
  {
    var date := CivilDate(n);
  }

  /** The date that has day number `n`; `CivilDate` computes it. */
  ghost function DateOf(n: int): Date {
    DateExists(n);
    var date: Date :| date.Valid() && DayNumber(date) == n;
    date
  }

  /** Sunday is 0; 0001-01-01 was a Monday. */
  function WeekdayOf(n: int): (w: int)
    ensures 0 <= w < 7
  {
    (n + 1) % 7
  }

  /** Weekdays follow each other from Monday, 1 January of year 1. */
  lemma WeekdaysFollow(n: int)
    ensures WeekdayOf(0) == 1 && WeekdayOf(n + 1) == (WeekdayOf(n) + 1) % 7
  {
  }

  lemma {:induction false} YearStartMonotone(e: int, f: int)
    requires e <= f
    ensures YearStart(e) + 365 * (f - e) <= YearStart(f)
    decreases f - e
  {
    if e < f {
      YearStartMonotone(e, f - 1);
      YearStartStep(f - 1);
    }
  }

  lemma {:induction false} MonthMonotone(y: int, m: int, k: int)
    requires 1 <= m <= k <= 13
    ensures DaysBeforeMonth(y, m) <= DaysBeforeMonth(y, k)
    decreases k - m
  {
    if m < k {
      MonthMonotone(y, m, k - 1);
    }
  }

  lemma DayNumberInYear(date: Date)
    requires date.Valid()
    ensures YearStart(date.year - 1) <= DayNumber(date) < YearStart(date.year)
  {
    YearStartStep(date.year - 1);
    MonthMonotone(date.year, 1, date.month);
    MonthMonotone(date.year, date.month + 1, 13);
    MonthTable(date.year);
  }

  lemma DayOfYearInjective(a: Date, b: Date)
    requires a.Valid() && b.Valid() && a.year == b.year
    requires DaysBeforeMonth(a.year, a.month) + a.day == DaysBeforeMonth(b.year, b.month) + b.day
    ensures a == b
  {
    if a.month < b.month {
      MonthMonotone(a.year, a.month + 1, b.month);
    } else if b.month < a.month {
      MonthMonotone(a.year, b.month + 1, a.month);
    }
  }

  lemma YearsDisjoint(e: int, f: int, n: int)
    requires YearStart(e) <= n < YearStart(e + 1)
    requires YearStart(f) <= n < YearStart(f + 1)
    ensures e == f
  {
    if e < f {
      YearStartMonotone(e + 1, f);
    } else if f < e {
      YearStartMonotone(f + 1, e);
    }
  }

  /** No two dates share a day number, so `DateOf` and `DayNumber` are inverses. */
  lemma DayNumberInjective(a: Date, b: Date)
    requires a.Valid() && b.Valid() && DayNumber(a) == DayNumber(b)
    ensures a == b
  {
    DayNumberInYear(a);
    DayNumberInYear(b);
    YearsDisjoint(a.year - 1, b.year - 1, DayNumber(a));
    DayOfYearInjective(a, b);
  }

  lemma DateUnique(n: int, date: Date)
    requires date.Valid() && DayNumber(date) == n
    ensures DateOf(n) == date
  {
    DayNumberInjective(DateOf(n), date);
  }

  lemma CivilDateCorrect(n: int)
    ensures CivilDate(n) == DateOf(n)
  {
    DateUnique(n, CivilDate(n));
  }

  lemma DateOfDayNumber(date: Date)
    requires date.Valid()
    ensures DateOf(DayNumber(date)) == date
  {
    DateUnique(DayNumber(date), date);
  }

  lemma SuccessorNumber(d: Date)
    requires d.Valid()
    ensures d.Successor().Valid() && DayNumber(d.Successor()) == DayNumber(d) + 1
  {
    if d.day < DaysIn(d.year, d.month) {
    } else if d.month < 12 {
      assert DaysBeforeMonth(d.year, d.month + 1) == DaysBeforeMonth(d.year, d.month) + DaysIn(d.year, d.month);
    } else {
      LastDayOfYear(d.year);
    }
  }

  lemma LastDayOfYear(y: int)
    ensures DayNumber(Date(y + 1, 1, 1)) == DayNumber(Date(y, 12, 31)) + 1
  {
    YearStartStep(y - 1);
    MonthTable(y);
  }

  lemma FirstDay()
    ensures DateOf(0) == Date(1, 1, 1)
  {
    assert DayNumber(Date(1, 1, 1)) == 0;
    DateOfDayNumber(Date(1, 1, 1));
  }

  /** Day by day, `DateOf` walks the calendar in order.  With `FirstDay` this
      fixes the date of every day, without mention of how `DateOf` computes it. */
  lemma DateOfSuccessor(n: int)
    ensures DateOf(n + 1) == DateOf(n).Successor()
  {
    SuccessorOf(n, DateOf(n));
  }

  lemma SuccessorOf(n: int, d: Date)
    requires d.Valid() && DayNumber(d) == n
    ensures DateOf(n + 1) == d.Successor()
  {
    SuccessorNumber(d);
    DateUnique(n + 1, d.Successor());
  }

  lemma {:induction false} MonthStartsAlike(y: int, z: int, m: int)
    requires IsLeap(y) == IsLeap(z) && 1 <= m <= 13
    ensures DaysBeforeMonth(y, m) == DaysBeforeMonth(z, m)
    decreases m
  {
    if m > 1 {
      MonthStartsAlike(y, z, m - 1);
    }
  }

  lemma YearStartPeriod(e: int)
    ensures YearStart(e + 400) == YearStart(e) + DAYS_PER_CYCLE
    ensures IsLeap(e + 400) == IsLeap(e)
  {
    assert (e + 400) / 4 == e / 4 + 100;
    assert (e + 400) / 100 == e / 100 + 4;
    assert (e + 400) / 400 == e / 400 + 1;
    LeapPeriod(e);
  }

  lemma LeapPeriod(y: int)
    ensures IsLeap(y + 400) == IsLeap(y)
  {
    RemainderPeriod4(y);
    RemainderPeriod100(y);
    RemainderPeriod400(y);
  }

  lemma RemainderPeriod4(y: int)
    ensures (y + 400) % 4 == y % 4
  {
  }

  lemma RemainderPeriod100(y: int)
    ensures (y + 400) % 100 == y % 100
  {
  }

  lemma RemainderPeriod400(y: int)
    ensures (y + 400) % 400 == y % 400
  {
  }

  /** The calendar and the weekdays repeat every 400 years. */
  lemma CalendarPeriod(n: int)
    ensures var d, p := DateOf(n), DateOf(n + DAYS_PER_CYCLE);
      && p == Date(d.year + 400, d.month, d.day)
      && WeekdayOf(n + DAYS_PER_CYCLE) == WeekdayOf(n)
  {
    var d := DateOf(n);
    var p := Date(d.year + 400, d.month, d.day);
    YearStartPeriod(d.year);
    YearStartPeriod(d.year - 1);
    MonthStartsAlike(d.year, p.year, d.month);
    assert DayNumber(p) == n + DAYS_PER_CYCLE;
    DateOfDayNumber(p);
    WeekdayPeriod(n);
  }

  lemma WeekdayPeriod(n: int)
    ensures WeekdayOf(n + DAYS_PER_CYCLE) == WeekdayOf(n)
  {
    assert n + DAYS_PER_CYCLE + 1 == (n + 1) + 7 * 20871;
  }

  /** Dates that anchor the numbering: the Unix epoch was a Thursday; 2000 had a leap day,
      on a Tuesday; 1900 had none. */
  lemma KnownDates()
    ensures DateOf(719162) == Date(1970, 1, 1) && WeekdayOf(719162) == 4
    ensures DateOf(730178) == Date(2000, 2, 29) && WeekdayOf(730178) == 2
    ensures DateOf(693653) == Date(1900, 2, 28) && DateOf(693654) == Date(1900, 3, 1)
  {
    UnixEpoch();
    LeapDay2000();
    NoLeapDay1900();
  }

  lemma UnixEpoch()
    ensures DateOf(719162) == Date(1970, 1, 1)
  {
    assert YearStart(1969) == 719162;
    DateOfDayNumber(Date(1970, 1, 1));
  }

  lemma LeapDay2000()
    ensures DateOf(730178) == Date(2000, 2, 29)
  {
    assert YearStart(1999) == 730119;
    hide YearStart;
    DateOfDayNumber(Date(2000, 2, 29));
  }

  lemma NoLeapDay1900()
    ensures DateOf(693653) == Date(1900, 2, 28) && DateOf(693654) == Date(1900, 3, 1)
  {
    assert YearStart(1899) == 693595;
    hide YearStart;
    DateOfDayNumber(Date(1900, 2, 28));
    DateOfSuccessor(693653);
    assert DaysIn(1900, 2) == 28;
  }
}
