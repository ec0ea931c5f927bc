/** Cron schedules and the minute-by-minute search for the next match. */
module Cron {
  import opened Calendar

  /** Nanoseconds since Go's zero time, 0001-01-01T00:00:00Z; the zero time is 0. */
  type Instant = int

  const MINUTE: int := 60_000_000_000
  const HOUR: int := 60 * MINUTE
  const MINUTES_PER_DAY: int := 1440
  const DAY: int := 24 * HOUR

  // No two consecutive firings are further apart than this: 40 years that
  // contain a century year without a 29 February.
  const LONGEST_GAP_DAYS: int := 14609

  /** A parsed schedule.  Minutes, hours, days, months and weekdays must all match. */
  datatype CronSchedule = CronSchedule(
    minute: set<int>, hour: set<int>, day: set<int>, month: set<int>, weekday: set<int>)
  {
    /** Whether the schedule matches on the day with this number. */
    ghost predicate MatchesDay(n: int) {
      var date := DateOf(n);
      date.day in day && date.month in month && WeekdayOf(n) in weekday
    }

    predicate MatchesTimeOfDay(s: int) {
      s % 60 in minute && s / 60 in hour
    }

    /** Whether the schedule matches minute number `m`. */
    ghost predicate Matches(m: int) {
      MatchesTimeOfDay(m % MINUTES_PER_DAY) && MatchesDay(m / MINUTES_PER_DAY)
    }

    ghost predicate HasTimeOfDay(s: int) {
      0 <= s < MINUTES_PER_DAY && MatchesTimeOfDay(s)
    }

    ghost predicate HasDate(m: int, d: int) {
      m in month && d in day && 1 <= m <= 12 && 1 <= d <= LongestLength(m)
    }

    /** Some time of day, some weekday and some date of the calendar match,
        each on its own. */
    ghost predicate Possible() {
      && (exists s :: HasTimeOfDay(s))
      && (exists w :: w in weekday && 0 <= w < 7)
      && (exists m, d :: HasDate(m, d))
    }
  }

  /** The minute with these fields matches if and only if each field is in its set. */
  lemma MatchesByFields(c: CronSchedule, d: Date, h: int, mi: int)
    requires d.Valid() && 0 <= h < 24 && 0 <= mi < 60
    ensures c.Matches(1440 * DayNumber(d) + 60 * h + mi)
            <==> && mi in c.minute && h in c.hour && d.day in c.day && d.month in c.month
                 && WeekdayOf(DayNumber(d)) in c.weekday
  {
    var n, s := DayNumber(d), 60 * h + mi;
    DateOfDayNumber(d);
    assert (1440 * n + s) / 1440 == n && (1440 * n + s) % 1440 == s;
    assert s / 60 == h && s % 60 == mi;
  }

  /** The minute of an instant that is given in nanoseconds by its fields: days of 24
      hours, hours of 60 minutes and minutes of 60 seconds. */
  lemma MinuteOfInstant(n: int, h: int, mi: int, ns: int)
    requires 0 <= h < 24 && 0 <= mi < 60 && 0 <= ns < 60_000_000_000
    ensures (86_400_000_000_000 * n + 3_600_000_000_000 * h + 60_000_000_000 * mi + ns) / MINUTE == 1440 * n + 60 * h + mi
  {
    var m := 1440 * n + 60 * h + mi;
    assert 86_400_000_000_000 * n + 3_600_000_000_000 * h + 60_000_000_000 * mi + ns == MINUTE * m + ns;
    MinutePart(m, ns);
  }

  lemma MinutePart(m: int, ns: int)
    requires 0 <= ns < MINUTE
    ensures (MINUTE * m + ns) / MINUTE == m
  {
  }

  // ---------------------------------------------------------------------------
  // Weekdays over the years

  predicate IsCenturyException(p: int) {
    p % 25 == 0 && p % 100 != 0
  }

  lemma LeapYears(p: int)
    ensures IsLeap(4 * p) <==> !IsCenturyException(p)
    ensures !IsLeap(4 * p + 1) && !IsLeap(4 * p + 2) && !IsLeap(4 * p + 3)
  {
    Remainder(4 * p, 4, p, 0);
    Remainder(4 * p + 1, 4, p, 1);
    Remainder(4 * p + 2, 4, p, 2);
    Remainder(4 * p + 3, 4, p, 3);
    Remainder(4 * p, 100, p / 25, 4 * (p % 25));
    Remainder(4 * p, 400, p / 100, 4 * (p % 100));
  }

  lemma Remainder(x: int, d: int, q: int, r: int)
    requires d == 4 || d == 100 || d == 400
    requires 0 <= r < d && x == d * q + r
    ensures x % d == r
  {
    if d == 4 {
      assert x % 4 == r;
    } else if d == 100 {
      assert x % 100 == r;
    } else {
      assert x % 400 == r;
    }
  }

  /** The starts of the years 4p to 4p+3 and 4p+4, relative to the first. */
  lemma FourYears(p: int)
    ensures YearStart(4 * p + 1) == YearStart(4 * p) + 365
    ensures YearStart(4 * p + 2) == YearStart(4 * p) + 730
    ensures YearStart(4 * p + 3) == YearStart(4 * p) + 1095
    ensures YearStart(4 * p + 4) == YearStart(4 * p) + 1461 - (if IsCenturyException(p + 1) then 1 else 0)
  {
    LeapYears(p);
    LeapYears(p + 1);
    YearStartStep(4 * p);
    YearStartStep(4 * p + 1);
    YearStartStep(4 * p + 2);
    YearStartStep(4 * p + 3);
  }

  lemma ExceptionsAreRare(p: int, q: int)
    requires p < q < p + 25
    ensures !(IsCenturyException(p) && IsCenturyException(q))
  {
  }

  lemma PickYear(z: int, l1: int, l2: int, r: int) returns (i: int)
    requires 0 <= l1 <= 1 && 0 <= l2 <= 1 && 0 <= r < 7
    ensures 0 <= i < 12
    ensures (z + (if i < 4 then i else if i < 8 then i + l1 else i + l1 + l2)) % 7 == r
  {
    var t := (r - z) % 7;
    i := if t < 4 then t else if l1 == 0 then t
         else if t >= 5 then t - 1
         else 10 - l2;
    assert (z + t) % 7 == r;
  }

  lemma WholeWeeks(z: int, weeks: int)
    ensures (z + 7 * weeks) % 7 == z % 7
  {
  }

  lemma YearInBlock(p: int, e: int)
    requires 4 * p <= e < 4 * p + 4
    ensures YearStart(e) == YearStart(4 * p) + 365 * (e - 4 * p)
  {
    FourYears(p);
  }

  lemma BlockStart(p: int, q: int)
    requires q == p + 1
    ensures YearStart(4 * q) == YearStart(4 * p) + 1461 - (if IsCenturyException(q) then 1 else 0)
  {
    FourYears(p);
  }

  lemma SecondBlock(p: int, e: int)
    requires 4 * p + 4 <= e < 4 * p + 8
    ensures YearStart(e) == YearStart(4 * p) + 365 * (e - 4 * p) + (if IsCenturyException(p + 1) then 0 else 1)
  {
    BlockStart(p, p + 1);
    YearInBlock(p + 1, e);
  }

  lemma ThirdBlock(p: int, e: int)
    requires 4 * p + 8 <= e < 4 * p + 12
    ensures YearStart(e) == YearStart(4 * p) + 365 * (e - 4 * p)
                            + (if IsCenturyException(p + 1) then 0 else 1)
                            + (if IsCenturyException(p + 2) then 0 else 1)
  {
    BlockStart(p, p + 1);
    SecondBlock(p + 1, e);
  }

  lemma TwelveYears(p: int, l1: int, l2: int, i: int)
    requires l1 == (if IsCenturyException(p + 1) then 0 else 1)
    requires l2 == (if IsCenturyException(p + 2) then 0 else 1)
    requires 0 <= i < 12
    ensures YearStart(4 * p + i) == YearStart(4 * p) + 364 * i
                                    + (if i < 4 then i else if i < 8 then i + l1 else i + l1 + l2)
  {
    if i < 4 {
      YearInBlock(p, 4 * p + i);
    } else if i < 8 {
      SecondBlock(p, 4 * p + i);
    } else {
      ThirdBlock(p, 4 * p + i);
    }
  }

  /** Twelve consecutive years starting in a year divisible by four start on
      every weekday. */
  lemma YearStartingOn(p: int, r: int) returns (e: int)
    requires 0 <= r < 7
    ensures 4 * p <= e < 4 * p + 12 && YearStart(e) % 7 == r
  {
    var z := YearStart(4 * p);
    var l1 := if IsCenturyException(p + 1) then 0 else 1;
    var l2 := if IsCenturyException(p + 2) then 0 else 1;
    var i := PickYear(z, l1, l2, r);
    e := 4 * p + i;
    TwelveYears(p, l1, l2, i);
    var shift := if i < 4 then i else if i < 8 then i + l1 else i + l1 + l2;
    WholeWeeks(z + shift, 52 * i);
  }

  /** The first of March relative to the start of a year is the same in every
      year, so dates are counted from the year that starts nearest. */
  function DateOffset(m: int, d: int): int
    requires 1 <= m <= 12
  {
    DaysBeforeMonth(1, m) + d - 1 - (if m <= 2 then 0 else 365)
  }

  lemma DayNumberFrom(y: int, m: int, d: int)
    requires Date(y, m, d).Valid()
    ensures DayNumber(Date(y, m, d)) == YearStart(if m <= 2 then y - 1 else y) + DateOffset(m, d)
    ensures -306 <= DateOffset(m, d) <= 59
  {
    MonthTable(y);
    MonthTable(1);
    YearStartStep(y - 1);
  }

  lemma WeekdayFrom(start: int, offset: int, w: int)
    requires 0 <= w < 7 && start % 7 == (w - offset - 1) % 7
    ensures WeekdayOf(start + offset) == w
  {
  }

  /** Every date that exists in all years falls on every weekday within 16 years. */
  lemma OrdinaryDate(m: int, d: int, w: int, n: int) returns (k: int)
    requires 1 <= m <= 12 && 1 <= d <= DaysIn(1, m) && 0 <= w < 7
    ensures n < k <= n + LONGEST_GAP_DAYS
    ensures WeekdayOf(k) == w && DateOf(k).month == m && DateOf(k).day == d
  {
    var e0 := YearIndex(n);
    var p := (e0 + 5) / 4;
    var e := YearStartingOn(p, (w - DateOffset(m, d) - 1) % 7);
    var date := Date(if m <= 2 then e + 1 else e, m, d);
    DayNumberFrom(date.year, m, d);
    k := DayNumber(date);
    DateOfDayNumber(date);
    WeekdayFrom(YearStart(e), DateOffset(m, d), w);
    YearStartMonotone(e0 + 1, e - 1);
    YearStartStep(e - 1);
    SixteenYears(e0, e);
  }

  lemma {:induction false} YearsAreShort(e: int, f: int)
    requires e <= f
    ensures YearStart(f) <= YearStart(e) + 366 * (f - e)
    decreases f - e
  {
    if e < f {
      YearsAreShort(e, f - 1);
      YearStartStep(f - 1);
    }
  }

  lemma SixteenYears(e: int, f: int)
    requires e <= f <= e + 16
    ensures YearStart(f) <= YearStart(e) + 366 * 16
  {
    YearsAreShort(e, f);
  }

  // ---------------------------------------------------------------------------
  // The 29th of February

  /** The start of the year 4p, which has a leap day unless it is a century exception. */
  function LeapStart(p: int): int {
    YearStart(4 * p - 1)
  }

  lemma LeapStartStep(p: int)
    ensures LeapStart(p + 1) == LeapStart(p) + 1461 - (if IsCenturyException(p) then 1 else 0)
  {
    FourYears(p);
    FourYears(p - 1);
    assert 4 * p - 1 == 4 * (p - 1) + 3 && 4 * (p + 1) - 1 == 4 * p + 3;
  }

  lemma {:induction false} LeapStartRegular(p: int, k: nat)
    requires forall j {:trigger IsCenturyException(j)} :: p <= j < p + k ==> !IsCenturyException(j)
    ensures LeapStart(p + k) == LeapStart(p) + 1461 * k
    decreases k
  {
    if k > 0 {
      LeapStartRegular(p, k - 1);
      LeapStartStep(p + k - 1);
    }
  }

  lemma LeapStartAcross(p: int, x: nat, k: nat)
    requires IsCenturyException(p + x) && x < k <= 24
    ensures LeapStart(p + k) == LeapStart(p) + 1461 * k - 1
  {
    forall j {:trigger IsCenturyException(j)} | p <= j < p + k && j != p + x
      ensures !IsCenturyException(j)
    {
      if j < p + x { ExceptionsAreRare(j, p + x); } else { ExceptionsAreRare(p + x, j); }
    }
    LeapStartRegular(p, x);
    LeapStartStep(p + x);
    LeapStartRegular(p + x + 1, k - x - 1);
  }

  /** Four years shift the weekday by five and a missing leap day by minus one.
      Whatever the place of the missing leap day, ten steps reach every weekday. */
  lemma PickLeapStep(x: int, t: int) returns (k: int)
    requires 1 <= x <= 7 && 0 <= t < 7
    ensures 1 <= k <= 10 && k != x
    ensures (5 * k - (if k > x then 1 else 0)) % 7 == t
  {
    // 5 * 3 == 1 modulo 7
    var before := if t == 0 then 7 else 3 * t % 7;
    var after := if t == 6 then 7 else 3 * (t + 1) % 7;
    k := if before < x then before else if after > x then after else after + 7;
  }

  lemma PickRegularStep(t: int) returns (k: int)
    requires 0 <= t < 7
    ensures 1 <= k <= 7 && (5 * k) % 7 == t
  {
    k := if t == 0 then 7 else 3 * t % 7;
  }

  lemma ShiftedWeekday(start: int, k: int, c: int, t: int)
    requires (5 * k - c) % 7 == t
    ensures (start + 1461 * k - c) % 7 == (start + t) % 7
  {
    assert start + 1461 * k - c == start + (5 * k - c) + 7 * (208 * k);
  }

  lemma OnlyException(p: int, x: int, q: int)
    requires IsCenturyException(p + x) && 0 <= x <= 10 && p <= q <= p + 10 && q != p + x
    ensures !IsCenturyException(q)
  {
    if q < p + x { ExceptionsAreRare(q, p + x); } else { ExceptionsAreRare(p + x, q); }
  }

  lemma StepsAcross(p: int, x: int, r: int) returns (k: int)
    requires 0 <= r < 7 && 1 <= x <= 7 && IsCenturyException(p + x)
    ensures 1 <= k <= 10 && !IsCenturyException(p + k) && LeapStart(p + k) % 7 == r
    ensures LeapStart(p) < LeapStart(p + k) <= LeapStart(p) + LONGEST_GAP_DAYS
  {
    var start := LeapStart(p);
    var t := (r - start) % 7;
    k := PickLeapStep(x, t);
    OnlyException(p, x, p + k);
    if k > x {
      LeapStartAcross(p, x, k);
      ShiftedWeekday(start, k, 1, t);
    } else {
      forall j {:trigger IsCenturyException(j)} | p <= j < p + k
        ensures !IsCenturyException(j)
      {
        OnlyException(p, x, j);
      }
      LeapStartRegular(p, k);
      ShiftedWeekday(start, k, 0, t);
    }
    WantedWeekday(start, t, r);
  }

  lemma WantedWeekday(start: int, t: int, r: int)
    requires t == (r - start) % 7 && 0 <= r < 7
    ensures (start + t) % 7 == r
  {
  }

  lemma StepsAfter(p: int, r: int) returns (k: int)
    requires 0 <= r < 7 && IsCenturyException(p)
    ensures 1 <= k <= 10 && !IsCenturyException(p + k) && LeapStart(p + k) % 7 == r
    ensures LeapStart(p) < LeapStart(p + k) <= LeapStart(p) + LONGEST_GAP_DAYS
  {
    var start := LeapStart(p) - 1;
    var t := (r - start) % 7;
    k := PickRegularStep(t);
    OnlyException(p, 0, p + k);
    LeapStartAcross(p, 0, k);
    ShiftedWeekday(start, k, 0, t);
    WantedWeekday(start, t, r);
  }

  lemma StepsRegular(p: int, r: int) returns (k: int)
    requires 0 <= r < 7
    requires forall j {:trigger IsCenturyException(j)} :: p <= j <= p + 7 ==> !IsCenturyException(j)
    ensures 1 <= k <= 10 && !IsCenturyException(p + k) && LeapStart(p + k) % 7 == r
    ensures LeapStart(p) < LeapStart(p + k) <= LeapStart(p) + LONGEST_GAP_DAYS
  {
    var start := LeapStart(p);
    var t := (r - start) % 7;
    k := PickRegularStep(t);
    LeapStartRegular(p, k);
    ShiftedWeekday(start, k, 0, t);
    WantedWeekday(start, t, r);
  }

  /** How many steps of four years lead from the year 4p to the next leap day
      on the wanted weekday. */
  lemma StepsToLeapDay(p: int, r: int) returns (k: int)
    requires 0 <= r < 7
    ensures 1 <= k <= 10 && !IsCenturyException(p + k) && LeapStart(p + k) % 7 == r
    ensures LeapStart(p) < LeapStart(p + k) <= LeapStart(p) + LONGEST_GAP_DAYS
  {
    if IsCenturyException(p) {
      k := StepsAfter(p, r);
    } else if q {:trigger IsCenturyException(q)} :| p < q <= p + 7 && IsCenturyException(q) {
      k := StepsAcross(p, q - p, r);
    } else {
      k := StepsRegular(p, r);
    }
  }

  /** The last year 4p whose 60th day is not after day `n`. */
  lemma FindLeapBlock(n: int) returns (p: int)
    ensures LeapStart(p) + 59 <= n < LeapStart(p + 1) + 59
  {
    var e := YearIndex(n - 59);
    p := (e + 1) / 4;
    YearStartMonotone(4 * p - 1, e);
    YearStartMonotone(e + 1, 4 * p + 3);
  }

  lemma LeapDay(w: int, n: int) returns (k: int)
    requires 0 <= w < 7
    ensures n < k <= n + LONGEST_GAP_DAYS
    ensures WeekdayOf(k) == w && DateOf(k).month == 2 && DateOf(k).day == 29
  {
    var p := FindLeapBlock(n);
    var i := StepsToLeapDay(p, (w - 60) % 7);
    var y := 4 * (p + i);
    LeapYears(p + i);
    var date := Date(y, 2, 29);
    DayNumberFrom(y, 2, 29);
    assert DateOffset(2, 29) == 59;
    k := DayNumber(date);
    DateOfDayNumber(date);
    assert k == LeapStart(p + i) + 59;
    WeekdayFrom(LeapStart(p + i), 59, w);
    LeapStartIncreasing(p + 1, p + i);
  }

  lemma LeapStartIncreasing(p: int, q: int)
    requires p <= q
    ensures LeapStart(p) <= LeapStart(q)
  {
    YearStartMonotone(4 * p - 1, 4 * q - 1);
  }

  // ---------------------------------------------------------------------------
  // The next match

  /** After every day there is a matching day at most 40 years later. */
  lemma MatchingDayAfter(c: CronSchedule, n: int) returns (k: int)
    requires c.Possible()
    ensures n < k <= n + LONGEST_GAP_DAYS && c.MatchesDay(k)
  {
    var w :| w in c.weekday && 0 <= w < 7;
    var m, d :| c.HasDate(m, d);
    if m == 2 && d == 29 {
      k := LeapDay(w, n);
    } else {
      k := OrdinaryDate(m, d, w, n);
    }
  }

  lemma MinuteOnDay(c: CronSchedule, n: int, s: int)
    requires c.MatchesDay(n) && c.HasTimeOfDay(s)
    ensures c.Matches(MINUTES_PER_DAY * n + s)
  {
    var m := MINUTES_PER_DAY * n + s;
    assert m / MINUTES_PER_DAY == n && m % MINUTES_PER_DAY == s;
  }

  lemma SplitMinute(m: int)
    ensures m == MINUTES_PER_DAY * (m / MINUTES_PER_DAY) + m % MINUTES_PER_DAY
    ensures 0 <= m % MINUTES_PER_DAY < MINUTES_PER_DAY
  {
  }

  lemma MatchingMinuteAfter(c: CronSchedule, m: int) returns (r: int)
    requires c.Possible()
    ensures m < r <= m + LONGEST_GAP_DAYS * MINUTES_PER_DAY && c.Matches(r)
  {
    hide CronSchedule.Matches, CronSchedule.MatchesDay;
    var n, now := m / MINUTES_PER_DAY, m % MINUTES_PER_DAY;
    SplitMinute(m);
    var s :| c.HasTimeOfDay(s);
    if !c.MatchesDay(n) {
      var k := MatchingDayAfter(c, n - 1);
      MinuteOnDay(c, k, s);
      r := MINUTES_PER_DAY * k + s;
    } else if later :| c.HasTimeOfDay(later) && later > now {
      MinuteOnDay(c, n, later);
      r := MINUTES_PER_DAY * n + later;
    } else {
      var k := MatchingDayAfter(c, n);
      MinuteOnDay(c, k, s);
      r := MINUTES_PER_DAY * k + s;
    }
  }

  /** `r` is the first matching minute after minute `m`. */
  ghost predicate IsNext(c: CronSchedule, m: int, r: int) {
    m < r && c.Matches(r) && forall j :: m < j < r ==> !c.Matches(j)
  }

  lemma {:induction false} LeastMatch(c: CronSchedule, m: int, bound: int) returns (r: int)
    requires m < bound && c.Matches(bound)
    ensures r <= bound && IsNext(c, m, r)
    decreases bound - m
  {
    if j :| m < j < bound && c.Matches(j) {
      r := LeastMatch(c, m, j);
    } else {
      r := bound;
    }
  }

  lemma NextExists(c: CronSchedule, m: int)
    requires c.Possible()
    ensures exists r :: IsNext(c, m, r) && r <= m + LONGEST_GAP_DAYS * MINUTES_PER_DAY
  {
    var bound := MatchingMinuteAfter(c, m);
    var r := LeastMatch(c, m, bound);
  }

  ghost function NextMinute(c: CronSchedule, m: int): (r: int)
    requires c.Possible()
    ensures IsNext(c, m, r) && r <= m + LONGEST_GAP_DAYS * MINUTES_PER_DAY
  {
    NextExists(c, m);
    var r :| IsNext(c, m, r) && r <= m + LONGEST_GAP_DAYS * MINUTES_PER_DAY;
    r
  }

  /** The instant that the search returns. */
  ghost function NextTime(c: CronSchedule, after: Instant): (t: Instant)
    requires c.Possible()
    ensures after < t
  {
    MINUTE * NextMinute(c, after / MINUTE)
  }

  lemma WholeMinute(u: Instant, k: int)
    requires u == MINUTE * k
    ensures u % MINUTE == 0 && u / MINUTE == k
  {
  }

  lemma MinuteBetween(a: Instant, u: Instant, r: int)
    requires a < u < MINUTE * r && u % MINUTE == 0
    ensures a / MINUTE < u / MINUTE < r
  {
  }

  lemma MinuteAfter(a: Instant, r: int)
    requires a / MINUTE < r <= a / MINUTE + LONGEST_GAP_DAYS * MINUTES_PER_DAY
    ensures a < MINUTE * r <= a + LONGEST_GAP_DAYS * DAY
  {
  }

  /** The loop test: every field of the time at minute `m` is in its set. */
  method FieldsMatch(c: CronSchedule, m: int) returns (b: bool)
    ensures b <==> c.Matches(m)
  {
    var s := m % MINUTES_PER_DAY;
    var date := CivilDate(m / MINUTES_PER_DAY);
    CivilDateCorrect(m / MINUTES_PER_DAY);
    b := s % 60 in c.minute && s / 60 in c.hour && date.day in c.day && date.month in c.month
      && WeekdayOf(m / MINUTES_PER_DAY) in c.weekday;
  }

  /** Step minute by minute until all five sets match.  The result is the least
      whole minute strictly after `after` that matches. */
  method Next(c: CronSchedule, after: Instant) returns (t: Instant)
    requires c.Possible()
    ensures t == NextTime(c, after)
    ensures after < t <= after + LONGEST_GAP_DAYS * DAY
    ensures t % MINUTE == 0 && c.Matches(t / MINUTE)
    ensures forall u :: after < u < t && u % MINUTE == 0 ==> !c.Matches(u / MINUTE)
  {
    hide CronSchedule.Matches;
    ghost var r := NextMinute(c, after / MINUTE);
    ghost var k := after / MINUTE + 1;
    t := (after + MINUTE) / MINUTE * MINUTE;
    WholeMinute(t, k);
    while true
      invariant t == MINUTE * k && after / MINUTE < k <= r
      decreases r - k
    {
      WholeMinute(t, k);
      var found := FieldsMatch(c, t / MINUTE);
      if found {
        MinuteAfter(after, r);
        forall u | after < u < t && u % MINUTE == 0
          ensures !c.Matches(u / MINUTE)
        {
          MinuteBetween(after, u, r);
        }
        return;
      }
      t := t + MINUTE;
      k := k + 1;
    }
  }

  /** The outcome of the loop test in round `k` of a search started at `after`. */
  ghost predicate SucceedsInRound(c: CronSchedule, after: Instant, k: nat) {
    c.Matches(after / MINUTE + 1 + k)
  }

  /** Whether the search returns: the loop test succeeds in some round. */
  ghost predicate Halts(c: CronSchedule, after: Instant) {
    exists k: nat :: SucceedsInRound(c, after, k)
  }

  /** The search returns if and only if the schedule is possible, whatever its start. */
  lemma HaltsIffPossible(c: CronSchedule, after: Instant)
    ensures Halts(c, after) <==> c.Possible()
  {
    if c.Possible() {
      var r := NextMinute(c, after / MINUTE);
      assert SucceedsInRound(c, after, r - after / MINUTE - 1);
    }
    if Halts(c, after) {
      var k: nat :| SucceedsInRound(c, after, k);
      var m := after / MINUTE + 1 + k;
      var n := m / MINUTES_PER_DAY;
      var date := DateOf(n);
      SplitMinute(m);
      assert c.HasTimeOfDay(m % MINUTES_PER_DAY);
      assert c.HasDate(date.month, date.day);
      assert WeekdayOf(n) in c.weekday;
    }
  }

  lemma NextUnique(c: CronSchedule, m: int, r: int)
    requires c.Possible() && IsNext(c, m, r)
    ensures NextMinute(c, m) == r
  {
    var q := NextMinute(c, m);
    assert !(q < r) && !(r < q);
  }

  lemma NextMonotone(c: CronSchedule, a: Instant, b: Instant)
    requires c.Possible() && a <= b
    ensures NextTime(c, a) <= NextTime(c, b)
  {
    var p, q := NextMinute(c, a / MINUTE), NextMinute(c, b / MINUTE);
    assert a / MINUTE <= b / MINUTE;
    assert !(q < p);
  }

  lemma MatchesPeriod(c: CronSchedule, m: int)
    ensures c.Matches(m + DAYS_PER_CYCLE * MINUTES_PER_DAY) <==> c.Matches(m)
  {
    var p := m + DAYS_PER_CYCLE * MINUTES_PER_DAY;
    assert p / MINUTES_PER_DAY == m / MINUTES_PER_DAY + DAYS_PER_CYCLE;
    assert p % MINUTES_PER_DAY == m % MINUTES_PER_DAY;
    CalendarPeriod(m / MINUTES_PER_DAY);
  }

  /** Starting 400 years later gives the answer 400 years later. */
  lemma NextPeriodic(c: CronSchedule, after: Instant)
    requires c.Possible()
    ensures NextTime(c, after + DAYS_PER_CYCLE * DAY) == NextTime(c, after) + DAYS_PER_CYCLE * DAY
  {
    var cycle := DAYS_PER_CYCLE * MINUTES_PER_DAY;
    var m := after / MINUTE;
    assert (after + DAYS_PER_CYCLE * DAY) / MINUTE == m + cycle;
    var r := NextMinute(c, m);
    MatchesPeriod(c, r);
    forall j | m + cycle < j < r + cycle
      ensures !c.Matches(j)
    {
      MatchesPeriod(c, j - cycle);
    }
    NextUnique(c, m + cycle, r + cycle);
  }

  /** The k-th firing after `after`, each found from the one before. */
  ghost function Firing(c: CronSchedule, after: Instant, k: nat): (t: Instant)
    requires c.Possible()
    ensures t >= after
  {
    if k == 0 then after else NextTime(c, Firing(c, after, k - 1))
  }

  /** Iterating the search finds every matching minute: each one is a firing. */
  lemma {:induction false} FiringsAreComplete(c: CronSchedule, after: Instant, t: Instant) returns (k: nat)
    requires c.Possible() && after < t && t % MINUTE == 0 && c.Matches(t / MINUTE)
    ensures k > 0 && Firing(c, after, k) == t
    decreases t - after
  {
    var first := NextTime(c, after);
    assert first <= t;
    if first == t {
      k := 1;
      assert Firing(c, after, 1) == NextTime(c, Firing(c, after, 0));
    } else {
      var i := FiringsAreComplete(c, first, t);
      FiringShift(c, after, i);
      k := i + 1;
    }
  }

  lemma {:induction false} FiringShift(c: CronSchedule, after: Instant, k: nat)
    requires c.Possible()
    ensures Firing(c, NextTime(c, after), k) == Firing(c, after, k + 1)
  {
    if k == 0 {
      assert Firing(c, after, 1) == NextTime(c, Firing(c, after, 0));
    } else {
      FiringShift(c, after, k - 1);
    }
  }

  // ---------------------------------------------------------------------------
  // The bound is reached

  // Midnight on a 29 February that is a Sunday.
  const LEAP_SUNDAYS := CronSchedule({0}, {0}, {29}, {2}, {0})

  lemma LeapDayWeekday(p: int)
    ensures DateOf(LeapStart(p) + 59) == Date(4 * p, 2, 29) || IsCenturyException(p)
  {
    if !IsCenturyException(p) {
      LeapYears(p);
      DayNumberFrom(4 * p, 2, 29);
      DateOfDayNumber(Date(4 * p, 2, 29));
    }
  }

  lemma LeapSundayDays(n: int) returns (p: int)
    requires LEAP_SUNDAYS.MatchesDay(n)
    ensures !IsCenturyException(p) && n == LeapStart(p) + 59 && (LeapStart(p) + 60) % 7 == 0
  {
    var date := DateOf(n);
    DayNumberFrom(date.year, 2, 29);
    assert IsLeap(date.year);
    p := date.year / 4;
    LeapYears(p);
  }

  lemma LeapSundaysInBetween(p: int)
    requires 470 < p < 480
    ensures IsCenturyException(p) || (LeapStart(p) + 60) % 7 != 0
  {
  }

  // 29 February 1880 and 29 February 1920.
  const FIRST_SUNDAY: int := 686349
  const LAST_SUNDAY: int := FIRST_SUNDAY + LONGEST_GAP_DAYS

  lemma SundayNumbers()
    ensures LeapStart(470) + 59 == FIRST_SUNDAY && LeapStart(480) + 59 == LAST_SUNDAY
  {
  }

  lemma NoLeapSundayBetween(n: int)
    requires FIRST_SUNDAY < n < LAST_SUNDAY
    ensures !LEAP_SUNDAYS.MatchesDay(n)
  {
    if LEAP_SUNDAYS.MatchesDay(n) {
      var p := LeapSundayDays(n);
      SundayNumbers();
      if p <= 470 {
        LeapStartIncreasing(p, 470);
      } else if p >= 480 {
        LeapStartIncreasing(480, p);
      } else {
        LeapSundaysInBetween(p);
      }
    }
  }

  lemma LeapSundaysPossible()
    ensures LEAP_SUNDAYS.Possible() && LEAP_SUNDAYS.HasTimeOfDay(0)
  {
    assert LEAP_SUNDAYS.HasTimeOfDay(0);
    assert LEAP_SUNDAYS.HasDate(2, 29);
    assert 0 in LEAP_SUNDAYS.weekday;
  }

  lemma LastSundayMatches()
    ensures LEAP_SUNDAYS.MatchesDay(LAST_SUNDAY)
  {
    SundayNumbers();
    LeapDayWeekday(480);
    assert WeekdayOf(LAST_SUNDAY) == 0;
  }

  lemma LongestGapInMinutes()
    ensures LEAP_SUNDAYS.Possible()
    ensures IsNext(LEAP_SUNDAYS, MINUTES_PER_DAY * FIRST_SUNDAY, MINUTES_PER_DAY * LAST_SUNDAY)
  {
    LeapSundaysPossible();
    LastSundayMatches();
    MinuteOnDay(LEAP_SUNDAYS, LAST_SUNDAY, 0);
    forall j | MINUTES_PER_DAY * FIRST_SUNDAY < j < MINUTES_PER_DAY * LAST_SUNDAY
      ensures !LEAP_SUNDAYS.Matches(j)
    {
      SplitMinute(j);
      if j / MINUTES_PER_DAY > FIRST_SUNDAY {
        NoLeapSundayBetween(j / MINUTES_PER_DAY);
      } else {
        assert 0 < j % MINUTES_PER_DAY;
      }
    }
  }

  /** From 29 February 1880 the next Sunday on a 29 February is in 1920. */
  lemma LongestGapIsReached()
    ensures LEAP_SUNDAYS.Possible()
    ensures NextTime(LEAP_SUNDAYS, FIRST_SUNDAY * DAY) == FIRST_SUNDAY * DAY + LONGEST_GAP_DAYS * DAY
  {
    LongestGapInMinutes();
    NextUnique(LEAP_SUNDAYS, MINUTES_PER_DAY * FIRST_SUNDAY, MINUTES_PER_DAY * LAST_SUNDAY);
    WholeMinute(FIRST_SUNDAY * DAY, MINUTES_PER_DAY * FIRST_SUNDAY);
  }
}
