/**
  The calendar behind the charge timestamps: the proleptic Gregorian calendar with microsecond clock times, and the
  start of the next month or day.
 */
module Calendar {

  const HOUR: int := 3_600_000_000  // microseconds
  const DAY: int := 86_400_000_000

  predicate IsLeap(year: int) {
    year % 4 == 0 && (year % 100 != 0 || year % 400 == 0)
  }

  function DaysInMonth(year: int, month: int): (d: int)
    ensures 28 <= d <= 31
  {
    if month == 2 then (if IsLeap(year) then 29 else 28)
    else if month == 4 || month == 6 || month == 9 || month == 11 then 30
    else 31
  }

  /** A UTC timestamp; `clock` is the time of day. */
  datatype DateTime = DateTime(year: int, month: int, day: int, clock: int) {
    predicate Valid() {
      1 <= year && 1 <= month <= 12 && 1 <= day <= DaysInMonth(year, month) && 0 <= clock < DAY
    }

    function MonthIndex(): nat
      requires Valid()
    {
      12 * (year - 1) + month - 1
    }

    /** Microseconds since the first of January of year 1. */
    function Instant(): int
      requires Valid()
    {
      MonthStart(MonthIndex()) + (day - 1) * DAY + clock
    }
  }

  function MonthLength(index: nat): int {
    DaysInMonth(index / 12 + 1, index % 12 + 1) * DAY
  }

  function MonthStart(index: nat): int {
    if index == 0 then 0 else MonthStart(index - 1) + MonthLength(index - 1)
  }

  function StartOfNextMonth(now: DateTime, hour: int): DateTime {
    if now.month == 12 then DateTime(now.year + 1, 1, 1, hour * HOUR)
        else DateTime(now.year, now.month + 1, 1, hour * HOUR)
  }

  /** `now` plus one day. */
  function NextDay(now: DateTime): DateTime {
    if now.day < DaysInMonth(now.year, now.month) then now.(day := now.day + 1)
    else if now.month == 12 then DateTime(now.year + 1, 1, 1, now.clock)
    else DateTime(now.year, now.month + 1, 1, now.clock)
  }

  function StartOfNextDay(now: DateTime, hour: int): DateTime {
    NextDay(now).(clock := hour * HOUR)
  }

  datatype BillingPeriod = Month | Day

  function StartOfNextPeriod(period: BillingPeriod, now: DateTime, hour: int): DateTime {
    match period
    case Month => StartOfNextMonth(now, hour)
    case Day => StartOfNextDay(now, hour)
  }

  lemma MonthOfIndex(t: DateTime)
    requires t.Valid()
    ensures t.MonthIndex() / 12 == t.year - 1 && t.MonthIndex() % 12 == t.month - 1
    ensures MonthLength(t.MonthIndex()) == DaysInMonth(t.year, t.month) * DAY
  {
  }

  /** The days of a common year before each month. */
  const DAYS_BEFORE := [0, 31, 59, 90, 120, 151, 181, 212, 243, 273, 304, 334]

  /** The days before a year, in closed form. */
  function DaysBeforeYear(year: int): int {
    365 * (year - 1) + (year - 1) / 4 - (year - 1) / 100 + (year - 1) / 400
  }

  lemma {:induction false} YearStarts(year: int)
    requires 1 <= year
    ensures MonthStart(12 * (year - 1)) == DaysBeforeYear(year) * DAY
    decreases year
  {
    if year > 1 {
      YearStarts(year - 1);
      OneMoreYear(year - 1);
      LeapDays(year - 1);
    }
  }

  lemma {:induction false} OneMoreYear(year: int)
    requires 1 <= year
    ensures MonthStart(12 * year) == MonthStart(12 * (year - 1)) + (if IsLeap(year) then 366 else 365) * DAY
  {
    MonthInYear(year, 12);
    NextMonthStarts(year, 12);
  }

  lemma {:induction false} NextMonthStarts(year: int, month: int)
    requires 1 <= year && 1 <= month <= 12
    ensures MonthStart(12 * (year - 1) + month)
         == MonthStart(12 * (year - 1) + month - 1) + DaysInMonth(year, month) * DAY
  {
    MonthOfIndex(DateTime(year, month, 1, 0));
  }

  lemma LeapDays(year: int)
    requires 1 <= year
    ensures DaysBeforeYear(year + 1) == DaysBeforeYear(year) + if IsLeap(year) then 366 else 365
  {
    EveryFour(year);
    EveryHundred(year);
    EveryFourHundred(year);
    Multiples(year);
    CountLeapDays(year / 4 - (year - 1) / 4, year / 100 - (year - 1) / 100, year / 400 - (year - 1) / 400, year);
  }

  lemma CountLeapDays(four: int, hundred: int, fourHundred: int, year: int)
    requires four == if year % 4 == 0 then 1 else 0
    requires hundred == if year % 100 == 0 then 1 else 0
    requires fourHundred == if year % 400 == 0 then 1 else 0
    requires (year % 400 == 0 ==> year % 100 == 0) && (year % 100 == 0 ==> year % 4 == 0)
    ensures four - hundred + fourHundred == if IsLeap(year) then 1 else 0
  {
  }

  lemma Multiples(year: int)
    ensures (year % 400 == 0 ==> year % 100 == 0) && (year % 100 == 0 ==> year % 4 == 0)
  {
  }

  lemma EveryFour(year: int)
    ensures year / 4 == (year - 1) / 4 + if year % 4 == 0 then 1 else 0
  {
  }

  lemma EveryHundred(year: int)
    ensures year / 100 == (year - 1) / 100 + if year % 100 == 0 then 1 else 0
  {
  }

  lemma EveryFourHundred(year: int)
    ensures year / 400 == (year - 1) / 400 + if year % 400 == 0 then 1 else 0
  {
  }

  /** The days of a year before a month. */
  function DaysBeforeMonth(year: int, month: int): int
    requires 1 <= month <= 12
  {
    DAYS_BEFORE[month - 1] + if month > 2 && IsLeap(year) then 1 else 0
  }

  lemma OneMoreMonth(year: int, month: int)
    requires 1 <= month < 12
    ensures DaysBeforeMonth(year, month + 1) == DaysBeforeMonth(year, month) + DaysInMonth(year, month)
  {
  }

  lemma {:induction false} MonthInYear(year: int, month: int)
    requires 1 <= year && 1 <= month <= 12
    ensures MonthStart(12 * (year - 1) + month - 1)
         == MonthStart(12 * (year - 1)) + DaysBeforeMonth(year, month) * DAY
    decreases month
  {
    if month > 1 {
      MonthInYear(year, month - 1);
      NextMonthStarts(year, month - 1);
      OneMoreMonth(year, month - 1);
    }
  }

  /** The instant of a timestamp in closed form: the days before its year by the rule of the Gregorian calendar, the
      days before its month, and the day and the clock. */
  lemma {:induction false} InstantInClosedForm(t: DateTime)
    requires t.Valid()
    ensures var leapDay := t.month > 2 && t.year % 4 == 0 && (t.year % 100 != 0 || t.year % 400 == 0);
            t.Instant() == (DaysBeforeYear(t.year) + DAYS_BEFORE[t.month - 1] + (if leapDay then 1 else 0)
                            + t.day - 1) * 86_400_000_000 + t.clock
  {
    YearStarts(t.year);
    InstantInYear(t, DaysBeforeYear(t.year));
  }

  lemma {:induction false} InstantInYear(t: DateTime, before: int)
    requires t.Valid() && MonthStart(12 * (t.year - 1)) == before * DAY
    ensures t.Instant() == (before + DaysBeforeMonth(t.year, t.month) + t.day - 1) * DAY + t.clock
  {
    MonthInYear(t.year, t.month);
  }

  lemma {:induction false} MonthStartsIncrease(i: nat, j: nat)
    requires i < j
    ensures MonthStart(i) + MonthLength(i) <= MonthStart(j)
    decreases j
  {
    if i < j - 1 {
      MonthStartsIncrease(i, j - 1);
    }
  }

  /** A timestamp lies within its month. */
  lemma WithinItsMonth(t: DateTime)
    requires t.Valid()
    ensures MonthStart(t.MonthIndex()) <= t.Instant() < MonthStart(t.MonthIndex() + 1)
  {
    MonthOfIndex(t);
  }

  /** And no other month holds its instant. */
  lemma OnlyItsMonth(t: DateTime, index: nat)
    requires t.Valid() && MonthStart(index) <= t.Instant() < MonthStart(index + 1)
    ensures t.MonthIndex() == index
  {
    WithinItsMonth(t);
    if t.MonthIndex() < index {
      MonthStartsIncrease(t.MonthIndex(), index);
    } else if index < t.MonthIndex() {
      MonthStartsIncrease(index, t.MonthIndex());
    }
  }

  /** Timestamps with the same instant are the same timestamp. */
  lemma InstantIsInjective(s: DateTime, t: DateTime)
    requires s.Valid() && t.Valid() && s.Instant() == t.Instant()
    ensures s == t
  {
    WithinItsMonth(t);
    OnlyItsMonth(s, t.MonthIndex());
    assert (s.day - 1) * DAY + s.clock == (t.day - 1) * DAY + t.clock;
    SameMonth(s.year, s.month, t.year, t.month);
  }

  lemma SameMonth(y: int, m: int, y': int, m': int)
    requires 1 <= m <= 12 && 1 <= m' <= 12 && 12 * (y - 1) + m == 12 * (y' - 1) + m'
    ensures y == y' && m == m'
  {
  }

  /** The next month starts exactly at the end of this one. */
  lemma NextMonth(now: DateTime, hour: int)
    requires now.Valid() && 0 <= hour < 24
    ensures var next := StartOfNextMonth(now, hour);
            next.Valid() && next.MonthIndex() == now.MonthIndex() + 1 &&
                next.Instant() == MonthStart(now.MonthIndex() + 1) + hour * HOUR
  {
  }

  /** The next day starts within 24 hours, plus the hour asked for. */
  lemma NextDayStarts(now: DateTime, hour: int)
    requires now.Valid() && 0 <= hour < 24
    ensures var next := StartOfNextDay(now, hour);
            next.Valid() && next.Instant() == now.Instant() - now.clock + DAY + hour * HOUR
  {
    if now.day == DaysInMonth(now.year, now.month) {
      MonthOfIndex(now);
      NextMonth(now, hour);
      assert StartOfNextDay(now, hour) == StartOfNextMonth(now, hour);
    }
  }

  /** The next period starts strictly later, and at the hour asked for. */
  lemma NextPeriodIsLater(period: BillingPeriod, now: DateTime, hour: int)
    requires now.Valid() && 0 <= hour < 24
    ensures var next := StartOfNextPeriod(period, now, hour);
            next.Valid() && next.clock == hour * 3_600_000_000 && now.Instant() < next.Instant()
  {
    WithinItsMonth(now);
    NextMonth(now, hour);
    NextDayStarts(now, hour);
  }
}
