/** The proleptic Gregorian calendar, as Go's time package computes it.

    A day is an integer, counted from 1 January 1970.  `DateOf` reads the calendar by
    stepping one day at a time; `DayNumber` is the closed formula.  The two are proved to
    be inverse to each other, so that day arithmetic on dates is integer arithmetic. */
module Gregorian {

  datatype Date = Date(year: int, month: int, day: int)

  predicate IsLeap(y: int) {
    y % 4 == 0 && (y % 100 != 0 || y % 400 == 0)
  }

  function DaysIn(y: int, m: int): (n: int)
    ensures 28 <= n <= 31
  {
    if m == 2 then (if IsLeap(y) then 29 else 28)
    else if m == 4 || m == 6 || m == 9 || m == 11 then 30
    else 31
  }

  predicate Valid(c: Date) {
    1 <= c.month <= 12 && 1 <= c.day <= DaysIn(c.year, c.month)
  }

  function Next(c: Date): Date {
    if c.day < DaysIn(c.year, c.month) then c.(day := c.day + 1)
    else if c.month < 12 then Date(c.year, c.month + 1, 1)
    else Date(c.year + 1, 1, 1)
  }

  function Prev(c: Date): Date {
    if 1 < c.day then c.(day := c.day - 1)
    else if 1 < c.month then Date(c.year, c.month - 1, DaysIn(c.year, c.month - 1))
    else Date(c.year - 1, 12, 31)
  }

  const EPOCH := Date(1970, 1, 1)

  /** The calendar date of day number `n`. */
  function DateOf(n: int): (c: Date)
    ensures Valid(c)
    decreases if n < 0 then -n else n
  {
    if n == 0 then EPOCH
    else if n > 0 then Next(DateOf(n - 1))
    else Prev(DateOf(n + 1))
  }

  function DaysBeforeYear(y: int): int {
    365 * (y - 1) + (y - 1) / 4 - (y - 1) / 100 + (y - 1) / 400
  }

  const DAYS_BEFORE := [0, 31, 59, 90, 120, 151, 181, 212, 243, 273, 304, 334]

  function DaysBeforeMonth(y: int, m: int): int
    requires 1 <= m <= 12
  {
    DAYS_BEFORE[m - 1] + (if m > 2 && IsLeap(y) then 1 else 0)
  }

  /** The closed formula for the day number of a date. */
  function DayNumber(c: Date): int
    requires Valid(c)
  {
    DaysBeforeYear(c.year) + DaysBeforeMonth(c.year, c.month) + c.day - 1 - 719162
  }

  /** 0 = Sunday, as in Go; 1 January 1970 was a Thursday. */
  function Weekday(n: int): (w: int)
    ensures 0 <= w < 7
  {
    (n + 4) % 7
  }

  /** Day numbers and weekdays agree on one date, and go on together from day to day. */
  lemma WeekdayCycle(n: int)
    ensures Weekday(DayNumber(Date(1970, 1, 1))) == 4
    ensures Weekday(n + 1) == (Weekday(n) + 1) % 7
  {}

  const MONTH_SHIFT := [0, 3, 2, 5, 0, 3, 5, 1, 4, 6, 2, 4]

  /** The weekday of a date by the rule for mental arithmetic: years end with February, every year
      shifts the weekday by one and every leap year by one more. */
  function WeekdayRule(c: Date): int
    requires Valid(c)
  {
    var y := if c.month < 3 then c.year - 1 else c.year;
    (y + y / 4 - y / 100 + y / 400 + MONTH_SHIFT[c.month - 1] + c.day) % 7
  }

  lemma SameWeekday(a: int, b: int, k: int)
    requires a == b + 7 * k
    ensures a % 7 == b % 7
  {}

  lemma LeapShift(y: int)
    ensures y / 4 - y / 100 + y / 400 == (y - 1) / 4 - (y - 1) / 100 + (y - 1) / 400 + if IsLeap(y) then 1 else 0
  {
    QuotientStep(y, 4);
    QuotientStep(y, 100);
    QuotientStep(y, 400);
    Multiples(y);
  }

  /** The weekday of a day number is the weekday of its date, for every valid date. */
  lemma WeekdayOfDate(c: Date)
    requires Valid(c)
    ensures Weekday(DayNumber(c)) == WeekdayRule(c)
  {
    LeapShift(c.year);
    var y := c.year - 1;
    var leaps := y / 4 - y / 100 + y / 400;
    var late := if c.month >= 3 then 1 else 0;
    var leap := if c.month >= 3 && IsLeap(c.year) then 1 else 0;
    var rule := y + late + leaps + leap + MONTH_SHIFT[c.month - 1] + c.day;
    var days := DAYS_BEFORE[c.month - 1];
    var k := (days - late - MONTH_SHIFT[c.month - 1]) / 7;
    assert days - late - MONTH_SHIFT[c.month - 1] == 7 * k;
    assert DayNumber(c) + 4 == rule + 7 * (52 * y + k - 102737);
    SameWeekday(DayNumber(c) + 4, rule, 52 * y + k - 102737);
  }

  lemma YearLength(y: int)
    ensures DaysBeforeYear(y + 1) == DaysBeforeYear(y) + (if IsLeap(y) then 366 else 365)
  {
    QuotientStep(y, 4);
    QuotientStep(y, 100);
    QuotientStep(y, 400);
    Multiples(y);
    assert (y + 1) - 1 == y;
  }

  lemma Multiples(y: int)
    ensures y % 400 == 0 ==> y % 100 == 0
    ensures y % 100 == 0 ==> y % 4 == 0
  {
    if y % 400 == 0 {
      assert y == 100 * (4 * (y / 400));
      MultipleOf(4 * (y / 400), 100);
    }
    if y % 100 == 0 {
      assert y == 4 * (25 * (y / 100));
      MultipleOf(25 * (y / 100), 4);
    }
  }

  lemma MultipleOf(q: int, k: int)
    requires k == 4 || k == 100
    ensures (k * q) % k == 0
  {}

  lemma QuotientStep(y: int, k: int)
    requires k == 4 || k == 100 || k == 400
    ensures y / k == (y - 1) / k + (if y % k == 0 then 1 else 0)
  {}

  lemma NextAddsOne(c: Date)
    requires Valid(c)
    ensures Valid(Next(c)) && DayNumber(Next(c)) == DayNumber(c) + 1 && Prev(Next(c)) == c
  {
    YearLength(c.year);
  }

  lemma PrevSubtractsOne(c: Date)
    requires Valid(c)
    ensures Valid(Prev(c)) && DayNumber(Prev(c)) == DayNumber(c) - 1 && Next(Prev(c)) == c
  {
    YearLength(c.year - 1);
  }

  /** Consecutive day numbers are consecutive calendar dates, before and after the epoch. */
  lemma Consecutive(n: int)
    ensures DateOf(n + 1) == Next(DateOf(n)) && DateOf(n - 1) == Prev(DateOf(n))
  {
    if n < 0 {
      PrevSubtractsOne(DateOf(n + 1));
    } else if n > 0 {
      NextAddsOne(DateOf(n - 1));
    }
  }

  lemma NumberAfter(n: int)
    requires n > 0 && DayNumber(DateOf(n - 1)) == n - 1
    ensures DayNumber(DateOf(n)) == n
  {
    NextAddsOne(DateOf(n - 1));
  }

  lemma NumberBefore(n: int)
    requires n < 0 && DayNumber(DateOf(n + 1)) == n + 1
    ensures DayNumber(DateOf(n)) == n
  {
    PrevSubtractsOne(DateOf(n + 1));
  }

  lemma EpochIsZero()
    ensures DayNumber(DateOf(0)) == 0
  {}

  /** Reading the calendar and then applying the formula gives the day number back. */
  lemma {:induction false} DayNumberOfDate(n: int)
    ensures DayNumber(DateOf(n)) == n
    decreases if n < 0 then -n else n
  {
    if n > 0 {
      DayNumberOfDate(n - 1);
      NumberAfter(n);
    } else if n < 0 {
      DayNumberOfDate(n + 1);
      NumberBefore(n);
    } else {
      EpochIsZero();
    }
  }

  lemma YearOfZero(c: Date)
    requires Valid(c) && DayNumber(c) == 0
    ensures c.year == 1970
  {
    var y := c.year - 1;
    var leaps := y / 4 - y / 100 + y / 400;
    assert 400 * leaps <= 97 * y + 400 && 97 * y - 800 <= 400 * leaps;
  }

  lemma MonthAhead(y: int, m: int)
    requires 1 <= m <= 12
    ensures if m == 1 then DaysBeforeMonth(y, m) == 0 else DaysBeforeMonth(y, m) >= 31
  {}

  lemma ZeroIsEpoch(c: Date)
    requires Valid(c) && DayNumber(c) == 0
    ensures c == EPOCH
  {
    YearOfZero(c);
    assert DaysBeforeYear(1970) == 719162;
    MonthAhead(1970, c.month);
  }

  /** Applying the formula and then reading the calendar gives the date back. */
  lemma {:induction false} DateOfDayNumber(c: Date)
    requires Valid(c)
    ensures DateOf(DayNumber(c)) == c
    decreases if DayNumber(c) < 0 then -DayNumber(c) else DayNumber(c)
  {
    if DayNumber(c) == 0 {
      ZeroIsEpoch(c);
    } else if DayNumber(c) > 0 {
      PrevSubtractsOne(c);
      DateOfDayNumber(Prev(c));
    } else {
      NextAddsOne(c);
      DateOfDayNumber(Next(c));
    }
  }

  lemma DayBefore(n: int, c: Date)
    requires DateOf(n) == c && c.day > 1
    ensures DateOf(n - 1) == Date(c.year, c.month, c.day - 1)
  {
    Consecutive(n);
  }

  lemma DayAfter(n: int, c: Date)
    requires DateOf(n) == c && c.day < DaysIn(c.year, c.month)
    ensures DateOf(n + 1) == Date(c.year, c.month, c.day + 1)
  {
    Consecutive(n);
  }

  lemma {:induction false} BackWithinMonth(n: int, c: Date, k: nat)
    requires DateOf(n) == c && k < c.day
    ensures DateOf(n - k) == Date(c.year, c.month, c.day - k)
    decreases k
  {
    if k > 0 {
      DayBefore(n, c);
      BackWithinMonth(n - 1, Date(c.year, c.month, c.day - 1), k - 1);
    }
  }

  lemma {:induction false} ForwardWithinMonth(n: int, c: Date, k: nat)
    requires DateOf(n) == c && c.day + k <= DaysIn(c.year, c.month)
    ensures DateOf(n + k) == Date(c.year, c.month, c.day + k)
    decreases k
  {
    if k > 0 {
      DayAfter(n, c);
      ForwardWithinMonth(n + 1, Date(c.year, c.month, c.day + 1), k - 1);
    }
  }

  lemma LastMonthEnds(n: int, c: Date) returns (last: Date)
    requires DateOf(n) == c
    ensures last == DateOf(n - c.day) && Valid(last) && last.day == DaysIn(last.year, last.month)
  {
    BackWithinMonth(n, c, c.day - 1);
    Consecutive(n - (c.day - 1));
    last := DateOf(n - c.day);
  }

  lemma NextMonthStarts(n: int, c: Date) returns (first: Date)
    requires DateOf(n) == c
    ensures first == DateOf(n + DaysIn(c.year, c.month) - c.day + 1) && Valid(first) && first.day == 1
  {
    var rest := DaysIn(c.year, c.month) - c.day;
    ForwardWithinMonth(n, c, rest);
    Consecutive(n + rest);
    first := DateOf(n + rest + 1);
  }

  /** The 31 days before `n` contain every day number up to 28. */
  lemma DayNumberAppearsBefore(n: int, d: int) returns (k: nat)
    requires 1 <= d <= 28
    ensures 1 <= k <= 31 && DateOf(n - k).day == d
  {
    var c := DateOf(n);
    if d < c.day {
      k := c.day - d;
      BackWithinMonth(n, c, k);
    } else {
      var last := LastMonthEnds(n, c);
      BackWithinMonth(n - c.day, last, last.day - d);
      k := c.day + last.day - d;
    }
  }

  /** The 31 days after `n` contain every day number up to 28. */
  lemma DayNumberAppearsAfter(n: int, d: int) returns (k: nat)
    requires 1 <= d <= 28
    ensures 1 <= k <= 31 && DateOf(n + k).day == d
  {
    var c := DateOf(n);
    if c.day < d {
      k := d - c.day;
      ForwardWithinMonth(n, c, k);
    } else {
      var first := NextMonthStarts(n, c);
      k := DaysIn(c.year, c.month) - c.day + d;
      ForwardWithinMonth(n + k - d + 1, first, d - 1);
    }
  }
}
