/** When the bounded searches of the schedule agree with its unbounded meaning. */
module ScheduleLaws {
  import opened Common
  import opened Gregorian
  import opened Schedule

  /** A recurring window that `normalizeMaintenanceWindow` lets through. */
  predicate Accepted(w: Window) {
    && Configured(w)
    && Duration(w) > 0
    && (w.strategy == Weekly ==> forall d: int | d in w.recurWeekly.value.days :: 0 <= d <= 6)
    && (w.strategy == Monthly ==> forall d: int | d in w.recurMonthly.value.days :: 1 <= d <= 31)
  }

  /** Some wanted day of the month exists in every month. */
  predicate HasEarlyDay(w: Window)
    requires Configured(w) && w.strategy == Monthly
  {
    exists d: int :: d in w.recurMonthly.value.days && d <= 28
  }

  // ---------- The bounds suffice ----------

  lemma WeekdayShift(n: int, k: int, d: int)
    requires 0 <= d < 7 && (Weekday(n) + k == d || Weekday(n) + k == d + 7 || Weekday(n) + k == d - 7)
    ensures Weekday(n + k) == d
  {
    assert n + 4 == 7 * ((n + 4) / 7) + Weekday(n);
  }

  lemma WeeklyAlwaysFound(w: Window, ref: int) returns (before: int, after: int)
    requires Accepted(w) && w.strategy == Weekly
    ensures InReachBefore(w, ref, before) && InReachAfter(w, ref, after)
  {
    var today := LocalDay(ref, w.zone);
    var wanted := w.recurWeekly.value.days[0];
    assert wanted in w.recurWeekly.value.days;
    var gap := Weekday(today) - wanted;
    var back := if gap > 0 then gap else gap + 7;
    var ahead := if gap < 0 then -gap else 7 - gap;
    WeekdayShift(today, -back, wanted);
    WeekdayShift(today, ahead, wanted);
    SlotOrder(w, ref, today - back);
    SlotOrder(w, ref, today + ahead);
    assert OnDay(w, today - back) && OnDay(w, today + ahead);
    before, after := Slot(w, today - back), Slot(w, today + ahead);
  }

  lemma MonthlyFound(w: Window, ref: int) returns (before: int, after: int)
    requires Accepted(w) && w.strategy == Monthly && HasEarlyDay(w)
    ensures InReachBefore(w, ref, before) && InReachAfter(w, ref, after)
  {
    var today := LocalDay(ref, w.zone);
    var d: int :| d in w.recurMonthly.value.days && d <= 28;
    var back := DayNumberAppearsBefore(today, d);
    var ahead := DayNumberAppearsAfter(today, d);
    SlotOrder(w, ref, today - back);
    SlotOrder(w, ref, today + ahead);
    assert OnDay(w, today - back) && OnDay(w, today + ahead);
    before, after := Slot(w, today - back), Slot(w, today + ahead);
  }

  /** The first days of February and March of a year that starts like 2026, not a leap year. */
  lemma FirstOfMonths(jan: int)
    requires DateOf(jan) == Date(2026, 1, 1)
    ensures DateOf(jan + 31) == Date(2026, 2, 1) && DateOf(jan + 59) == Date(2026, 3, 1)
  {
    ForwardWithinMonth(jan, Date(2026, 1, 1), 30);
    Consecutive(jan + 30);
    ForwardWithinMonth(jan + 31, Date(2026, 2, 1), 27);
    Consecutive(jan + 58);
  }

  /** The first 90 days of 2026. */
  lemma EarlyIn2026(jan: int, k: int)
    requires DateOf(jan) == Date(2026, 1, 1) && 0 <= k < 90
    ensures DateOf(jan + k).day == if k < 31 then k + 1 else if k < 59 then k - 30 else k - 58
  {
    FirstOfMonths(jan);
    if k < 31 {
      ForwardWithinMonth(jan, Date(2026, 1, 1), k);
    } else if k < 59 {
      ForwardWithinMonth(jan + 31, Date(2026, 2, 1), k - 31);
    } else {
      ForwardWithinMonth(jan + 59, Date(2026, 3, 1), k - 59);
    }
  }

  /** Without a wanted day up to 28 there are references from which neither search finds
      anything: 28 March 2026 looking back, 1 February looking ahead. */
  lemma MonthlyNotFound(w: Window) returns (before: int, after: int)
    requires Accepted(w) && w.strategy == Monthly && !HasEarlyDay(w)
    ensures forall o: int :: !InReachBefore(w, before, o) && !InReachAfter(w, after, o)
  {
    var jan := JanuaryFirst();
    before, after := (jan + 86) * DAY - w.zone, (jan + 31) * DAY - w.zone;
    LocalDayUnique(before, w.zone, jan + 86);
    LocalDayUnique(after, w.zone, jan + 31);
    forall day: int | jan + 31 <= day < jan + 87 ensures !OnDay(w, day) {
      EarlyIn2026(jan, day - jan);
    }
    forall day: int | OnDay(w, day) ensures day < jan + 31 || jan + 87 <= day {}
    forall day: int ensures LocalDay(before, w.zone) < day ==> before < Slot(w, day) {
      SlotOrder(w, before, day);
    }
    forall day: int ensures day < LocalDay(after, w.zone) ==> Slot(w, day) <= after {
      SlotOrder(w, after, day);
    }
  }

  lemma JanuaryFirst() returns (jan: int)
    ensures DateOf(jan) == Date(2026, 1, 1)
  {
    var c := Date(2026, 1, 1);
    jan := DayNumber(c);
    DateOfDayNumber(c);
  }

  ghost predicate FoundBefore(w: Window, ref: int)
    requires Configured(w) && Anchored(w)
  {
    exists o: int :: InReachBefore(w, ref, o)
  }

  ghost predicate FoundAfter(w: Window, ref: int)
    requires Configured(w) && Anchored(w)
  {
    exists o: int :: InReachAfter(w, ref, o)
  }

  /** 32 day steps always find a monthly occurrence, on either side, exactly when some wanted
      day is at most 28. */
  lemma MonthlySearchBound(w: Window)
    requires Accepted(w) && w.strategy == Monthly
    ensures (forall ref: int :: FoundBefore(w, ref)) <==> HasEarlyDay(w)
    ensures (forall ref: int :: FoundAfter(w, ref)) <==> HasEarlyDay(w)
  {
    if HasEarlyDay(w) {
      forall ref: int ensures FoundBefore(w, ref) && FoundAfter(w, ref) {
        var before, after := MonthlyFound(w, ref);
      }
    } else {
      var before, after := MonthlyNotFound(w);
      assert !FoundBefore(w, before) && !FoundAfter(w, after);
    }
  }

  /** For an anchored interval the backward search finds something exactly from the anchor
      slot on, and the forward search always does. */
  lemma IntervalSearchBound(w: Window, ref: int)
    requires Configured(w) && w.strategy == Interval && Anchored(w)
    ensures FoundBefore(w, ref) <==> Slot(w, LocalDay(w.createdAt.value, w.zone)) <= ref
    ensures FoundAfter(w, ref)
  {
    var a := LocalDay(w.createdAt.value, w.zone);
    var period := w.recurInterval.value.everyDays;
    MultipleIsAligned(0, period);
    assert OnDay(w, a);
    if Slot(w, a) <= ref {
      assert InReachBefore(w, ref, Slot(w, a));
    }
    var from := LocalDay(ref, w.zone) + 1;
    var d := NextAligned(a, period, if from < a then a else from);
    SlotOrder(w, ref, d);
    assert OnDay(w, d) && InReachAfter(w, ref, Slot(w, d));
  }

  // ---------- Activity means coverage ----------

  lemma SearchIsSound(w: Window, t: int)
    requires Configured(w) && Anchored(w) && SearchCovers(w, t)
    ensures Covered(w, t)
  {
    var o: int :| InReachBefore(w, t, o) && t < o + Duration(w);
    assert Occurs(w, o);
  }

  /** For interval and weekly windows the search decides coverage over all of time. */
  lemma ActivityIsCoverage(w: Window, t: int)
    requires Accepted(w) && Anchored(w) && w.strategy != Monthly
    ensures SearchCovers(w, t) <==> Covered(w, t)
  {
    if SearchCovers(w, t) { SearchIsSound(w, t); }
    if Covered(w, t) {
      var o: int :| Occurs(w, o) && o <= t < o + Duration(w);
      if w.strategy == Weekly {
        var before, after := WeeklyAlwaysFound(w, t);
        LaterOccurrenceCovers(w, t, o, before);
      } else {
        assert InReachBefore(w, t, o);
      }
    }
  }

  /** If one occurrence covers `t` and another one starts before `t` within reach, then some
      occurrence within reach covers `t`. */
  lemma LaterOccurrenceCovers(w: Window, t: int, o: int, reached: int)
    requires Configured(w) && Anchored(w)
    requires Occurs(w, o) && o <= t < o + Duration(w) && InReachBefore(w, t, reached)
    ensures SearchCovers(w, t)
  {
    if reached < o {
      var day: int :| OnDay(w, day) && reached == Slot(w, day) && reached <= t
        && (w.strategy != Interval ==> LocalDay(t, w.zone) - Reach(w) <= day);
      assert InReachBefore(w, t, o);
    }
  }

  /** For a monthly window the search decides coverage at every instant exactly when some
      wanted day is at most 28, or no occurrence reaches past the 32nd day from its own. */
  lemma MonthlyActivityIsCoverage(w: Window)
    requires Accepted(w) && w.strategy == Monthly
    ensures (forall t: int :: SearchCovers(w, t) <==> Covered(w, t)) <==>
            (HasEarlyDay(w) || Offset(w) + Duration(w) <= 32 * DAY)
  {
    if HasEarlyDay(w) || Offset(w) + Duration(w) <= 32 * DAY {
      forall t: int ensures SearchCovers(w, t) <==> Covered(w, t) {
        MonthlyCoverageAt(w, t);
      }
    } else {
      var t := MonthlyGap(w);
      assert !(SearchCovers(w, t) <==> Covered(w, t));
    }
  }

  lemma MonthlyCoverageAt(w: Window, t: int)
    requires Accepted(w) && w.strategy == Monthly
    requires HasEarlyDay(w) || Offset(w) + Duration(w) <= 32 * DAY
    ensures SearchCovers(w, t) <==> Covered(w, t)
  {
    if SearchCovers(w, t) { SearchIsSound(w, t); }
    if Covered(w, t) {
      var o: int :| Occurs(w, o) && o <= t < o + Duration(w);
      if HasEarlyDay(w) {
        var before, after := MonthlyFound(w, t);
        LaterOccurrenceCovers(w, t, o, before);
      } else {
        DayBounds(t, w.zone);
        assert InReachBefore(w, t, o);
      }
    }
  }

  /** The gap: from the last wanted day of January 2026 a long occurrence is still running
      32 days later, but February offers no day and the search has stopped looking. */
  lemma MonthlyGap(w: Window) returns (t: int)
    requires Accepted(w) && w.strategy == Monthly && !HasEarlyDay(w)
    requires Offset(w) + Duration(w) > 32 * DAY
    ensures Covered(w, t) && !SearchCovers(w, t)
  {
    var jan := JanuaryFirst();
    var last := LastWanted(w.recurMonthly.value.days);
    var day := jan + last - 1;
    EarlyIn2026(jan, last - 1);
    assert OnDay(w, day);
    t := (day + 32) * DAY - w.zone;
    LocalDayUnique(t, w.zone, day + 32);
    assert Occurs(w, Slot(w, day));
    forall d: int | day < d <= day + 32 ensures !OnDay(w, d) {
      EarlyIn2026(jan, d - jan);
    }
    forall d: int ensures LocalDay(t, w.zone) < d ==> t < Slot(w, d) {
      SlotOrder(w, t, d);
    }
  }

  lemma {:induction false} LastWanted(days: seq<int>) returns (last: int)
    requires days != []
    ensures last in days && forall d: int | d in days :: d <= last
  {
    last := days[0];
    if |days| > 1 {
      var rest := LastWanted(days[1..]);
      last := if rest < last then last else rest;
      assert forall d: int | d in days :: d == days[0] || d in days[1..];
    }
  }

  // ---------- Bracketing ----------

  /** Asked at the start that the forward search found, the backward search returns that
      very start. */
  lemma NextIsMostRecentAtItself(w: Window, ref: int, next: int, r: Option<int>)
    requires Configured(w) && Anchored(w)
    requires IsEarliestAfter(w, ref, next)
    requires r.Some? ==> IsLatest(w, next, r.value)
    requires r.None? ==> forall o: int :: !InReachBefore(w, next, o)
    ensures r == Some(next)
  {
    var day: int :| OnDay(w, day) && next == Slot(w, day);
    LocalDayUnique(next, w.zone, day);
    assert InReachBefore(w, next, next);
  }

  /** No occurrence lies strictly between the two searches' answers. */
  lemma NothingBetween(w: Window, ref: int, last: int, next: int, o: int)
    requires Configured(w) && Anchored(w)
    requires IsLatest(w, ref, last) && IsEarliestAfter(w, ref, next) && Occurs(w, o)
    ensures o <= last || next <= o
  {}

  // ---------- The whole of it ----------

  /** An accepted recurring window is active exactly if it is switched on, the instant lies in its
      effective range, and some occurrence, over all of time, covers the instant; for a monthly
      window under the condition of `MonthlyActivityIsCoverage`. */
  lemma ActiveIffCovered(w: Window, t: int)
    requires Accepted(w) && Anchored(w)
    requires w.strategy == Monthly ==> HasEarlyDay(w) || Offset(w) + Duration(w) <= 32 * DAY
    ensures ActiveAt(w, t) <==>
            w.active && WithinEffectiveRange(w.effectiveFrom, w.effectiveTo, t) && Covered(w, t)
  {
    if w.strategy == Monthly {
      MonthlyCoverageAt(w, t);
    } else {
      ActivityIsCoverage(w, t);
    }
  }

  // ---------- On the calendar and the clock ----------

  function TimeOfDayOf(w: Window): Option<TimeOfDay> {
    match w.strategy
    case Interval => if w.recurInterval.Some? then Some(w.recurInterval.value.timeOfDay) else None
    case Weekly => if w.recurWeekly.Some? then Some(w.recurWeekly.value.timeOfDay) else None
    case Monthly => if w.recurMonthly.Some? then Some(w.recurMonthly.value.timeOfDay) else None
    case _ => None
  }

  function MinutesOf(w: Window): int
    requires TimeOfDayOf(w).Some?
  {
    match w.strategy
    case Interval => w.recurInterval.value.durationMinutes
    case Weekly => w.recurWeekly.value.durationMinutes
    case Monthly => w.recurMonthly.value.durationMinutes
  }

  /** What is accepted, field by field. */
  lemma AcceptedMeans(w: Window)
    ensures Accepted(w) <==>
            && TimeOfDayOf(w).Some?
            && 0 <= TimeOfDayOf(w).value.hour < 24 && 0 <= TimeOfDayOf(w).value.minute < 60
            && 0 < MinutesOf(w)
            && (w.strategy == Interval ==> w.recurInterval.value.everyDays > 0)
            && (w.strategy == Weekly ==>
                  w.recurWeekly.value.days != [] && forall d: int | d in w.recurWeekly.value.days :: 0 <= d < 7)
            && (w.strategy == Monthly ==>
                  w.recurMonthly.value.days != [] && forall d: int | d in w.recurMonthly.value.days :: 0 < d < 32)
  {
  }

  /** The instant at which the window's time of day comes on a date, in nanoseconds. */
  function StartOn(w: Window, c: Date): int
    requires Gregorian.Valid(c) && TimeOfDayOf(w).Some?
  {
    DayNumber(c) * 86_400_000_000_000 + TimeOfDayOf(w).value.hour * 3_600_000_000_000
    + TimeOfDayOf(w).value.minute * 60_000_000_000 - w.zone
  }

  /** The schedule names the date: by its weekday, its day of the month, or its distance from the
      local day of creation. */
  predicate Names(w: Window, c: Date)
    requires Gregorian.Valid(c) && Accepted(w) && Anchored(w)
  {
    NamesDay(w, c.day, WeekdayRule(c), DayNumber(c))
  }

  predicate NamesDay(w: Window, dayOfMonth: int, weekday: int, number: int)
    requires Accepted(w) && Anchored(w)
  {
    match w.strategy
    case Interval =>
      var created := (w.createdAt.value + w.zone) / 86_400_000_000_000;
      created <= number && (number - created) % w.recurInterval.value.everyDays == 0
    case Weekly => weekday in w.recurWeekly.value.days
    case Monthly => dayOfMonth in w.recurMonthly.value.days
  }

  lemma NamedByNumber(w: Window, n: int)
    requires Accepted(w) && Anchored(w)
    ensures NamesDay(w, DateOf(n).day, Weekday(n), n) <==> OnDay(w, n)
  {}

  lemma StartIsSlot(w: Window, c: Date)
    requires Gregorian.Valid(c) && Accepted(w)
    ensures StartOn(w, c) == Slot(w, DayNumber(c))
  {}

  lemma NamedIsOnDay(w: Window, c: Date)
    requires Gregorian.Valid(c) && Accepted(w) && Anchored(w)
    ensures Names(w, c) <==> OnDay(w, DayNumber(c))
    ensures StartOn(w, c) == Slot(w, DayNumber(c))
  {
    DateOfDayNumber(c);
    WeekdayOfDate(c);
    NamedByNumber(w, DayNumber(c));
    StartIsSlot(w, c);
  }

  /** An occurrence is a date that the schedule names, at the window's time of day. */
  lemma OccursMeans(w: Window, o: int)
    requires Accepted(w) && Anchored(w)
    ensures Occurs(w, o) <==> exists c: Date :: Gregorian.Valid(c) && Names(w, c) && StartOn(w, c) == o
  {
    if Occurs(w, o) {
      var day: int :| OnDay(w, day) && o == Slot(w, day);
      DayNumberOfDate(day);
      NamedIsOnDay(w, DateOf(day));
    }
    if c: Date :| Gregorian.Valid(c) && Names(w, c) && StartOn(w, c) == o {
      NamedIsOnDay(w, c);
    }
  }

  /** The instant falls within an occurrence that starts on the date. */
  predicate CoveredFrom(w: Window, c: Date, t: int)
    requires Gregorian.Valid(c) && Accepted(w)
  {
    StartOn(w, c) <= t < StartOn(w, c) + MinutesOf(w) * 60_000_000_000
  }

  /** An accepted recurring window is active exactly if it is switched on, the instant is not before
      the start and before the end of its effective range, and it falls within the duration of an
      occurrence on a date that the schedule names. */
  lemma ActiveOnTheCalendar(w: Window, t: int)
    requires Accepted(w) && Anchored(w)
    requires w.strategy == Monthly ==> HasEarlyDay(w) || Offset(w) + Duration(w) <= 32 * DAY
    ensures ActiveAt(w, t) <==>
            && w.active
            && (w.effectiveFrom.Some? ==> w.effectiveFrom.value <= t)
            && (w.effectiveTo.Some? ==> t < w.effectiveTo.value)
            && exists c: Date :: Gregorian.Valid(c) && Names(w, c) && CoveredFrom(w, c, t)
  {
    ActiveIffCovered(w, t);
    if Covered(w, t) {
      var o: int :| Occurs(w, o) && o <= t < o + Duration(w);
      OccursMeans(w, o);
      var c: Date :| Gregorian.Valid(c) && Names(w, c) && StartOn(w, c) == o;
      assert CoveredFrom(w, c, t);
    }
    if c: Date :| Gregorian.Valid(c) && Names(w, c) && CoveredFrom(w, c, t) {
      OccursMeans(w, StartOn(w, c));
    }
  }
}
