/** Maintenance windows and the search for their occurrences
    (internal/config/maintenance_schedule.go), in a zone with a fixed offset from UTC.

    An instant is a number of nanoseconds since the Unix epoch. */
module Schedule {
  import opened Common
  import opened Gregorian

  datatype Strategy = Manual | Single | Interval | Weekly | Monthly

  datatype OnStart = AllowFinish | ForceCancel

  datatype TimeOfDay = TimeOfDay(hour: int, minute: int)

  datatype SingleConfig = SingleConfig(start: int, end: int)

  datatype IntervalConfig = IntervalConfig(everyDays: int, timeOfDay: TimeOfDay, durationMinutes: int)

  /** Weekly and monthly windows differ only in what the numbers in `days` mean. */
  datatype DaysConfig = DaysConfig(days: seq<int>, timeOfDay: TimeOfDay, durationMinutes: int)

  datatype Window = Window(
    id: string,
    title: string,
    active: bool,
    jobIDs: seq<string>,
    dockerHostIDs: seq<string>,
    strategy: Strategy,
    onStart: OnStart,
    single: Option<SingleConfig>,
    recurInterval: Option<IntervalConfig>,
    recurWeekly: Option<DaysConfig>,
    recurMonthly: Option<DaysConfig>,
    zone: int,
    effectiveFrom: Option<int>,
    effectiveTo: Option<int>,
    createdAt: Option<int>)

  datatype Occurrence = Occurrence(start: int, duration: int)

  // ---------- Go's time package, for a zone `zone` nanoseconds ahead of UTC ----------

  function LocalDay(t: int, zone: int): int {
    (t + zone) / DAY
  }

  function AddDays(t: int, k: int): int {
    t + k * DAY
  }

  function LocalDate(t: int, zone: int): Date {
    DateOf(LocalDay(t, zone))
  }

  /** The instant of a wall-clock time on a date. */
  function TimeOn(c: Date, tod: TimeOfDay, zone: int): int
    requires Gregorian.Valid(c)
  {
    DayNumber(c) * DAY + (tod.hour * 60 + tod.minute) * MINUTE - zone
  }

  function DaysBetweenDates(a: Date, b: Date): int
    requires Gregorian.Valid(a) && Gregorian.Valid(b)
  {
    DayNumber(b) - DayNumber(a)
  }

  /** What `parseTimeOfDay` accepts. */
  predicate ParsesTimeOfDay(tod: TimeOfDay) {
    0 <= tod.hour <= 23 && 0 <= tod.minute <= 59
  }

  predicate WithinEffectiveRange(from: Option<int>, to: Option<int>, ref: int) {
    (from.Some? ==> from.value <= ref) && (to.Some? ==> ref < to.value)
  }

  // ---------- What the schedule means ----------

  /** The window has the sub-configuration its recurring strategy needs. */
  predicate Configured(w: Window) {
    match w.strategy
    case Interval =>
      && w.recurInterval.Some?
      && w.recurInterval.value.everyDays >= 1
      && ParsesTimeOfDay(w.recurInterval.value.timeOfDay)
    case Weekly =>
      && w.recurWeekly.Some?
      && w.recurWeekly.value.days != []
      && ParsesTimeOfDay(w.recurWeekly.value.timeOfDay)
    case Monthly =>
      && w.recurMonthly.Some?
      && w.recurMonthly.value.days != []
      && ParsesTimeOfDay(w.recurMonthly.value.timeOfDay)
    case _ => false
  }

  function ConfiguredTime(w: Window): (tod: TimeOfDay)
    requires Configured(w)
    ensures ParsesTimeOfDay(tod)
  {
    match w.strategy
    case Interval => w.recurInterval.value.timeOfDay
    case Weekly => w.recurWeekly.value.timeOfDay
    case Monthly => w.recurMonthly.value.timeOfDay
  }

  function Duration(w: Window): int
    requires Configured(w)
  {
    match w.strategy
    case Interval => w.recurInterval.value.durationMinutes * MINUTE
    case Weekly => w.recurWeekly.value.durationMinutes * MINUTE
    case Monthly => w.recurMonthly.value.durationMinutes * MINUTE
  }

  /** Offset of an occurrence from local midnight. */
  function Offset(w: Window): (o: int)
    requires Configured(w)
    ensures 0 <= o < DAY
  {
    (ConfiguredTime(w).hour * 60 + ConfiguredTime(w).minute) * MINUTE
  }

  /** The instant at which an occurrence on local day `day` starts. */
  function Slot(w: Window, day: int): int
    requires Configured(w)
  {
    day * DAY + Offset(w) - w.zone
  }

  /** An interval window counts its days from its creation day. */
  predicate Anchored(w: Window) {
    w.strategy == Interval ==> w.createdAt.Some?
  }

  predicate Aligned(anchor: int, period: int, day: int)
    requires period >= 1
  {
    (day - anchor) % period == 0
  }

  /** The schedule puts an occurrence on local day `day`. */
  predicate OnDay(w: Window, day: int)
    requires Configured(w) && Anchored(w)
  {
    match w.strategy
    case Interval =>
      var anchor := LocalDay(w.createdAt.value, w.zone);
      anchor <= day && Aligned(anchor, w.recurInterval.value.everyDays, day)
    case Weekly => Weekday(day) in w.recurWeekly.value.days
    case Monthly => DateOf(day).day in w.recurMonthly.value.days
  }

  /** `o` is the start of an occurrence: the unbounded meaning of the schedule. */
  ghost predicate Occurs(w: Window, o: int)
    requires Configured(w) && Anchored(w)
  {
    exists day: int :: OnDay(w, day) && o == Slot(w, day)
  }

  /** `o` is the latest of all occurrences that start at or before `ref`. */
  ghost predicate IsLatest(w: Window, ref: int, o: int)
    requires Configured(w) && Anchored(w)
  {
    Occurs(w, o) && o <= ref && forall x: int | Occurs(w, x) && x <= ref :: x <= o
  }

  /** `o` is the earliest of all occurrences that start after `ref`. */
  ghost predicate IsEarliestAfter(w: Window, ref: int, o: int)
    requires Configured(w) && Anchored(w)
  {
    Occurs(w, o) && ref < o && forall x: int | Occurs(w, x) && ref < x :: o <= x
  }

  /** How many days the backward and forward searches look past the day of `ref`:
      7 for weekly, 31 for monthly windows. */
  function Reach(w: Window): int {
    if w.strategy == Weekly then 7 else 31
  }

  /** A weekly or monthly search looks only at the days within `Reach` of the reference. */
  ghost predicate InReachBefore(w: Window, ref: int, o: int)
    requires Configured(w) && Anchored(w)
  {
    exists day: int :: OnDay(w, day) && o == Slot(w, day) && o <= ref
      && (w.strategy != Interval ==> LocalDay(ref, w.zone) - Reach(w) <= day)
  }

  ghost predicate InReachAfter(w: Window, ref: int, o: int)
    requires Configured(w) && Anchored(w)
  {
    exists day: int :: OnDay(w, day) && o == Slot(w, day) && ref < o
      && (w.strategy != Interval ==> day <= LocalDay(ref, w.zone) + Reach(w))
  }

  // ---------- Day arithmetic ----------

  lemma DayBounds(t: int, zone: int)
    ensures LocalDay(t, zone) * DAY <= t + zone < (LocalDay(t, zone) + 1) * DAY
  {}

  lemma LocalDayUnique(t: int, zone: int, day: int)
    requires day * DAY <= t + zone < (day + 1) * DAY
    ensures LocalDay(t, zone) == day
  {}

  lemma LocalDayShift(t: int, zone: int, k: int)
    ensures LocalDay(AddDays(t, k), zone) == LocalDay(t, zone) + k
  {
    DayBounds(t, zone);
    LocalDayUnique(AddDays(t, k), zone, LocalDay(t, zone) + k);
  }

  /** Rebuilding an instant from the date of a local day lands on that day's slot. */
  lemma SlotOfDay(w: Window, t: int)
    requires Configured(w)
    ensures TimeOn(LocalDate(t, w.zone), ConfiguredTime(w), w.zone) == Slot(w, LocalDay(t, w.zone))
    ensures LocalDay(Slot(w, LocalDay(t, w.zone)), w.zone) == LocalDay(t, w.zone)
  {
    DayNumberOfDate(LocalDay(t, w.zone));
    LocalDayUnique(Slot(w, LocalDay(t, w.zone)), w.zone, LocalDay(t, w.zone));
  }

  /** Slots are ordered as their days are, against a reference and among themselves. */
  lemma SlotOrder(w: Window, ref: int, day: int)
    requires Configured(w)
    ensures day < LocalDay(ref, w.zone) ==> Slot(w, day) <= ref
    ensures LocalDay(ref, w.zone) < day ==> ref < Slot(w, day)
  {
    DayBounds(ref, w.zone);
  }

  lemma LatestByDay(w: Window, ref: int, day: int)
    requires Configured(w) && Anchored(w) && OnDay(w, day) && Slot(w, day) <= ref
    requires forall d: int | day < d <= LocalDay(ref, w.zone) && OnDay(w, d) :: ref < Slot(w, d)
    ensures IsLatest(w, ref, Slot(w, day))
  {
    forall x: int | Occurs(w, x) && x <= ref ensures x <= Slot(w, day) {
      var d: int :| OnDay(w, d) && x == Slot(w, d);
      SlotOrder(w, ref, d);
    }
  }

  lemma EarliestByDay(w: Window, ref: int, day: int)
    requires Configured(w) && Anchored(w) && OnDay(w, day) && ref < Slot(w, day)
    requires forall d: int | LocalDay(ref, w.zone) <= d < day && OnDay(w, d) :: Slot(w, d) <= ref
    ensures IsEarliestAfter(w, ref, Slot(w, day))
  {
    forall x: int | Occurs(w, x) && ref < x ensures Slot(w, day) <= x {
      var d: int :| OnDay(w, d) && x == Slot(w, d);
      SlotOrder(w, ref, d);
    }
  }

  // ---------- The searches ----------

  /** The wanted numbers as the set the search tests. */
  method Wanted(days: seq<int>) returns (wanted: set<int>)
    ensures forall d: int :: d in wanted <==> d in days
  {
    wanted := {};
    for i := 0 to |days|
      invariant forall d: int :: d in wanted <==> d in days[..i]
    {
      wanted := wanted + {days[i]};
    }
  }

  /** The backward search of `mostRecentOccurrence`: whatever it returns is the latest of all
      occurrences up to `ref`, and it returns nothing only if none is within its reach. */
  method MostRecentOccurrence(w: Window, ref: int) returns (r: Option<Occurrence>)
    ensures !Configured(w) ==> r.None?
    ensures Configured(w) && r.Some? ==> r.value.duration == Duration(w)
    ensures Configured(w) && Anchored(w) && r.Some? ==>
      IsLatest(w, ref, r.value.start) && InReachBefore(w, ref, r.value.start)
    ensures Configured(w) && Anchored(w) && r.None? ==> forall o: int :: !InReachBefore(w, ref, o)
    ensures Configured(w) && !Anchored(w) ==>
      var today := Slot(w, LocalDay(ref, w.zone));
      r == if today <= ref then Some(Occurrence(today, Duration(w))) else None
  {
    match w.strategy
    case Interval =>
      if w.recurInterval.None? || w.recurInterval.value.everyDays < 1 { return None; }
      if !ParsesTimeOfDay(w.recurInterval.value.timeOfDay) { return None; }
      r := MostRecentInterval(w, ref);
    case Weekly =>
      if w.recurWeekly.None? || w.recurWeekly.value.days == [] { return None; }
      if !ParsesTimeOfDay(w.recurWeekly.value.timeOfDay) { return None; }
      r := MostRecentWeekly(w, ref);
    case Monthly =>
      if w.recurMonthly.None? || w.recurMonthly.value.days == [] { return None; }
      if !ParsesTimeOfDay(w.recurMonthly.value.timeOfDay) { return None; }
      r := MostRecentMonthly(w, ref);
    case _ =>
      r := None;
  }

  method MostRecentWeekly(w: Window, ref: int) returns (r: Option<Occurrence>)
    requires Configured(w) && w.strategy == Weekly
    ensures r.Some? ==> r.value.duration == Duration(w)
    ensures r.Some? ==> IsLatest(w, ref, r.value.start) && InReachBefore(w, ref, r.value.start)
    ensures r.None? ==> forall o: int :: !InReachBefore(w, ref, o)
  {
    var wanted := Wanted(w.recurWeekly.value.days);
    ghost var today := LocalDay(ref, w.zone);
    for i := 0 to 8
      invariant forall d: int | today - i < d <= today && OnDay(w, d) :: ref < Slot(w, d)
    {
      var day := AddDays(ref, -i);
      LocalDayShift(ref, w.zone, -i);
      if Weekday(LocalDay(day, w.zone)) !in wanted { continue; }
      var candidate := TimeOn(LocalDate(day, w.zone), w.recurWeekly.value.timeOfDay, w.zone);
      SlotOfDay(w, day);
      if candidate <= ref {
        LatestByDay(w, ref, today - i);
        return Some(Occurrence(candidate, w.recurWeekly.value.durationMinutes * MINUTE));
      }
    }
    NoneInReachBefore(w, ref);
    r := None;
  }

  method MostRecentMonthly(w: Window, ref: int) returns (r: Option<Occurrence>)
    requires Configured(w) && w.strategy == Monthly
    ensures r.Some? ==> r.value.duration == Duration(w)
    ensures r.Some? ==> IsLatest(w, ref, r.value.start) && InReachBefore(w, ref, r.value.start)
    ensures r.None? ==> forall o: int :: !InReachBefore(w, ref, o)
  {
    var wanted := Wanted(w.recurMonthly.value.days);
    ghost var today := LocalDay(ref, w.zone);
    for i := 0 to 32
      invariant forall d: int | today - i < d <= today && OnDay(w, d) :: ref < Slot(w, d)
    {
      var day := AddDays(ref, -i);
      LocalDayShift(ref, w.zone, -i);
      if LocalDate(day, w.zone).day !in wanted { continue; }
      var candidate := TimeOn(LocalDate(day, w.zone), w.recurMonthly.value.timeOfDay, w.zone);
      SlotOfDay(w, day);
      if candidate <= ref {
        LatestByDay(w, ref, today - i);
        return Some(Occurrence(candidate, w.recurMonthly.value.durationMinutes * MINUTE));
      }
    }
    NoneInReachBefore(w, ref);
    r := None;
  }

  lemma NoneInReachBefore(w: Window, ref: int)
    requires Configured(w) && Anchored(w) && w.strategy != Interval
    requires forall d: int | LocalDay(ref, w.zone) - Reach(w) <= d <= LocalDay(ref, w.zone) && OnDay(w, d) ::
      ref < Slot(w, d)
    ensures forall o: int :: !InReachBefore(w, ref, o)
  {
    forall o: int ensures !InReachBefore(w, ref, o) {
      if InReachBefore(w, ref, o) {
        var day: int :| OnDay(w, day) && o == Slot(w, day) && o <= ref
          && (w.strategy != Interval ==> LocalDay(ref, w.zone) - Reach(w) <= day);
        SlotOrder(w, ref, day);
        assert false;
      }
    }
  }

  /** The walk back from today to the nearest day aligned with the anchor; `everyDays` steps
      are always enough. */
  method MostRecentInterval(w: Window, ref: int) returns (r: Option<Occurrence>)
    requires Configured(w) && w.strategy == Interval
    ensures r.Some? ==> r.value.duration == Duration(w)
    ensures Anchored(w) && r.Some? ==> IsLatest(w, ref, r.value.start) && InReachBefore(w, ref, r.value.start)
    ensures Anchored(w) && r.None? ==> forall o: int :: !InReachBefore(w, ref, o)
    ensures !Anchored(w) ==>
      var today := Slot(w, LocalDay(ref, w.zone));
      r == if today <= ref then Some(Occurrence(today, Duration(w))) else None
  {
    var c := w.recurInterval.value;
    var duration := c.durationMinutes * MINUTE;
    var anchor := if w.createdAt.Some? then w.createdAt.value else ref;
    var anchorDay := TimeOn(LocalDate(anchor, w.zone), c.timeOfDay, w.zone);
    SlotOfDay(w, anchor);
    var start := TimeOn(LocalDate(ref, w.zone), c.timeOfDay, w.zone);
    SlotOfDay(w, ref);
    ghost var a := LocalDay(anchor, w.zone);
    ghost var first := LocalDay(ref, w.zone);
    if start > ref {
      start := AddDays(start, -1);
      first := first - 1;
    }
    DayBounds(ref, w.zone);
    assert start == Slot(w, first) && start <= ref < Slot(w, first + 1);
    if start < anchorDay {
      assert first < a;
      if Anchored(w) { NoIntervalBefore(w, ref, first); }
      return None;
    }
    var candidate, day := WalkBack(w, anchorDay, start, a, first);
    if Anchored(w) { LatestByDay(w, ref, day); }
    r := Some(Occurrence(candidate, duration));
  }

  /** From day `first`, step back to the nearest day aligned with anchor day `a`. */
  method WalkBack(w: Window, anchorDay: int, start: int, ghost a: int, ghost first: int)
    returns (candidate: int, ghost day: int)
    requires Configured(w) && w.strategy == Interval
    requires anchorDay == Slot(w, a) && start == Slot(w, first) && a <= first
    ensures a <= day <= first && candidate == Slot(w, day) && Aligned(a, w.recurInterval.value.everyDays, day)
    ensures forall d: int | day < d <= first :: !Aligned(a, w.recurInterval.value.everyDays, d)
  {
    var everyDays := w.recurInterval.value.everyDays;
    LocalDayUnique(anchorDay, w.zone, a);
    DayNumberOfDate(a);
    for i := 0 to everyDays
      invariant forall d: int | first - i < d <= first :: !Aligned(a, everyDays, d)
    {
      candidate := AddDays(start, -i);
      if candidate < anchorDay { break; }
      LocalDayUnique(candidate, w.zone, first - i);
      DayNumberOfDate(first - i);
      if DaysBetweenDates(LocalDate(anchorDay, w.zone), LocalDate(candidate, w.zone)) % everyDays == 0 {
        assert Aligned(a, everyDays, first - i);
        return candidate, first - i;
      }
      assert !Aligned(a, everyDays, first - i);
    }
    ghost var d := LastAligned(a, everyDays, first);
    assert false;
  }

  lemma NoIntervalBefore(w: Window, ref: int, first: int)
    requires Configured(w) && w.strategy == Interval && Anchored(w)
    requires ref < Slot(w, first + 1) && first < LocalDay(w.createdAt.value, w.zone)
    ensures forall o: int :: !InReachBefore(w, ref, o)
  {}

  lemma MultipleIsAligned(q: int, period: int)
    requires period >= 1
    ensures (q * period) % period == 0
  {
    var x := q * period;
    var k := q - x / period;
    assert k * period == x % period;
    MultipleGrows(k, period);
  }

  lemma MultipleGrows(k: int, period: int)
    requires period >= 1
    ensures k >= 1 ==> k * period >= period
    ensures k <= -1 ==> k * period <= -period
  {}

  /** The last `period` days up to `day` contain one aligned with the anchor. */
  lemma LastAligned(anchor: int, period: int, day: int) returns (d: int)
    requires period >= 1 && anchor <= day
    ensures anchor <= d <= day && day - period < d && Aligned(anchor, period, d)
  {
    var n := day - anchor;
    d := day - n % period;
    assert d - anchor == (n / period) * period;
    MultipleIsAligned(n / period, period);
  }

  /** The next `period` days from `day` on contain one aligned with the anchor. */
  lemma NextAligned(anchor: int, period: int, day: int) returns (d: int)
    requires period >= 1
    ensures day <= d < day + period && Aligned(anchor, period, d)
  {
    var n := day + period - 1 - anchor;
    d := day + period - 1 - n % period;
    assert d - anchor == (n / period) * period;
    MultipleIsAligned(n / period, period);
  }

  /** The forward search of `firstOccurrenceAfter`: whatever it returns is the earliest of all
      occurrences after `ref`, and it returns nothing only if none is within its reach. */
  method FirstOccurrenceAfter(w: Window, ref: int) returns (r: Option<int>)
    ensures !Configured(w) ==> r.None?
    ensures Configured(w) && Anchored(w) && r.Some? ==>
      IsEarliestAfter(w, ref, r.value) && InReachAfter(w, ref, r.value)
    ensures Configured(w) && Anchored(w) && r.None? ==> forall o: int :: !InReachAfter(w, ref, o)
    ensures Configured(w) && !Anchored(w) ==>
      var today := Slot(w, LocalDay(ref, w.zone));
      r == Some(if ref < today then today else AddDays(today, w.recurInterval.value.everyDays))
  {
    match w.strategy
    case Interval =>
      if w.recurInterval.None? || w.recurInterval.value.everyDays < 1 { return None; }
      if !ParsesTimeOfDay(w.recurInterval.value.timeOfDay) { return None; }
      r := FirstIntervalAfter(w, ref);
    case Weekly =>
      if w.recurWeekly.None? || w.recurWeekly.value.days == [] { return None; }
      if !ParsesTimeOfDay(w.recurWeekly.value.timeOfDay) { return None; }
      r := FirstWeeklyAfter(w, ref);
    case Monthly =>
      if w.recurMonthly.None? || w.recurMonthly.value.days == [] { return None; }
      if !ParsesTimeOfDay(w.recurMonthly.value.timeOfDay) { return None; }
      r := FirstMonthlyAfter(w, ref);
    case _ =>
      r := None;
  }

  method FirstWeeklyAfter(w: Window, ref: int) returns (r: Option<int>)
    requires Configured(w) && w.strategy == Weekly
    ensures r.Some? ==> IsEarliestAfter(w, ref, r.value) && InReachAfter(w, ref, r.value)
    ensures r.None? ==> forall o: int :: !InReachAfter(w, ref, o)
  {
    var wanted := Wanted(w.recurWeekly.value.days);
    ghost var today := LocalDay(ref, w.zone);
    for i := 0 to 8
      invariant forall d: int | today <= d < today + i && OnDay(w, d) :: Slot(w, d) <= ref
    {
      var day := AddDays(ref, i);
      LocalDayShift(ref, w.zone, i);
      if Weekday(LocalDay(day, w.zone)) !in wanted { continue; }
      var candidate := TimeOn(LocalDate(day, w.zone), w.recurWeekly.value.timeOfDay, w.zone);
      SlotOfDay(w, day);
      if candidate > ref {
        EarliestByDay(w, ref, today + i);
        return Some(candidate);
      }
    }
    NoneInReachAfter(w, ref);
    r := None;
  }

  method FirstMonthlyAfter(w: Window, ref: int) returns (r: Option<int>)
    requires Configured(w) && w.strategy == Monthly
    ensures r.Some? ==> IsEarliestAfter(w, ref, r.value) && InReachAfter(w, ref, r.value)
    ensures r.None? ==> forall o: int :: !InReachAfter(w, ref, o)
  {
    var wanted := Wanted(w.recurMonthly.value.days);
    ghost var today := LocalDay(ref, w.zone);
    for i := 0 to 32
      invariant forall d: int | today <= d < today + i && OnDay(w, d) :: Slot(w, d) <= ref
    {
      var day := AddDays(ref, i);
      LocalDayShift(ref, w.zone, i);
      if LocalDate(day, w.zone).day !in wanted { continue; }
      var candidate := TimeOn(LocalDate(day, w.zone), w.recurMonthly.value.timeOfDay, w.zone);
      SlotOfDay(w, day);
      if candidate > ref {
        EarliestByDay(w, ref, today + i);
        return Some(candidate);
      }
    }
    NoneInReachAfter(w, ref);
    r := None;
  }

  lemma NoneInReachAfter(w: Window, ref: int)
    requires Configured(w) && Anchored(w) && w.strategy != Interval
    requires forall d: int | LocalDay(ref, w.zone) <= d <= LocalDay(ref, w.zone) + Reach(w) && OnDay(w, d) ::
      Slot(w, d) <= ref
    ensures forall o: int :: !InReachAfter(w, ref, o)
  {
    forall o: int ensures !InReachAfter(w, ref, o) {
      if InReachAfter(w, ref, o) {
        var day: int :| OnDay(w, day) && o == Slot(w, day) && ref < o
          && (w.strategy != Interval ==> day <= LocalDay(ref, w.zone) + Reach(w));
        SlotOrder(w, ref, day);
        assert false;
      }
    }
  }

  method FirstIntervalAfter(w: Window, ref: int) returns (r: Option<int>)
    requires Configured(w) && w.strategy == Interval
    ensures r.Some?
    ensures Anchored(w) ==> IsEarliestAfter(w, ref, r.value) && InReachAfter(w, ref, r.value)
    ensures !Anchored(w) ==>
      var today := Slot(w, LocalDay(ref, w.zone));
      r == Some(if ref < today then today else AddDays(today, w.recurInterval.value.everyDays))
  {
    var c := w.recurInterval.value;
    var anchor := if w.createdAt.Some? then w.createdAt.value else ref;
    var anchorDay := TimeOn(LocalDate(anchor, w.zone), c.timeOfDay, w.zone);
    SlotOfDay(w, anchor);
    var start := TimeOn(LocalDate(ref, w.zone), c.timeOfDay, w.zone);
    SlotOfDay(w, ref);
    ghost var a := LocalDay(anchor, w.zone);
    ghost var first := LocalDay(ref, w.zone);
    if start <= ref {
      start := AddDays(start, 1);
      first := first + 1;
    }
    DayBounds(ref, w.zone);
    assert start == Slot(w, first) && Slot(w, first - 1) <= ref < start;
    if start < anchorDay {
      start := anchorDay;
      first := a;
    }
    var candidate, day := WalkForward(w, anchorDay, start, a, first);
    if Anchored(w) {
      EarliestByDay(w, ref, day);
    } else {
      UnanchoredNext(c.everyDays, LocalDay(ref, w.zone), first, day);
    }
    r := Some(candidate);
  }

  /** From day `first`, step on to the nearest day aligned with anchor day `a`. */
  method WalkForward(w: Window, anchorDay: int, start: int, ghost a: int, ghost first: int)
    returns (candidate: int, ghost day: int)
    requires Configured(w) && w.strategy == Interval
    requires anchorDay == Slot(w, a) && start == Slot(w, first) && a <= first
    ensures first <= day && candidate == Slot(w, day) && Aligned(a, w.recurInterval.value.everyDays, day)
    ensures forall d: int | first <= d < day :: !Aligned(a, w.recurInterval.value.everyDays, d)
  {
    var everyDays := w.recurInterval.value.everyDays;
    LocalDayUnique(anchorDay, w.zone, a);
    DayNumberOfDate(a);
    for i := 0 to everyDays
      invariant forall d: int | first <= d < first + i :: !Aligned(a, everyDays, d)
    {
      candidate := AddDays(start, i);
      LocalDayUnique(candidate, w.zone, first + i);
      DayNumberOfDate(first + i);
      if DaysBetweenDates(LocalDate(anchorDay, w.zone), LocalDate(candidate, w.zone)) % everyDays == 0 {
        assert Aligned(a, everyDays, first + i);
        return candidate, first + i;
      }
      assert !Aligned(a, everyDays, first + i);
    }
    ghost var d := NextAligned(a, everyDays, first);
    assert false;
  }

  lemma UnanchoredNext(period: int, a: int, first: int, day: int)
    requires period >= 1 && a <= first <= a + 1 && first <= day && Aligned(a, period, day)
    requires forall d: int | first <= d < day :: !Aligned(a, period, d)
    ensures day == if first == a then a else a + period
  {
    MultipleIsAligned(0, period);
    assert Aligned(a, period, a);
    MultipleIsAligned(1, period);
    assert Aligned(a, period, a + period);
    SmallRemainder(day - a, period);
  }

  lemma SmallRemainder(x: int, period: int)
    requires period >= 1
    ensures 0 <= x < period ==> x % period == x
  {}

  // ---------- Activity ----------

  /** `t` lies inside some occurrence, over all of time. */
  ghost predicate Covered(w: Window, t: int)
    requires Configured(w) && Anchored(w)
  {
    exists o: int :: Occurs(w, o) && o <= t < o + Duration(w)
  }

  /** `t` lies inside an occurrence the search can reach; a window without a creation time
      is only ever covered by today's occurrence. */
  ghost predicate SearchCovers(w: Window, t: int)
    requires Configured(w)
  {
    if Anchored(w) then exists o: int :: InReachBefore(w, t, o) && t < o + Duration(w)
    else
      var today := Slot(w, LocalDay(t, w.zone));
      today <= t < today + Duration(w)
  }

  /** When a window pauses monitoring. */
  ghost predicate ActiveAt(w: Window, t: int) {
    w.active && match w.strategy
      case Manual => WithinEffectiveRange(w.effectiveFrom, w.effectiveTo, t)
      case Single => w.single.Some? && w.single.value.start <= t < w.single.value.end
      case _ =>
        && Configured(w)
        && WithinEffectiveRange(w.effectiveFrom, w.effectiveTo, t)
        && SearchCovers(w, t)
  }

  /** The code looks at one occurrence, the most recent; that decides for every occurrence in
      reach, since all last equally long. */
  method IsRecurringActive(w: Window, t: int) returns (b: bool)
    ensures b <==> Configured(w) && WithinEffectiveRange(w.effectiveFrom, w.effectiveTo, t) && SearchCovers(w, t)
  {
    if !WithinEffectiveRange(w.effectiveFrom, w.effectiveTo, t) { return false; }
    var occ := MostRecentOccurrence(w, t);
    if occ.None? { return false; }
    b := occ.value.start <= t < occ.value.start + occ.value.duration;
    if Configured(w) && Anchored(w) {
      forall o: int | InReachBefore(w, t, o) && t < o + Duration(w) ensures b {
        assert Occurs(w, o);
      }
    }
  }

  method IsActive(w: Window, t: int) returns (b: bool)
    ensures b <==> ActiveAt(w, t)
    ensures b ==> w.active
    ensures w.active && w.strategy == Manual ==>
      (b <==> (w.effectiveFrom.Some? ==> w.effectiveFrom.value <= t) && (w.effectiveTo.Some? ==> t < w.effectiveTo.value))
    ensures w.active && w.strategy == Single ==>
      (b <==> w.single.Some? && w.single.value.start <= t < w.single.value.end)
  {
    if !w.active { return false; }
    match w.strategy
    case Manual => b := WithinEffectiveRange(w.effectiveFrom, w.effectiveTo, t);
    case Single =>
      if w.single.None? { return false; }
      b := w.single.value.start <= t < w.single.value.end;
    case _ => b := IsRecurringActive(w, t);
  }

  /** The next start shown as a reminder.  A raw next tick outside the effective range is
      reported as none, not searched past. */
  method NextOccurrence(w: Window, t: int) returns (r: Option<int>)
    ensures r.Some? ==> w.active && t < r.value
    ensures w.strategy == Manual ==>
      r == if w.active && w.effectiveFrom.Some? && t < w.effectiveFrom.value then w.effectiveFrom else None
    ensures w.strategy == Single ==>
      r == if w.active && w.single.Some? && t < w.single.value.start then Some(w.single.value.start) else None
    ensures r.Some? && Configured(w) && Anchored(w) ==>
      IsEarliestAfter(w, t, r.value) && WithinEffectiveRange(w.effectiveFrom, w.effectiveTo, r.value)
    ensures r.None? && w.active && Configured(w) && Anchored(w) ==>
      forall o: int :: InReachAfter(w, t, o) && IsEarliestAfter(w, t, o) ==>
        !WithinEffectiveRange(w.effectiveFrom, w.effectiveTo, o)
    ensures w.active && Configured(w) && !Anchored(w) ==>
      var today := Slot(w, LocalDay(t, w.zone));
      var next := if t < today then today else AddDays(today, w.recurInterval.value.everyDays);
      r == if WithinEffectiveRange(w.effectiveFrom, w.effectiveTo, next) then Some(next) else None
    ensures !w.strategy.Manual? && !w.strategy.Single? && !Configured(w) ==> r.None?
  {
    if !w.active { return None; }
    match w.strategy
    case Manual =>
      if w.effectiveFrom.None? || w.effectiveFrom.value <= t { return None; }
      r := w.effectiveFrom;
    case Single =>
      if w.single.None? || w.single.value.start <= t { return None; }
      r := Some(w.single.value.start);
    case _ =>
      var start := FirstOccurrenceAfter(w, t);
      if start.None? || !WithinEffectiveRange(w.effectiveFrom, w.effectiveTo, start.value) { return None; }
      r := start;
  }

  /** The last start shown in the windows list, whether or not the window is switched on. */
  method LastOccurrence(w: Window, t: int) returns (r: Option<int>)
    ensures r.Some? ==> r.value <= t
    ensures w.strategy == Manual ==>
      r == if w.effectiveFrom.Some? && w.effectiveFrom.value <= t then w.effectiveFrom else None
    ensures w.strategy == Single ==>
      r == if w.single.Some? && w.single.value.start <= t then Some(w.single.value.start) else None
    ensures r.Some? && Configured(w) && Anchored(w) ==> IsLatest(w, t, r.value)
    ensures r.None? && Configured(w) && Anchored(w) ==> forall o: int :: !InReachBefore(w, t, o)
    ensures Configured(w) && !Anchored(w) ==>
      var today := Slot(w, LocalDay(t, w.zone)); r == if today <= t then Some(today) else None
    ensures !w.strategy.Manual? && !w.strategy.Single? && !Configured(w) ==> r.None?
  {
    match w.strategy
    case Manual =>
      if w.effectiveFrom.None? || w.effectiveFrom.value > t { return None; }
      r := w.effectiveFrom;
    case Single =>
      if w.single.None? || w.single.value.start > t { return None; }
      r := Some(w.single.value.start);
    case _ =>
      var occ := MostRecentOccurrence(w, t);
      if occ.None? { return None; }
      r := Some(occ.value.start);
  }

  method ActiveMaintenanceWindows(windows: seq<Window>, t: int) returns (active: seq<Window>)
    ensures active == ActiveOnes(windows, t)
  {
    active := [];
    for i := 0 to |windows|
      invariant active == ActiveOnes(windows[..i], t)
    {
      assert windows[..i + 1][..i] == windows[..i];
      var b := IsActive(windows[i], t);
      if b { active := active + [windows[i]]; }
    }
    assert windows[..|windows|] == windows;
  }

  /** The windows active at `t`, in their order. */
  ghost function ActiveOnes(windows: seq<Window>, t: int): seq<Window> {
    if windows == [] then []
    else
      var last := windows[|windows| - 1];
      ActiveOnes(windows[..|windows| - 1], t) + if ActiveAt(last, t) then [last] else []
  }

  lemma {:induction false} ActiveOnesMembers(windows: seq<Window>, t: int)
    ensures forall w: Window :: w in ActiveOnes(windows, t) <==> w in windows && ActiveAt(w, t)
  {
    if windows != [] {
      var init := windows[..|windows| - 1];
      ActiveOnesMembers(init, t);
      assert windows == init + [windows[|windows| - 1]];
    }
  }

  /** Each window is judged on its own, and the order is kept. */
  lemma {:induction false} ActiveOnesInOrder(a: seq<Window>, b: seq<Window>, t: int)
    ensures ActiveOnes(a + b, t) == ActiveOnes(a, t) + ActiveOnes(b, t)
  {
    if b == [] {
      assert a + b == a;
    } else {
      FrontOfSum(a, b);
      assert Front(a + b) == (a + b)[..|a + b| - 1] && Front(b) == b[..|b| - 1];
      ActiveOnesInOrder(a, Front(b), t);
    }
  }
}
