/** Checking and normalising a maintenance window before it is stored
    (internal/config/maintenance.go): what gives the schedule its preconditions. */
module Normalize {
  import opened Common
  import opened Schedule
  import ScheduleLaws

  // ---------- Go's strings package ----------

  predicate IsSpace(c: char) {
    || '\U{09}' <= c <= '\U{0D}' || c == ' ' || c == '\U{85}' || c == '\U{A0}' || c == '\U{1680}'
    || '\U{2000}' <= c <= '\U{200A}' || '\U{2028}' <= c <= '\U{2029}'
    || c == '\U{202F}' || c == '\U{205F}' || c == '\U{3000}'
  }

  function TrimLeft(s: string): string {
    if s != [] && IsSpace(s[0]) then TrimLeft(s[1..]) else s
  }

  function TrimRight(s: string): string {
    if s != [] && IsSpace(s[|s| - 1]) then TrimRight(s[..|s| - 1]) else s
  }

  function TrimSpace(s: string): string {
    TrimRight(TrimLeft(s))
  }

  predicate Trimmed(s: string) {
    s == [] || (!IsSpace(s[0]) && !IsSpace(s[|s| - 1]))
  }

  lemma {:induction false} TrimRightStarts(s: string)
    ensures TrimRight(s) <= s
    ensures TrimRight(s) == [] || !IsSpace(TrimRight(s)[|TrimRight(s)| - 1])
  {
    if s != [] && IsSpace(s[|s| - 1]) { TrimRightStarts(s[..|s| - 1]); }
  }

  lemma {:induction false} TrimLeftStarts(s: string)
    ensures TrimLeft(s) == [] || !IsSpace(TrimLeft(s)[0])
  {
    if s != [] && IsSpace(s[0]) { TrimLeftStarts(s[1..]); }
  }

  lemma TrimSpaceTrims(s: string)
    ensures Trimmed(TrimSpace(s))
    ensures Trimmed(s) ==> TrimSpace(s) == s
  {
    TrimLeftStarts(s);
    TrimRightStarts(TrimLeft(s));
  }

  /** Trimming cuts white space off both ends and nothing else. */
  lemma {:induction false} TrimSpaceCuts(s: string) returns (i: nat, j: nat)
    ensures i <= j <= |s| && TrimSpace(s) == s[i..j]
    ensures forall k :: 0 <= k < i || j <= k < |s| ==> IsSpace(s[k])
  {
    i := TrimLeftCuts(s);
    var k := TrimRightCuts(TrimLeft(s));
    j := i + k;
    assert s[i..][..k] == s[i..j];
    assert forall x :: j <= x < |s| ==> s[x] == s[i..][x - i];
  }

  lemma {:induction false} TrimLeftCuts(s: string) returns (i: nat)
    ensures i <= |s| && TrimLeft(s) == s[i..] && forall k :: 0 <= k < i ==> IsSpace(s[k])
  {
    if s != [] && IsSpace(s[0]) {
      var k := TrimLeftCuts(s[1..]);
      i := k + 1;
    } else {
      i := 0;
    }
  }

  lemma {:induction false} TrimRightCuts(s: string) returns (j: nat)
    ensures j <= |s| && TrimRight(s) == s[..j] && forall k :: j <= k < |s| ==> IsSpace(s[k])
  {
    if s != [] && IsSpace(s[|s| - 1]) {
      j := TrimRightCuts(s[..|s| - 1]);
    } else {
      j := |s|;
    }
  }

  /** Among the ASCII characters, tab to carriage return and the blank are white space. */
  lemma AsciiSpace(c: char)
    requires c < '\U{80}'
    ensures IsSpace(c) <==> 9 <= c as int <= 13 || c as int == 32
  {}

  predicate NotBlank(s: string) {
    exists k :: 0 <= k < |s| && !IsSpace(s[k])
  }

  lemma BlankMeans(s: string)
    ensures TrimSpace(s) != "" <==> NotBlank(s)
  {
    var i, j := TrimSpaceCuts(s);
    TrimSpaceTrims(s);
    if i < j { assert s[i..j][0] == s[i]; }
  }

  // ---------- lists of IDs ----------

  /** The IDs of a list, trimmed, without blanks, each where it first appears. */
  function Deduped(ids: seq<string>): seq<string> {
    if ids == [] then []
    else
      var r := Deduped(ids[..|ids| - 1]);
      var id := TrimSpace(ids[|ids| - 1]);
      if id == "" || id in r then r else r + [id]
  }

  predicate Names(ids: seq<string>, id: string) {
    id != "" && exists k :: 0 <= k < |ids| && TrimSpace(ids[k]) == id
  }

  /** Trimmed, non-blank and all different. */
  predicate Clean(ids: seq<string>) {
    && (forall k :: 0 <= k < |ids| ==> Trimmed(ids[k]) && ids[k] != "")
    && (forall i, k :: 0 <= i < k < |ids| ==> ids[i] != ids[k])
  }

  lemma NamesSnoc(ids: seq<string>, id: string)
    requires ids != []
    ensures Names(ids, id) <==> Names(ids[..|ids| - 1], id) || (id != "" && id == TrimSpace(ids[|ids| - 1]))
  {
    var init := ids[..|ids| - 1];
    if Names(init, id) {
      var k :| 0 <= k < |init| && TrimSpace(init[k]) == id;
      assert TrimSpace(ids[k]) == id;
    }
    if Names(ids, id) && id != TrimSpace(ids[|ids| - 1]) {
      var k :| 0 <= k < |ids| && TrimSpace(ids[k]) == id;
      assert TrimSpace(init[k]) == id;
    }
  }

  lemma {:induction false} DedupedMembers(ids: seq<string>, id: string)
    ensures id in Deduped(ids) <==> Names(ids, id)
  {
    if ids != [] {
      DedupedMembers(ids[..|ids| - 1], id);
      NamesSnoc(ids, id);
    }
  }

  lemma {:induction false} DedupedIsClean(ids: seq<string>)
    ensures Clean(Deduped(ids))
  {
    if ids != [] {
      DedupedIsClean(ids[..|ids| - 1]);
      TrimSpaceTrims(ids[|ids| - 1]);
    }
  }

  lemma {:induction false} CleanStays(ids: seq<string>)
    requires Clean(ids)
    ensures Deduped(ids) == ids
  {
    if ids != [] {
      var init := ids[..|ids| - 1];
      CleanStays(init);
      TrimSpaceTrims(ids[|ids| - 1]);
      assert ids == init + [ids[|ids| - 1]];
    }
  }

  method DedupeNonEmpty(ids: seq<string>) returns (out: seq<string>)
    ensures out == Deduped(ids)
  {
    out := [];
    var seen: set<string> := {};
    for i := 0 to |ids|
      invariant out == Deduped(ids[..i])
      invariant forall id :: id in seen <==> id in out
    {
      assert ids[..i + 1][..i] == ids[..i];
      var id := TrimSpace(ids[i]);
      if id != "" && id !in seen {
        seen := seen + {id};
        out := out + [id];
      }
    }
    assert ids[..|ids|] == ids;
  }

  // ---------- lists of day numbers ----------

  predicate Increasing(s: seq<int>) {
    forall i, k :: 0 <= i < k < |s| ==> s[i] < s[k]
  }

  function Inserted(s: seq<int>, n: int): seq<int> {
    if s == [] || s[|s| - 1] < n then s + [n]
    else if s[|s| - 1] == n then s
    else Inserted(s[..|s| - 1], n) + [s[|s| - 1]]
  }

  function DaysInOrder(days: seq<int>): seq<int> {
    if days == [] then [] else Inserted(DaysInOrder(days[..|days| - 1]), days[|days| - 1])
  }

  lemma {:induction false} InsertedKeeps(s: seq<int>, n: int)
    requires Increasing(s)
    ensures Increasing(Inserted(s, n))
    ensures forall d :: d in Inserted(s, n) <==> d in s || d == n
  {
    if s != [] && n <= s[|s| - 1] {
      InsertedKeeps(s[..|s| - 1], n);
      assert s == s[..|s| - 1] + [s[|s| - 1]];
      if n < s[|s| - 1] {
        var t := Inserted(s[..|s| - 1], n);
        forall k | 0 <= k < |t| ensures t[k] < s[|s| - 1] { assert t[k] in t; }
      }
    }
  }

  lemma {:induction false} DaysInOrderKeeps(days: seq<int>)
    ensures Increasing(DaysInOrder(days))
    ensures forall d :: d in DaysInOrder(days) <==> d in days
  {
    if days != [] {
      DaysInOrderKeeps(days[..|days| - 1]);
      InsertedKeeps(DaysInOrder(days[..|days| - 1]), days[|days| - 1]);
      assert days == days[..|days| - 1] + [days[|days| - 1]];
    }
  }

  /** An increasing list is determined by its members. */
  lemma {:induction false} IncreasingUnique(s: seq<int>, t: seq<int>)
    requires Increasing(s) && Increasing(t) && forall d :: d in s <==> d in t
    ensures s == t
  {
    assert |s| > 0 ==> s[0] in s && s[0] in t;
    assert |t| > 0 ==> t[0] in t && t[0] in s;
    if s != [] {
      var x, y := s[|s| - 1], t[|t| - 1];
      assert x in s && y in t && x in t && y in s;
      var i :| 0 <= i < |t| && t[i] == x;
      var k :| 0 <= k < |s| && s[k] == y;
      assert x == y;
      var s', t' := s[..|s| - 1], t[..|t| - 1];
      assert s == s' + [x] && t == t' + [y];
      assert x !in s' && y !in t';
      forall d ensures d in s' <==> d in t' {
        assert d in s' <==> d in s && d != x;
        assert d in t' <==> d in t && d != x;
      }
      IncreasingUnique(s', t');
    }
  }

  predicate AllBetween(days: seq<int>, low: int, high: int) {
    forall d :: d in days ==> low <= d <= high
  }

  /** `sort.Ints`, on a list without duplicates. */
  method SortInts(s: seq<int>) returns (t: seq<int>)
    ensures t == DaysInOrder(s)
  {
    t := [];
    for i := 0 to |s|
      invariant t == DaysInOrder(s[..i])
    {
      assert s[..i + 1][..i] == s[..i];
      t := Inserted(t, s[i]);
    }
    assert s[..|s|] == s;
  }

  method DedupeIntsInRange(days: seq<int>, min: int, max: int) returns (r: Option<seq<int>>)
    ensures r == if AllBetween(days, min, max) then Some(DaysInOrder(days)) else None
  {
    var out: seq<int> := [];
    var seen: set<int> := {};
    for i := 0 to |days|
      invariant AllBetween(days[..i], min, max)
      invariant forall d :: d in out <==> d in days[..i]
      invariant forall d :: d in seen <==> d in out
    {
      assert days[..i + 1] == days[..i] + [days[i]];
      if days[i] < min || days[i] > max {
        assert days[i] in days;
        return None;
      }
      if days[i] !in seen {
        seen := seen + {days[i]};
        out := out + [days[i]];
      }
    }
    assert days[..|days|] == days;
    var sorted := SortInts(out);
    DaysInOrderKeeps(out);
    DaysInOrderKeeps(days);
    IncreasingUnique(sorted, DaysInOrder(days));
    r := Some(sorted);
  }

  // ---------- windows ----------

  /** What the text of a strategy or of an on-start choice says, trimmed and in lower case. */
  datatype StrategyText = Named(strategy: Strategy) | UnknownStrategy
  datatype OnStartText = Blank | CancelQueued | Chosen(onStart: OnStart) | UnknownOnStart

  /** A window as submitted; the zone is still a name. */
  datatype Draft = Draft(
    id: string,
    title: string,
    active: bool,
    jobIDs: seq<string>,
    dockerHostIDs: seq<string>,
    strategy: StrategyText,
    onStart: OnStartText,
    single: Option<SingleConfig>,
    recurInterval: Option<IntervalConfig>,
    recurWeekly: Option<DaysConfig>,
    recurMonthly: Option<DaysConfig>,
    timezone: string,
    effectiveFrom: Option<int>,
    effectiveTo: Option<int>,
    createdAt: Option<int>)

  /** No choice, and the choice earlier versions had, count as letting actions finish. */
  function OnStartOf(d: Draft): OnStart {
    if d.onStart.Chosen? then d.onStart.onStart else AllowFinish
  }

  predicate ZoneKnown(timezone: string, zones: map<string, int>) {
    timezone != "" && timezone in zones
  }

  predicate RangeForward(d: Draft) {
    d.effectiveFrom.Some? && d.effectiveTo.Some? ==> d.effectiveFrom.value < d.effectiveTo.value
  }

  predicate IntervalAcceptable(c: Option<IntervalConfig>) {
    c.Some? && c.value.everyDays >= 1 && ParsesTimeOfDay(c.value.timeOfDay) && c.value.durationMinutes > 0
  }

  predicate DaysAcceptable(c: Option<DaysConfig>, low: int, high: int) {
    && c.Some? && c.value.days != [] && AllBetween(c.value.days, low, high)
    && ParsesTimeOfDay(c.value.timeOfDay) && c.value.durationMinutes > 0
  }

  /** The strategy's own configuration is there and makes sense.  A single window has no use for a
      zone or an effective range, so they are not looked at. */
  predicate StrategyAcceptable(d: Draft, zones: map<string, int>)
    requires d.strategy.Named?
  {
    if d.strategy.strategy == Single then d.single.Some? && d.single.value.start < d.single.value.end
    else
      && (d.strategy.strategy == Interval ==> IntervalAcceptable(d.recurInterval))
      && (d.strategy.strategy == Weekly ==> DaysAcceptable(d.recurWeekly, 0, 6))
      && (d.strategy.strategy == Monthly ==> DaysAcceptable(d.recurMonthly, 1, 31))
      && ZoneKnown(TrimSpace(d.timezone), zones) && RangeForward(d)
  }

  /** The targets are jobs or hosts, not both. */
  predicate TargetsAcceptable(d: Draft) {
    Deduped(d.jobIDs) == [] <==> Deduped(d.dockerHostIDs) != []
  }

  /** What a draft must satisfy to be stored. */
  predicate Acceptable(d: Draft, zones: map<string, int>) {
    && TrimSpace(d.title) != ""
    && d.strategy.Named? && !d.onStart.UnknownOnStart?
    && TargetsAcceptable(d)
    && StrategyAcceptable(d, zones)
  }

  function InOrder(c: Option<DaysConfig>): Option<DaysConfig> {
    if c.Some? then Some(c.value.(days := DaysInOrder(c.value.days))) else None
  }

  function Cleaned(d: Draft): Draft {
    d.(title := TrimSpace(d.title), onStart := Chosen(OnStartOf(d)), timezone := TrimSpace(d.timezone),
       jobIDs := Deduped(d.jobIDs), dockerHostIDs := Deduped(d.dockerHostIDs))
  }

  /** Only what the strategy uses is kept. */
  function Fitted(d: Draft): Draft
    requires d.strategy.Named?
  {
    var bare := d.(single := None, recurInterval := None, recurWeekly := None, recurMonthly := None);
    match d.strategy.strategy
    case Manual => bare
    case Single => bare.(single := d.single, timezone := "", effectiveFrom := None, effectiveTo := None)
    case Interval => bare.(recurInterval := d.recurInterval)
    case Weekly => bare.(recurWeekly := InOrder(d.recurWeekly))
    case Monthly => bare.(recurMonthly := InOrder(d.recurMonthly))
  }

  function Normalized(d: Draft): Draft
    requires d.strategy.Named?
  {
    Fitted(Cleaned(d))
  }

  lemma CleanedAlike(d: Draft, zones: map<string, int>)
    requires d.strategy.Named?
    ensures TrimSpace(Cleaned(d).timezone) == Cleaned(d).timezone
    ensures StrategyAcceptable(Cleaned(d), zones) <==> StrategyAcceptable(d, zones)
  {
    TrimSpaceTrims(d.timezone);
    TrimSpaceTrims(TrimSpace(d.timezone));
  }

  method NormalizeMaintenanceWindow(draft: Draft, zones: map<string, int>) returns (r: Option<Draft>)
    ensures r.Some? <==> Acceptable(draft, zones)
    ensures r.Some? ==> r.value == Normalized(draft)
  {
    var w := draft.(title := TrimSpace(draft.title), timezone := TrimSpace(draft.timezone));
    if w.onStart.Blank? || w.onStart.CancelQueued? {
      w := w.(onStart := Chosen(AllowFinish));
    }
    var jobIDs := DedupeNonEmpty(draft.jobIDs);
    var hostIDs := DedupeNonEmpty(draft.dockerHostIDs);
    w := w.(jobIDs := jobIDs, dockerHostIDs := hostIDs);

    if w.title == "" { return None; }
    if w.strategy.UnknownStrategy? || w.onStart.UnknownOnStart? { return None; }
    if jobIDs == [] && hostIDs == [] { return None; }
    if jobIDs != [] && hostIDs != [] { return None; }
    assert w == Cleaned(draft);
    CleanedAlike(draft, zones);
    r := FitStrategy(w, zones);
  }

  method FitStrategy(d: Draft, zones: map<string, int>) returns (r: Option<Draft>)
    requires d.strategy.Named? && TrimSpace(d.timezone) == d.timezone
    ensures r.Some? <==> StrategyAcceptable(d, zones)
    ensures r.Some? ==> r.value == Fitted(d)
  {
    var w := d.(single := None, recurInterval := None, recurWeekly := None, recurMonthly := None);
    match d.strategy.strategy {
      case Manual =>
        if !ZoneKnown(d.timezone, zones) { return None; }
      case Single =>
        if d.single.None? || d.single.value.end <= d.single.value.start { return None; }
        w := w.(single := d.single, timezone := "", effectiveFrom := None, effectiveTo := None);
      case Interval =>
        if !IntervalAcceptable(d.recurInterval) || !ZoneKnown(d.timezone, zones) { return None; }
        w := w.(recurInterval := d.recurInterval);
      case Weekly =>
        var c := NormalizeDays(d.recurWeekly, 0, 6);
        if c.None? || !ZoneKnown(d.timezone, zones) { return None; }
        w := w.(recurWeekly := c);
      case Monthly =>
        var c := NormalizeDays(d.recurMonthly, 1, 31);
        if c.None? || !ZoneKnown(d.timezone, zones) { return None; }
        w := w.(recurMonthly := c);
    }
    if !RangeForward(w) { return None; }
    r := Some(w);
  }

  method NormalizeDays(c: Option<DaysConfig>, min: int, max: int) returns (r: Option<DaysConfig>)
    ensures r.Some? <==> DaysAcceptable(c, min, max)
    ensures r.Some? ==> r == InOrder(c)
  {
    if c.None? || c.value.days == [] { return None; }
    var days := DedupeIntsInRange(c.value.days, min, max);
    if days.None? || !ParsesTimeOfDay(c.value.timeOfDay) || c.value.durationMinutes <= 0 { return None; }
    r := Some(c.value.(days := days.value));
  }

  // ---------- what normalising guarantees ----------

  /** The window a draft describes; a zone that is not known counts as UTC. */
  function WindowOf(d: Draft, zones: map<string, int>): Window
    requires d.strategy.Named?
  {
    Window(d.id, d.title, d.active, d.jobIDs, d.dockerHostIDs, d.strategy.strategy, OnStartOf(d),
           d.single, d.recurInterval, d.recurWeekly, d.recurMonthly,
           if ZoneKnown(TrimSpace(d.timezone), zones) then zones[TrimSpace(d.timezone)] else 0,
           d.effectiveFrom, d.effectiveTo, d.createdAt)
  }

  lemma ListedDays(c: DaysConfig)
    requires c.days != []
    ensures DaysInOrder(c.days) != [] && forall d :: d in DaysInOrder(c.days) <==> d in c.days
  {
    DaysInOrderKeeps(c.days);
    assert c.days[0] in c.days;
  }

  /** A stored window satisfies what the schedule theorems assume. */
  lemma StoredIsAccepted(d: Draft, zones: map<string, int>)
    requires Acceptable(d, zones)
    ensures var w := WindowOf(Normalized(d), zones);
      && (w.strategy.Interval? || w.strategy.Weekly? || w.strategy.Monthly? ==> ScheduleLaws.Accepted(w))
      && (w.strategy.Single? ==> w.single.Some? && w.single.value.start < w.single.value.end)
  {
    match d.strategy.strategy
    case Weekly => ListedDays(d.recurWeekly.value);
    case Monthly => ListedDays(d.recurMonthly.value);
    case _ =>
  }

  /** A stored window targets jobs or hosts but not both, and lists each target once. */
  lemma StoredTargets(d: Draft, zones: map<string, int>)
    requires Acceptable(d, zones)
    ensures var n := Normalized(d);
      && Clean(n.jobIDs) && Clean(n.dockerHostIDs)
      && (n.jobIDs == [] <==> n.dockerHostIDs != [])
      && (forall id :: id in n.jobIDs <==> Names(d.jobIDs, id))
      && (forall id :: id in n.dockerHostIDs <==> Names(d.dockerHostIDs, id))
  {
    DedupedIsClean(d.jobIDs);
    DedupedIsClean(d.dockerHostIDs);
    forall id ensures id in Deduped(d.jobIDs) <==> Names(d.jobIDs, id) { DedupedMembers(d.jobIDs, id); }
    forall id ensures id in Deduped(d.dockerHostIDs) <==> Names(d.dockerHostIDs, id) {
      DedupedMembers(d.dockerHostIDs, id);
    }
  }

  /** Storing a stored window again changes nothing, and it is never refused. */
  lemma NormalizingIsIdempotent(d: Draft, zones: map<string, int>)
    requires Acceptable(d, zones)
    ensures Acceptable(Normalized(d), zones)
    ensures Normalized(Normalized(d)) == Normalized(d)
  {
    CleaningIsIdempotent(d, zones);
    match d.strategy.strategy
    case Weekly => OrderedStays(d.recurWeekly.value);
    case Monthly => OrderedStays(d.recurMonthly.value);
    case _ =>
  }

  lemma CleaningIsIdempotent(d: Draft, zones: map<string, int>)
    requires Acceptable(d, zones)
    ensures Cleaned(Normalized(d)) == Normalized(d)
    ensures TargetsAcceptable(Normalized(d)) && Normalized(d).title != "" && Normalized(d).onStart.Chosen?
  {
    StoredTargets(d, zones);
    CleanStays(Normalized(d).jobIDs);
    CleanStays(Normalized(d).dockerHostIDs);
    TrimSpaceTrims(d.title);
    TrimSpaceTrims(TrimSpace(d.title));
    TrimSpaceTrims(d.timezone);
    TrimSpaceTrims(TrimSpace(d.timezone));
  }

  lemma OrderedStays(c: DaysConfig)
    requires c.days != []
    ensures DaysInOrder(DaysInOrder(c.days)) == DaysInOrder(c.days) != []
    ensures forall d :: d in DaysInOrder(c.days) <==> d in c.days
  {
    ListedDays(c);
    DaysInOrderKeeps(c.days);
    DaysInOrderKeeps(DaysInOrder(c.days));
    IncreasingUnique(DaysInOrder(DaysInOrder(c.days)), DaysInOrder(c.days));
  }

  /** Normalising does not change when a window is active. */
  lemma NormalizingKeepsActivity(d: Draft, zones: map<string, int>, t: int)
    requires Acceptable(d, zones)
    ensures ActiveAt(WindowOf(Normalized(d), zones), t) <==> ActiveAt(WindowOf(d, zones), t)
  {
    TrimSpaceTrims(d.timezone);
    TrimSpaceTrims(TrimSpace(d.timezone));
    var v, w := WindowOf(d, zones), WindowOf(Normalized(d), zones);
    match d.strategy.strategy
    case Weekly => ListedDays(d.recurWeekly.value); SameDaysSameActivity(v, w, t);
    case Monthly => ListedDays(d.recurMonthly.value); SameDaysSameActivity(v, w, t);
    case Interval => SameDaysSameActivity(v, w, t);
    case _ =>
  }

  lemma SameDaysSameActivity(v: Window, w: Window, t: int)
    requires Configured(v) && Configured(w)
    requires v.active == w.active && v.strategy == w.strategy && v.zone == w.zone && v.createdAt == w.createdAt
    requires v.effectiveFrom == w.effectiveFrom && v.effectiveTo == w.effectiveTo
    requires Offset(v) == Offset(w) && Duration(v) == Duration(w)
    requires Anchored(v) ==> forall day: int :: OnDay(w, day) <==> OnDay(v, day)
    ensures ActiveAt(w, t) <==> ActiveAt(v, t)
  {
    if Anchored(v) {
      assert forall day: int :: Slot(w, day) == Slot(v, day);
      assert forall o: int :: InReachBefore(w, t, o) <==> InReachBefore(v, t, o);
    }
  }

  // ---------- field by field ----------

  predicate SomeNotBlank(ids: seq<string>) {
    exists k :: 0 <= k < |ids| && NotBlank(ids[k])
  }

  lemma TargetsNamed(ids: seq<string>)
    ensures Deduped(ids) != [] <==> SomeNotBlank(ids)
  {
    if Deduped(ids) != [] {
      var id := Deduped(ids)[0];
      DedupedMembers(ids, id);
      var k :| 0 <= k < |ids| && TrimSpace(ids[k]) == id;
      BlankMeans(ids[k]);
      assert NotBlank(ids[k]);
    }
    if k :| 0 <= k < |ids| && NotBlank(ids[k]) {
      BlankMeans(ids[k]);
      DedupedMembers(ids, TrimSpace(ids[k]));
    }
  }

  predicate TimeAndDuration(tod: TimeOfDay, minutes: int) {
    0 <= tod.hour < 24 && 0 <= tod.minute < 60 && 0 < minutes
  }

  /** What is stored and what is refused: a draft needs a title, a known strategy and on-start choice,
      targets of one kind, and what its strategy needs. */
  lemma AcceptableMeans(d: Draft, zones: map<string, int>)
    ensures Acceptable(d, zones) <==>
            && NotBlank(d.title) && !d.strategy.UnknownStrategy? && !d.onStart.UnknownOnStart?
            && (SomeNotBlank(d.jobIDs) <==> !SomeNotBlank(d.dockerHostIDs))
            && if d.strategy == Named(Single) then d.single.Some? && d.single.value.start < d.single.value.end
               else
                 && NotBlank(d.timezone) && TrimSpace(d.timezone) in zones
                 && (d.effectiveFrom.Some? && d.effectiveTo.Some? ==> d.effectiveFrom.value < d.effectiveTo.value)
                 && (d.strategy == Named(Interval) ==>
                       d.recurInterval.Some? && d.recurInterval.value.everyDays > 0
                       && TimeAndDuration(d.recurInterval.value.timeOfDay, d.recurInterval.value.durationMinutes))
                 && (d.strategy == Named(Weekly) ==>
                       d.recurWeekly.Some? && d.recurWeekly.value.days != []
                       && (forall n :: n in d.recurWeekly.value.days ==> 0 <= n < 7)
                       && TimeAndDuration(d.recurWeekly.value.timeOfDay, d.recurWeekly.value.durationMinutes))
                 && (d.strategy == Named(Monthly) ==>
                       d.recurMonthly.Some? && d.recurMonthly.value.days != []
                       && (forall n :: n in d.recurMonthly.value.days ==> 0 < n < 32)
                       && TimeAndDuration(d.recurMonthly.value.timeOfDay, d.recurMonthly.value.durationMinutes))
  {
    BlankMeans(d.title);
    BlankMeans(d.timezone);
    TargetsNamed(d.jobIDs);
    TargetsNamed(d.dockerHostIDs);
  }

  ghost predicate SameButOrder(c: Option<DaysConfig>, n: Option<DaysConfig>) {
    && c.Some? && n.Some? && n.value.timeOfDay == c.value.timeOfDay && n.value.durationMinutes == c.value.durationMinutes
    && Increasing(n.value.days) && (forall d :: d in n.value.days <==> d in c.value.days)
  }

  /** What is stored of an acceptable draft: the choice made for actions in flight, or that they may
      finish if none was; the configuration of its own strategy and no other; and a zone and an
      effective range unless it is a single window. */
  lemma StoredFields(d: Draft, zones: map<string, int>)
    requires Acceptable(d, zones)
    ensures var n := Normalized(d);
      && n.id == d.id && n.active == d.active && n.strategy == d.strategy && n.createdAt == d.createdAt
      && n.title == TrimSpace(d.title)
      && (d.onStart.Chosen? ==> n.onStart == d.onStart)
      && (d.onStart.Blank? || d.onStart.CancelQueued? ==> n.onStart == Chosen(AllowFinish))
      && (if d.strategy == Named(Single) then n.single == d.single else n.single == None)
      && (if d.strategy == Named(Interval) then n.recurInterval == d.recurInterval else n.recurInterval == None)
      && (if d.strategy == Named(Weekly) then SameButOrder(d.recurWeekly, n.recurWeekly) else n.recurWeekly == None)
      && (if d.strategy == Named(Monthly) then SameButOrder(d.recurMonthly, n.recurMonthly) else n.recurMonthly == None)
      && (if d.strategy == Named(Single) then n.timezone == "" && n.effectiveFrom == None && n.effectiveTo == None
          else n.timezone == TrimSpace(d.timezone) && n.effectiveFrom == d.effectiveFrom && n.effectiveTo == d.effectiveTo)
  {
    if d.recurWeekly.Some? { DaysInOrderKeeps(d.recurWeekly.value.days); }
    if d.recurMonthly.Some? { DaysInOrderKeeps(d.recurMonthly.value.days); }
  }

  /** The stored window force-cancels exactly if the draft asked for it, and is in the zone named. */
  lemma StoredWindow(d: Draft, zones: map<string, int>)
    requires Acceptable(d, zones)
    ensures var w := WindowOf(Normalized(d), zones);
      && (w.onStart == ForceCancel <==> d.onStart == Chosen(ForceCancel))
      && (d.strategy != Named(Single) ==> w.zone == zones[TrimSpace(d.timezone)])
      && w.id == d.id && w.active == d.active && Named(w.strategy) == d.strategy && w.createdAt == d.createdAt
  {
    StoredFields(d, zones);
    TrimSpaceTrims(d.timezone);
    TrimSpaceTrims(TrimSpace(d.timezone));
  }
}
