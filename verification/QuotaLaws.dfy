/** What the daily cap of a profile guarantees when senders run at once, write the shared file out
    of order, and the program restarts between sends. */
module QuotaLaws {
  import opened Common
  import opened Quota

  // ---------- Senders at work on a profile ----------

  /** Admitted and not yet counted. */
  predicate InFlight(p: Sender, id: string) {
    p == Sending(id) || p == Sent(id) || p == Counting(id)
  }

  /** Between looking at the counter and counting. */
  predicate Engaged(p: Sender, id: string) {
    p == Checking(id) || InFlight(p, id)
  }

  function FlightCount(senders: seq<Sender>, id: string): nat {
    if senders == [] then 0
    else FlightCount(Front(senders), id) + if InFlight(Last(senders), id) then 1 else 0
  }

  function EngagedCount(senders: seq<Sender>, id: string): nat {
    if senders == [] then 0
    else EngagedCount(Front(senders), id) + if Engaged(Last(senders), id) then 1 else 0
  }

  lemma {:induction false} FlightUpdate(senders: seq<Sender>, w: nat, p: Sender, id: string)
    requires w < |senders|
    ensures FlightCount(senders[w := p], id) ==
      FlightCount(senders, id) - (if InFlight(senders[w], id) then 1 else 0) + (if InFlight(p, id) then 1 else 0)
  {
    if w < |senders| - 1 {
      assert Front(senders[w := p]) == Front(senders)[w := p];
      FlightUpdate(Front(senders), w, p, id);
    } else {
      assert Front(senders[w := p]) == Front(senders);
    }
  }

  lemma {:induction false} EngagedUpdate(senders: seq<Sender>, w: nat, p: Sender, id: string)
    requires w < |senders|
    ensures EngagedCount(senders[w := p], id) ==
      EngagedCount(senders, id) - (if Engaged(senders[w], id) then 1 else 0) + (if Engaged(p, id) then 1 else 0)
  {
    if w < |senders| - 1 {
      assert Front(senders[w := p]) == Front(senders)[w := p];
      EngagedUpdate(Front(senders), w, p, id);
    } else {
      assert Front(senders[w := p]) == Front(senders);
    }
  }

  lemma {:induction false} FlightBelowEngaged(senders: seq<Sender>, id: string)
    ensures FlightCount(senders, id) <= EngagedCount(senders, id) <= |senders|
  {
    if senders != [] { FlightBelowEngaged(Front(senders), id); }
  }

  lemma {:induction false} CheckingNotInFlight(senders: seq<Sender>, w: nat, id: string)
    requires w < |senders| && senders[w] == Checking(id)
    ensures FlightCount(senders, id) + 1 <= EngagedCount(senders, id)
  {
    if w < |senders| - 1 {
      CheckingNotInFlight(Front(senders), w, id);
    } else {
      FlightBelowEngaged(Front(senders), id);
    }
  }

  lemma {:induction false} InFlightCounts(senders: seq<Sender>, w: nat, id: string)
    requires w < |senders| && InFlight(senders[w], id)
    ensures FlightCount(senders, id) >= 1
  {
    if w < |senders| - 1 { InFlightCounts(Front(senders), w, id); }
  }

  lemma {:induction false} NotEngagedLeavesRoom(senders: seq<Sender>, w: nat, id: string)
    requires w < |senders| && !Engaged(senders[w], id)
    ensures EngagedCount(senders, id) < |senders|
  {
    if w < |senders| - 1 {
      NotEngagedLeavesRoom(Front(senders), w, id);
    } else {
      FlightBelowEngaged(Front(senders), id);
    }
  }

  lemma {:induction false} NoneEngaged(senders: seq<Sender>, id: string)
    requires forall w: nat :: w < |senders| ==> !Engaged(senders[w], id)
    ensures EngagedCount(senders, id) == FlightCount(senders, id) == 0
  {
    if senders != [] { NoneEngaged(Front(senders), id); }
  }

  // ---------- Restrictions on runs ----------

  /** What a run observes about profile `id`: at most `crowd` senders are engaged with it at once;
      and, if so required, a restart finds today's count in the file, and no send is counted while
      a snapshot taken earlier is still to be written. */
  datatype Rules = Rules(id: string, crowd: nat, current: bool, quiet: bool)

  function TodayOf(dayKey: int, dayCount: nat, today: int): nat {
    if dayKey == today then dayCount else 0
  }

  function UsedToday(s: State, id: string): nat {
    if id in s.usage then TodayOf(s.usage[id].dayKey, s.usage[id].dayCount, s.today) else 0
  }

  function SavedToday(s: State, id: string): nat {
    if id in s.saved then TodayOf(s.saved[id].dayKey, s.saved[id].dayCount, s.today) else 0
  }

  /** The file has today's count of the profile as it is in memory. */
  predicate FileCurrent(s: State, id: string) {
    SavedToday(s, id) == UsedToday(s, id)
  }

  predicate NobodySaving(s: State) {
    forall w: nat :: w < |s.senders| ==> !s.senders[w].Saving?
  }

  predicate CountsSend(s: State, e: Event, id: string) {
    e.Advance? && e.w < |s.senders| && s.senders[e.w] == Counting(id)
  }

  predicate Allowed(s: State, e: Event, r: Rules) {
    && (e.Begin? && e.id == r.id ==> EngagedCount(s.senders, r.id) < r.crowd)
    && (r.current && e.Restart? ==> FileCurrent(s, r.id))
    && (r.quiet && CountsSend(s, e, r.id) ==> NobodySaving(s))
  }

  ghost predicate Obeys(s: State, events: seq<Event>, r: Rules) {
    events != [] ==>
      && Obeys(s, Front(events), r)
      && Exec(Step, s, Front(events)).Some?
      && Allowed(Exec(Step, s, Front(events)).value, Last(events), r)
  }

  // ---------- The counter ----------

  function DayCount(s: State, id: string): nat {
    if id in s.usage then s.usage[id].dayCount else 0
  }

  /** The counter and the sends that are still to be counted. */
  predicate WithinQuota(s: State, id: string, k: nat) {
    && EngagedCount(s.senders, id) <= k
    && DayCount(s, id) + FlightCount(s.senders, id) <= LimitsOf(s, id).daily + k - 1
  }

  predicate RecordWithin(m: map<string, Record>, id: string, cap: int) {
    id in m ==> m[id].dayCount <= cap
  }

  /** No record, saved or about to be saved, exceeds what the counter can reach. */
  predicate SavedWithin(s: State, id: string, k: nat) {
    var cap := LimitsOf(s, id).daily + k - 1;
    && RecordWithin(s.saved, id, cap)
    && (forall w: nat :: w < |s.senders| && s.senders[w].Saving? ==> RecordWithin(s.senders[w].snapshot, id, cap))
  }

  predicate Capped(r: Rules, s: State) {
    r.crowd > 0 && LimitsOf(s, r.id).daily > 0
  }

  /** One sender moves: the counter and the sends in flight grow together by no more than before,
      or the sender is admitted below the limit. */
  lemma MoveWithin(s: State, t: State, w: nat, id: string, k: nat)
    requires WithinQuota(s, id, k) && LimitsOf(s, id).daily > 0
    requires w < |s.senders| && |t.senders| == |s.senders| && t.senders == s.senders[w := t.senders[w]]
    requires t.limits == s.limits
    requires Engaged(t.senders[w], id) && !Engaged(s.senders[w], id) ==> EngagedCount(s.senders, id) < k
    requires
      || DayCount(t, id) + (if InFlight(t.senders[w], id) then 1 else 0)
         <= DayCount(s, id) + (if InFlight(s.senders[w], id) then 1 else 0)
      || (s.senders[w] == Checking(id) && DayCount(t, id) < LimitsOf(s, id).daily)
    ensures WithinQuota(t, id, k)
  {
    FlightUpdate(s.senders, w, t.senders[w], id);
    EngagedUpdate(s.senders, w, t.senders[w], id);
    if s.senders[w] == Checking(id) { CheckingNotInFlight(s.senders, w, id); }
  }

  /** What an advancing sender changes besides the counters. */
  lemma AdvanceFrame(s: State, w: nat)
    requires w < |s.senders| && AdvanceStep(s, w).Some?
    ensures var t := AdvanceStep(s, w).value;
      && t.limits == s.limits && t.today == s.today
      && |t.senders| == |s.senders| && t.senders == s.senders[w := t.senders[w]]
      && (t.senders[w].Saving? ==> t.senders[w].snapshot == Snapshot(s.usage))
      && t.saved == if s.senders[w].Saving? then s.senders[w].snapshot else s.saved
  {}

  lemma AdvanceWithin(s: State, w: nat, id: string, k: nat)
    requires WithinQuota(s, id, k) && LimitsOf(s, id).daily > 0 && w < |s.senders| && AdvanceStep(s, w).Some?
    ensures WithinQuota(AdvanceStep(s, w).value, id, k)
  {
    AdvanceFrame(s, w);
    MoveWithin(s, AdvanceStep(s, w).value, w, id, k);
  }

  lemma QuotaStep(s: State, e: Event, r: Rules)
    requires Capped(r, s) && WithinQuota(s, r.id, r.crowd) && SavedWithin(s, r.id, r.crowd)
    requires Step(s, e).Some? && Allowed(s, e, r)
    ensures WithinQuota(Step(s, e).value, r.id, r.crowd)
  {
    match e
    case Begin(w, _) => MoveWithin(s, Step(s, e).value, w, r.id, r.crowd);
    case Advance(w) => AdvanceWithin(s, w, r.id, r.crowd);
    case SendFails(w) => MoveWithin(s, Step(s, e).value, w, r.id, r.crowd);
    case Clock(_, _) =>
    case Restart => NoneEngaged(s.senders, r.id);
  }

  lemma SavedAdvance(s: State, w: nat, id: string, k: nat)
    requires WithinQuota(s, id, k) && SavedWithin(s, id, k) && w < |s.senders| && AdvanceStep(s, w).Some?
    ensures SavedWithin(AdvanceStep(s, w).value, id, k)
  {
    AdvanceFrame(s, w);
    SavedMove(s, AdvanceStep(s, w).value, w, id, k);
  }

  lemma SavedMove(s: State, t: State, w: nat, id: string, k: nat)
    requires WithinQuota(s, id, k) && SavedWithin(s, id, k)
    requires w < |s.senders| && |t.senders| == |s.senders| && t.senders == s.senders[w := t.senders[w]]
    requires t.limits == s.limits
    requires t.senders[w].Saving? ==> t.senders[w].snapshot == Snapshot(s.usage)
    requires t.saved == if s.senders[w].Saving? then s.senders[w].snapshot else s.saved
    ensures SavedWithin(t, id, k)
  {}

  lemma SavedStep(s: State, e: Event, id: string, k: nat)
    requires WithinQuota(s, id, k) && SavedWithin(s, id, k) && Step(s, e).Some?
    ensures SavedWithin(Step(s, e).value, id, k)
  {
    if e.Advance? { SavedAdvance(s, e.w, id, k); }
  }

  lemma SettingsStay(s: State, e: Event)
    requires Step(s, e).Some?
    ensures var t := Step(s, e).value; t.limits == s.limits && |t.senders| == |s.senders| && s.today <= t.today
  {
    if e.Advance? { AdvanceFrame(s, e.w); }
  }

  /** With at most `k` senders at work on a profile at once, its day counter plus the admitted sends
      still to be counted never exceed the daily limit by more than `k - 1`, whatever is written
      and restored. */
  lemma {:induction false} QuotaBound(init: State, events: seq<Event>, r: Rules)
    requires Init(init) && Capped(r, init) && Exec(Step, init, events).Some? && Obeys(init, events, r)
    ensures var s := Exec(Step, init, events).value;
      && s.limits == init.limits && |s.senders| == |init.senders|
      && WithinQuota(s, r.id, r.crowd) && SavedWithin(s, r.id, r.crowd)
  {
    if events == [] {
      NoneEngaged(init.senders, r.id);
    } else {
      QuotaBound(init, Front(events), r);
      var s := Exec(Step, init, Front(events)).value;
      SettingsStay(s, Last(events));
      QuotaStep(s, Last(events), r);
      SavedStep(s, Last(events), r.id, r.crowd);
    }
  }

  /** No profile ever has more senders than there are. */
  lemma {:induction false} CrowdIsAll(s: State, events: seq<Event>, id: string)
    requires Exec(Step, s, events).Some?
    ensures Obeys(s, events, Rules(id, |s.senders|, false, false)) && |Exec(Step, s, events).value.senders| == |s.senders|
  {
    if events != [] {
      CrowdIsAll(s, Front(events), id);
      var t, e := Exec(Step, s, Front(events)).value, Last(events);
      SettingsStay(t, e);
      if e.Begin? { NotEngagedLeavesRoom(t.senders, e.w, id); }
    }
  }

  // ---------- The sends counted ----------

  function CountOn(counted: seq<Count>, id: string, day: int): nat {
    if counted == [] then 0
    else CountOn(Front(counted), id, day) + if Last(counted) == Count(id, day) then 1 else 0
  }

  lemma CountNext(counted: seq<Count>, c: Count, id: string, day: int)
    ensures CountOn(counted + [c], id, day) == CountOn(counted, id, day) + if c == Count(id, day) then 1 else 0
  {
    SplitLast(counted, c);
  }

  predicate NoneOn(counted: seq<Count>, id: string, day: int) {
    CountOn(counted, id, day) == 0
  }

  ghost predicate NoneFrom(counted: seq<Count>, id: string, day: int) {
    forall d: int :: day <= d ==> NoneOn(counted, id, d)
  }

  /** `count` sends were counted on `day`, none later. */
  ghost predicate Accounts(counted: seq<Count>, id: string, day: int, count: nat) {
    CountOn(counted, id, day) == count && NoneFrom(counted, id, day + 1)
  }

  predicate CappedOn(counted: seq<Count>, id: string, day: int, cap: int) {
    CountOn(counted, id, day) <= cap
  }

  ghost predicate CappedAlways(counted: seq<Count>, id: string, cap: int) {
    forall d: int :: CappedOn(counted, id, d, cap)
  }

  predicate NobodyCounting(s: State, id: string) {
    forall w: nat :: w < |s.senders| ==> s.senders[w] != Counting(id)
  }

  /** The counter is right for its own day, or it is an old one from the file and nothing has been
      counted today. */
  ghost predicate UsageAccounts(s: State, id: string) {
    if id !in s.usage then NoneFrom(s.counted, id, s.today)
    else
      var u := s.usage[id];
      && u.dayKey <= s.today
      && (|| Accounts(s.counted, id, u.dayKey, u.dayCount)
          || (u.dayKey < s.today && NoneFrom(s.counted, id, s.today) && NobodyCounting(s, id)))
  }

  /** A record is of a day that has come, and of sends that were counted. */
  ghost predicate RecordTrue(m: map<string, Record>, s: State, id: string) {
    id in m ==> m[id].dayKey <= s.today && m[id].dayCount <= CountOn(s.counted, id, m[id].dayKey)
  }

  ghost predicate RecordsTrue(s: State, id: string) {
    && RecordTrue(s.saved, s, id)
    && (forall w: nat :: w < |s.senders| && s.senders[w].Saving? ==> RecordTrue(s.senders[w].snapshot, s, id))
    && (id in s.usage ==> s.usage[id].dayCount <= CountOn(s.counted, id, s.usage[id].dayKey))
  }

  ghost predicate Accounted(s: State, id: string, cap: int) {
    UsageAccounts(s, id) && RecordsTrue(s, id) && CappedAlways(s.counted, id, cap)
  }

  /** Counting one more send on the counter's day. */
  lemma AccountsNext(counted: seq<Count>, id: string, day: int, count: nat, cap: int)
    requires Accounts(counted, id, day, count) && count < cap && CappedAlways(counted, id, cap)
    ensures Accounts(counted + [Count(id, day)], id, day, count + 1)
    ensures CappedAlways(counted + [Count(id, day)], id, cap)
  {
    CountNext(counted, Count(id, day), id, day);
    forall d: int | d != day
      ensures CappedOn(counted + [Count(id, day)], id, d, cap)
      ensures NoneOn(counted, id, d) ==> NoneOn(counted + [Count(id, day)], id, d)
    {
      CountNext(counted, Count(id, day), id, d);
      assert CappedOn(counted, id, d, cap);
    }
  }

  /** Counting a send of another profile. */
  lemma OtherCounted(counted: seq<Count>, c: Count, id: string)
    requires c.id != id
    ensures forall d: int :: CountOn(counted + [c], id, d) == CountOn(counted, id, d)
  {
    forall d: int ensures CountOn(counted + [c], id, d) == CountOn(counted, id, d) {
      CountNext(counted, c, id, d);
    }
  }

  /** Refreshing the counter for today makes it right for today. */
  lemma RefreshAccounts(s: State, id: string)
    requires UsageAccounts(s, id)
    ensures Accounts(s.counted, id, s.today, RefreshedNow(s, id).dayCount) && RefreshedNow(s, id).dayKey == s.today
  {
    if id !in s.usage {
      assert NoneOn(s.counted, id, s.today);
    } else if s.usage[id].dayKey < s.today {
      assert NoneOn(s.counted, id, s.today);
    }
  }

  /** A sender moves and refreshes the counter of the profile it works on, or no counter. */
  lemma MoveAccounted(s: State, t: State, w: nat, id: string, x: string, cap: int)
    requires Accounted(s, id, cap)
    requires w < |s.senders| && |t.senders| == |s.senders| && t.senders == s.senders[w := t.senders[w]]
    requires t.counted == s.counted && t.today == s.today && t.saved == s.saved && !t.senders[w].Saving?
    requires t.usage == s.usage[x := RefreshedNow(s, x)] || (t.usage == s.usage && t.senders[w] != Counting(id))
    requires t.senders[w] == Counting(id) ==> x == id
    ensures Accounted(t, id, cap)
  {
    RefreshAccounts(s, id);
  }

  /** A sender snapshots the counters, or writes a snapshot. */
  lemma SaveAccounted(s: State, t: State, w: nat, id: string, cap: int)
    requires Accounted(s, id, cap)
    requires w < |s.senders| && |t.senders| == |s.senders| && t.senders == s.senders[w := t.senders[w]]
    requires t.counted == s.counted && t.today == s.today && t.usage == s.usage
    requires t.senders[w] == Saving(Snapshot(s.usage)) || t.senders[w] == Ready
    requires t.saved == if s.senders[w].Saving? then s.senders[w].snapshot else s.saved
    ensures Accounted(t, id, cap)
  {
    SavedPerProfile(s.usage, s.saved, id);
  }

  lemma CountsOnlyGrow(counted: seq<Count>, c: Count, id: string, day: int)
    ensures CountOn(counted, id, day) <= CountOn(counted + [c], id, day)
  {
    CountNext(counted, c, id, day);
  }

  lemma RecordStaysTrue(m: map<string, Record>, s: State, t: State, id: string, c: Count)
    requires RecordTrue(m, s, id) && t.counted == s.counted + [c] && s.today <= t.today
    ensures RecordTrue(m, t, id)
  {
    if id in m { CountsOnlyGrow(s.counted, c, id, m[id].dayKey); }
  }

  /** A sender counts. */
  lemma CountAccounted(s: State, w: nat, x: string, id: string, cap: int)
    requires Accounted(s, id, cap) && w < |s.senders| && s.senders[w] == Counting(x) && x in s.usage
    requires x == id ==> s.usage[id].dayCount < cap
    ensures Accounted(AdvanceStep(s, w).value, id, cap)
  {
    var t := AdvanceStep(s, w).value;
    var c := Count(x, s.usage[x].dayKey);
    RecordStaysTrue(s.saved, s, t, id, c);
    forall v: nat | v < |t.senders| && t.senders[v].Saving? ensures RecordTrue(t.senders[v].snapshot, t, id) {
      assert v != w && t.senders[v] == s.senders[v];
      RecordStaysTrue(s.senders[v].snapshot, s, t, id, c);
    }
    if x == id {
      AccountsNext(s.counted, id, s.usage[id].dayKey, s.usage[id].dayCount, cap);
    } else {
      OtherCounted(s.counted, c, id);
      assert forall d: int :: NoneOn(s.counted, id, d) ==> NoneOn(t.counted, id, d);
      assert forall d: int :: CappedOn(s.counted, id, d, cap) ==> CappedOn(t.counted, id, d, cap);
    }
  }

  lemma AdvanceAccounted(s: State, w: nat, id: string, k: nat)
    requires WithinQuota(s, id, k) && Accounted(s, id, LimitsOf(s, id).daily + k - 1)
    requires w < |s.senders| && AdvanceStep(s, w).Some?
    ensures Accounted(AdvanceStep(s, w).value, id, LimitsOf(s, id).daily + k - 1)
  {
    var cap, t, p := LimitsOf(s, id).daily + k - 1, AdvanceStep(s, w).value, s.senders[w];
    AdvanceFrame(s, w);
    if p.Counting? {
      if p.id == id { InFlightCounts(s.senders, w, id); }
      CountAccounted(s, w, p.id, id, cap);
    } else if p.Persisting? || p.Saving? {
      SaveAccounted(s, t, w, id, cap);
    } else {
      MoveAccounted(s, t, w, id, p.id, cap);
    }
  }

  /** Today's count is the number of sends counted today. */
  lemma TodayCounted(s: State, id: string)
    requires UsageAccounts(s, id)
    ensures CountOn(s.counted, id, s.today) == UsedToday(s, id) && NoneFrom(s.counted, id, s.today + 1)
  {
    if id !in s.usage || s.usage[id].dayKey < s.today {
      assert NoneOn(s.counted, id, s.today);
    }
  }

  lemma NothingToday(counted: seq<Count>, id: string, today: int)
    requires CountOn(counted, id, today) == 0 && NoneFrom(counted, id, today + 1)
    ensures NoneFrom(counted, id, today)
  {
    assert NoneOn(counted, id, today);
  }

  /** Restoring today's count as it was keeps the counter right. */
  lemma RestartAccounted(s: State, id: string, cap: int)
    requires Accounted(s, id, cap) && Idle(s) && FileCurrent(s, id)
    ensures Accounted(Step(s, Restart).value, id, cap)
  {
    SavedPerProfile(s.usage, s.saved, id);
    TodayCounted(s, id);
    if SavedToday(s, id) == 0 { NothingToday(s.counted, id, s.today); }
  }

  lemma LaterAccounted(s: State, t: State, id: string, cap: int)
    requires Accounted(s, id, cap) && s.today <= t.today
    requires t.counted == s.counted && t.usage == s.usage && t.saved == s.saved && t.senders == s.senders
    ensures Accounted(t, id, cap)
  {
  }

  lemma AccountedStep(s: State, e: Event, r: Rules)
    requires Capped(r, s) && WithinQuota(s, r.id, r.crowd) && Accounted(s, r.id, LimitsOf(s, r.id).daily + r.crowd - 1)
    requires Step(s, e).Some? && Allowed(s, e, r) && (e.Restart? ==> FileCurrent(s, r.id))
    ensures Accounted(Step(s, e).value, r.id, LimitsOf(s, r.id).daily + r.crowd - 1)
  {
    var cap := LimitsOf(s, r.id).daily + r.crowd - 1;
    match e
    case Begin(w, x) => MoveAccounted(s, Step(s, e).value, w, r.id, x, cap);
    case Advance(w) => AdvanceAccounted(s, w, r.id, r.crowd);
    case SendFails(w) => MoveAccounted(s, Step(s, e).value, w, r.id, r.id, cap);
    case Clock(_, _) => LaterAccounted(s, Step(s, e).value, r.id, cap);
    case Restart => RestartAccounted(s, r.id, cap);
  }

  /** Everything that is kept if restarts find today's count in the file. */
  ghost predicate Kept(s: State, id: string, k: nat) {
    WithinQuota(s, id, k) && SavedWithin(s, id, k) && Accounted(s, id, LimitsOf(s, id).daily + k - 1)
  }

  lemma KeptStep(s: State, e: Event, r: Rules)
    requires Capped(r, s) && Kept(s, r.id, r.crowd)
    requires Step(s, e).Some? && Allowed(s, e, r) && (e.Restart? ==> FileCurrent(s, r.id))
    ensures Kept(Step(s, e).value, r.id, r.crowd)
  {
    SettingsStay(s, e);
    QuotaStep(s, e, r);
    SavedStep(s, e, r.id, r.crowd);
    AccountedStep(s, e, r);
  }

  lemma KeptInit(s: State, r: Rules)
    requires Init(s) && Capped(r, s)
    ensures Kept(s, r.id, r.crowd)
  {
    NoneEngaged(s.senders, r.id);
    assert NoneFrom(s.counted, r.id, s.today);
    assert CappedAlways(s.counted, r.id, LimitsOf(s, r.id).daily + r.crowd - 1);
  }

  lemma {:induction false} KeptAlways(s: State, events: seq<Event>, r: Rules)
    requires Capped(r, s) && Kept(s, r.id, r.crowd) && r.current
    requires Exec(Step, s, events).Some? && Obeys(s, events, r)
    ensures var t := Exec(Step, s, events).value;
      t.limits == s.limits && |t.senders| == |s.senders| && Kept(t, r.id, r.crowd)
  {
    if events != [] {
      KeptAlways(s, Front(events), r);
      SettingsStay(Exec(Step, s, Front(events)).value, Last(events));
      KeptStep(Exec(Step, s, Front(events)).value, Last(events), r);
    }
  }

  /** With at most `k` senders at work on a profile at once, no local day gets more than
      `daily + k - 1` counted sends, if every restart finds today's count in the file and the local
      day does not go back. */
  lemma CountedBound(init: State, events: seq<Event>, r: Rules, day: int)
    requires Init(init) && Capped(r, init) && r.current && Exec(Step, init, events).Some? && Obeys(init, events, r)
    ensures CountOn(Exec(Step, init, events).value.counted, r.id, day) <= LimitsOf(init, r.id).daily + r.crowd - 1
  {
    KeptInit(init, r);
    KeptAlways(init, events, r);
    KeptIsCapped(Exec(Step, init, events).value, r.id, r.crowd, day);
  }

  lemma KeptIsCapped(s: State, id: string, k: nat, day: int)
    requires Kept(s, id, k)
    ensures CountOn(s.counted, id, day) <= LimitsOf(s, id).daily + k - 1
  {
    assert CappedOn(s.counted, id, day, LimitsOf(s, id).daily + k - 1);
  }

  // ---------- When the file is current ----------

  function RecordToday(m: map<string, Record>, id: string, today: int): nat {
    if id in m then TodayOf(m[id].dayKey, m[id].dayCount, today) else 0
  }

  /** The sender has yet to write a snapshot with the last count of the profile. */
  predicate Owes(p: Sender, id: string) {
    p == Persisting(id) || p.Saving?
  }

  /** Snapshots to be written have today's count, and so has the file or somebody will write it. */
  ghost predicate FileFollows(s: State, id: string) {
    && (forall w: nat :: w < |s.senders| && s.senders[w].Saving? ==>
          RecordToday(s.senders[w].snapshot, id, s.today) == UsedToday(s, id))
    && (FileCurrent(s, id) || exists w: nat :: w < |s.senders| && Owes(s.senders[w], id))
  }

  /** A sender moves on without counting, snapshotting or writing. */
  lemma MoveFollows(s: State, t: State, w: nat, id: string)
    requires FileFollows(s, id)
    requires w < |s.senders| && |t.senders| == |s.senders| && t.senders == s.senders[w := t.senders[w]]
    requires t.today == s.today && t.saved == s.saved && UsedToday(t, id) == UsedToday(s, id)
    requires !Owes(s.senders[w], id) && !t.senders[w].Saving?
    ensures FileFollows(t, id)
  {
    if !FileCurrent(s, id) {
      var v: nat :| v < |s.senders| && Owes(s.senders[v], id);
      assert Owes(t.senders[v], id);
    }
  }

  lemma CountFollows(s: State, w: nat, id: string)
    requires FileFollows(s, id) && w < |s.senders| && s.senders[w] == Counting(id) && id in s.usage && NobodySaving(s)
    ensures FileFollows(AdvanceStep(s, w).value, id)
  {
    var t := AdvanceStep(s, w).value;
    assert Owes(t.senders[w], id);
    assert forall v: nat :: v < |s.senders| && v != w ==> t.senders[v] == s.senders[v];
  }

  lemma SaveFollows(s: State, w: nat, id: string)
    requires FileFollows(s, id) && w < |s.senders| && (s.senders[w].Persisting? || s.senders[w].Saving?)
    ensures FileFollows(AdvanceStep(s, w).value, id)
  {
    var t := AdvanceStep(s, w).value;
    SavedPerProfile(s.usage, s.saved, id);
    assert forall v: nat :: v < |s.senders| && v != w ==> t.senders[v] == s.senders[v];
    if s.senders[w].Persisting? { assert Owes(t.senders[w], id); }
  }

  lemma AdvanceFollows(s: State, w: nat, id: string)
    requires FileFollows(s, id) && w < |s.senders| && AdvanceStep(s, w).Some?
    requires s.senders[w] == Counting(id) ==> NobodySaving(s)
    ensures FileFollows(AdvanceStep(s, w).value, id)
  {
    var p := s.senders[w];
    AdvanceFrame(s, w);
    if p == Counting(id) {
      CountFollows(s, w, id);
    } else if p.Persisting? || p.Saving? {
      SaveFollows(s, w, id);
    } else {
      MoveFollows(s, AdvanceStep(s, w).value, w, id);
    }
  }

  /** On a new day nothing has today's count yet. */
  lemma LaterFollows(s: State, t: State, id: string)
    requires FileFollows(s, id) && UsageAccounts(s, id) && RecordsTrue(s, id) && s.today <= t.today
    requires t.usage == s.usage && t.saved == s.saved && t.senders == s.senders
    ensures FileFollows(t, id)
  {
    if s.today == t.today && !FileCurrent(s, id) {
      var v: nat :| v < |s.senders| && Owes(s.senders[v], id);
      assert Owes(t.senders[v], id);
    }
  }

  lemma RestartFollows(s: State, id: string)
    requires FileFollows(s, id) && Idle(s)
    ensures FileCurrent(s, id) && FileFollows(Step(s, Restart).value, id)
  {
    SavedPerProfile(s.usage, s.saved, id);
  }

  lemma FollowsStep(s: State, e: Event, id: string)
    requires FileFollows(s, id) && UsageAccounts(s, id) && RecordsTrue(s, id) && Step(s, e).Some?
    requires CountsSend(s, e, id) ==> NobodySaving(s)
    ensures FileFollows(Step(s, e).value, id)
  {
    match e
    case Begin(w, _) => MoveFollows(s, Step(s, e).value, w, id);
    case Advance(w) => AdvanceFollows(s, w, id);
    case SendFails(w) => MoveFollows(s, Step(s, e).value, w, id);
    case Clock(_, _) => LaterFollows(s, Step(s, e).value, id);
    case Restart => RestartFollows(s, id);
  }

  lemma {:induction false} FollowsAlways(init: State, events: seq<Event>, r: Rules)
    requires Init(init) && Capped(r, init) && r.quiet && Exec(Step, init, events).Some? && Obeys(init, events, r)
    ensures var s := Exec(Step, init, events).value;
      && s.limits == init.limits && |s.senders| == |init.senders|
      && Kept(s, r.id, r.crowd) && FileFollows(s, r.id)
    ensures Obeys(init, events, r.(current := true))
  {
    if events == [] {
      KeptInit(init, r);
    } else {
      FollowsAlways(init, Front(events), r);
      var s, e := Exec(Step, init, Front(events)).value, Last(events);
      if e.Restart? { RestartFollows(s, r.id); }
      SettingsStay(s, e);
      KeptStep(s, e, r);
      FollowsStep(s, e, r.id);
    }
  }

  /** If no send of the profile is counted while an earlier snapshot is still to be written, then
      between sends the file has today's count of the profile. */
  lemma QuietFileIsCurrent(init: State, events: seq<Event>, r: Rules)
    requires Init(init) && Capped(r, init) && r.quiet && Exec(Step, init, events).Some? && Obeys(init, events, r)
    requires Idle(Exec(Step, init, events).value)
    ensures FileCurrent(Exec(Step, init, events).value, r.id)
  {
    FollowsAlways(init, events, r);
  }

  /** So with one sender at a time on the profile, no local day gets more counted sends than the
      limit, whatever restarts happen between sends, as long as the local day does not go back. */
  lemma DailyLimitHolds(init: State, events: seq<Event>, id: string, day: int)
    requires Init(init) && LimitsOf(init, id).daily > 0 && Exec(Step, init, events).Some?
    requires Obeys(init, events, Rules(id, 1, false, true))
    ensures CountOn(Exec(Step, init, events).value.counted, id, day) <= LimitsOf(init, id).daily
  {
    FollowsAlways(init, events, Rules(id, 1, false, true));
    KeptIsCapped(Exec(Step, init, events).value, id, 1, day);
  }

  /** A single sender for all profiles meets these conditions. */
  lemma {:induction false} OneSenderIsQuiet(init: State, events: seq<Event>, id: string)
    requires |init.senders| == 1 && Exec(Step, init, events).Some?
    ensures Obeys(init, events, Rules(id, 1, false, true)) && |Exec(Step, init, events).value.senders| == 1
  {
    if events != [] {
      OneSenderIsQuiet(init, Front(events), id);
      SettingsStay(Exec(Step, init, Front(events)).value, Last(events));
      AloneIsQuiet(Exec(Step, init, Front(events)).value, Last(events), id);
    }
  }

  lemma AloneIsQuiet(s: State, e: Event, id: string)
    requires |s.senders| == 1 && Step(s, e).Some?
    ensures Allowed(s, e, Rules(id, 1, false, true))
  {
    if e.Begin? { NotEngagedLeavesRoom(s.senders, e.w, id); }
  }

  // ---------- Runs that reach the bounds ----------

  ghost predicate Leads(s: State, events: seq<Event>, t: State, r: Rules) {
    Exec(Step, s, events) == Some(t) && Obeys(s, events, r)
  }

  lemma Onward(s: State, events: seq<Event>, t: State, e: Event, u: State, r: Rules)
    requires Leads(s, events, t, r) && Step(t, e) == Some(u) && Allowed(t, e, r)
    ensures Leads(s, events + [e], u, r)
  {
    ExecSnoc(Step, s, events, e);
    SplitLast(events, e);
  }

  lemma {:induction false} ObeysAppend(s: State, events: seq<Event>, more: seq<Event>, r: Rules)
    requires Exec(Step, s, events).Some? && Exec(Step, Exec(Step, s, events).value, more).Some?
    requires Obeys(s, events, r) && Obeys(Exec(Step, s, events).value, more, r)
    ensures Obeys(s, events + more, r)
  {
    if more == [] {
      assert events + more == events;
    } else {
      FrontOfSum(events, more);
      ObeysAppend(s, events, Front(more), r);
      ExecAppend(Step, s, events, Front(more));
    }
  }

  lemma Join(s: State, events: seq<Event>, t: State, more: seq<Event>, u: State, r: Rules)
    requires Leads(s, events, t, r) && Leads(t, more, u, r)
    ensures Leads(s, events + more, u, r)
  {
    ExecAppend(Step, s, events, more);
    ObeysAppend(s, events, more, r);
  }

  /** The profile has a daily limit and no burst limit. */
  predicate DailyOnly(s: State, id: string) {
    LimitsOf(s, id).daily > 0 && LimitsOf(s, id).burst <= 0
  }

  lemma RefreshTwice(s: State, id: string)
    ensures RefreshedNow(WithRefreshed(s, id), id) == RefreshedNow(s, id)
    ensures RefreshedNow(s, id).dayCount == UsedToday(s, id) && RefreshedNow(s, id).dayKey == s.today
  {}

  /** A ready sender looks at a counter below its limit and is admitted. */
  lemma Admits(s: State, w: nat, id: string, r: Rules) returns (events: seq<Event>)
    requires DailyOnly(s, id) && UsedToday(s, id) < LimitsOf(s, id).daily && w < |s.senders| && s.senders[w] == Ready
    requires !r.quiet && (id == r.id ==> EngagedCount(s.senders, id) < r.crowd)
    ensures Leads(s, events, Moved(WithRefreshed(s, id), w, Sending(id)), r)
  {
    RefreshTwice(s, id);
    var a := Moved(WithRefreshed(s, id), w, Checking(id));
    var b := Moved(WithRefreshed(s, id), w, Sending(id));
    assert Leads(s, [], s, r);
    Onward(s, [], s, Begin(w, id), a, r);
    assert AdvanceStep(a, w) == Some(Moved(a, w, Sending(id)));
    assert a.senders[w := Sending(id)] == b.senders;
    Onward(s, [Begin(w, id)], a, Advance(w), b, r);
    assert [] + [Begin(w, id)] == [Begin(w, id)];
    events := [Begin(w, id)] + [Advance(w)];
  }

  function WithCounted(s: State, id: string): State {
    s.(usage := s.usage[id := Counted(RefreshedNow(s, id))], counted := s.counted + [Count(id, s.today)])
  }

  /** An admitted sender sends and counts on the current day. */
  lemma SendsAndCounts(s: State, w: nat, id: string, r: Rules) returns (events: seq<Event>)
    requires w < |s.senders| && s.senders[w] == Sending(id) && !r.quiet
    ensures Leads(s, events, Moved(WithCounted(s, id), w, Persisting(id)), r)
  {
    RefreshTwice(s, id);
    var a := Moved(s, w, Sent(id));
    var b := Moved(WithRefreshed(a, id), w, Counting(id));
    var c := Moved(WithCounted(s, id), w, Persisting(id));
    assert Leads(s, [], s, r);
    Onward(s, [], s, Advance(w), a, r);
    assert [] + [Advance(w)] == [Advance(w)];
    Onward(s, [Advance(w)], a, Advance(w), b, r);
    CountsNow(s, b, w, id);
    events := [Advance(w)] + [Advance(w)];
    Onward(s, events, b, Advance(w), c, r);
    events := events + [Advance(w)];
  }

  lemma CountsNow(s: State, b: State, w: nat, id: string)
    requires w < |s.senders| && s.senders[w] == Sending(id)
    requires b == Moved(WithRefreshed(Moved(s, w, Sent(id)), id), w, Counting(id))
    ensures Step(b, Advance(w)) == Some(Moved(WithCounted(s, id), w, Persisting(id)))
  {
    RefreshTwice(s, id);
    assert RefreshedNow(Moved(s, w, Sent(id)), id) == RefreshedNow(s, id);
    var c := Moved(WithCounted(s, id), w, Persisting(id));
    var d := AdvanceStep(b, w).value;
    assert d.senders == c.senders && d.usage == c.usage && d.counted == c.counted;
  }

  /** From looking at the counter to a snapshot that is still to be written. */
  lemma SendsUpToSave(s: State, w: nat, id: string, r: Rules) returns (events: seq<Event>, t: State)
    requires DailyOnly(s, id) && UsedToday(s, id) < LimitsOf(s, id).daily && w < |s.senders| && s.senders[w] == Ready
    requires !r.quiet && (id == r.id ==> EngagedCount(s.senders, id) < r.crowd)
    ensures Leads(s, events, t, r)
    ensures t == Moved(WithCounted(s, id), w, Saving(Snapshot(WithCounted(s, id).usage)))
  {
    RefreshTwice(s, id);
    var a := Moved(WithRefreshed(s, id), w, Sending(id));
    var b := Moved(WithCounted(a, id), w, Persisting(id));
    t := Moved(WithCounted(s, id), w, Saving(Snapshot(WithCounted(s, id).usage)));
    var first := Admits(s, w, id, r);
    var more := SendsAndCounts(a, w, id, r);
    Join(s, first, a, more, b, r);
    assert b.usage == WithCounted(s, id).usage && b.counted == WithCounted(s, id).counted;
    assert b.senders[w := t.senders[w]] == t.senders;
    Onward(s, first + more, b, Advance(w), t, r);
    events := first + more + [Advance(w)];
  }

  /** One send from beginning to end. */
  lemma SendsOnce(s: State, w: nat, id: string, r: Rules) returns (events: seq<Event>, t: State)
    requires DailyOnly(s, id) && UsedToday(s, id) < LimitsOf(s, id).daily && w < |s.senders| && s.senders[w] == Ready
    requires !r.quiet && (id == r.id ==> EngagedCount(s.senders, id) < r.crowd)
    ensures Leads(s, events, t, r)
    ensures t == WithCounted(s, id).(saved := Snapshot(WithCounted(s, id).usage))
  {
    var first, u := SendsUpToSave(s, w, id, r);
    t := WithCounted(s, id).(saved := Snapshot(WithCounted(s, id).usage));
    assert u.senders[w := Ready] == s.senders;
    Onward(s, first, u, Advance(w), t, r);
    events := first + [Advance(w)];
  }

  /** `t` is `s` after `n` more sends of the profile counted today. */
  predicate SentMore(s: State, t: State, id: string, n: nat) {
    && t.today == s.today && t.limits == s.limits && |t.senders| == |s.senders|
    && UsedToday(t, id) == UsedToday(s, id) + n
    && CountOn(t.counted, id, s.today) == CountOn(s.counted, id, s.today) + n
  }

  lemma CountedIsMore(s: State, id: string)
    ensures SentMore(s, WithCounted(s, id), id, 1)
  {
    RefreshTwice(s, id);
    CountNext(s.counted, Count(id, s.today), id, s.today);
  }

  lemma SentMoreJoin(s: State, u: State, t: State, id: string, n: nat, m: nat)
    requires SentMore(s, u, id, n) && SentMore(u, t, id, m)
    ensures SentMore(s, t, id, n + m)
  {}

  lemma CountedStays(s: State, id: string)
    ensures var u := WithCounted(s, id).(saved := Snapshot(WithCounted(s, id).usage));
      SentMore(s, u, id, 1) && u.senders == s.senders && LimitsOf(u, id) == LimitsOf(s, id)
  {
    CountedIsMore(s, id);
  }

  /** One ready sender can send up to the limit, one send after the other. */
  lemma {:induction false} SendsMany(s: State, w: nat, id: string, n: nat, r: Rules) returns (events: seq<Event>, t: State)
    requires DailyOnly(s, id) && UsedToday(s, id) + n <= LimitsOf(s, id).daily && w < |s.senders| && s.senders[w] == Ready
    requires !r.quiet && (id == r.id ==> EngagedCount(s.senders, id) < r.crowd)
    ensures Leads(s, events, t, r) && t.senders == s.senders && SentMore(s, t, id, n)
    decreases n
  {
    if n == 0 {
      events, t := [], s;
    } else {
      var first, u := SendsOnce(s, w, id, r);
      CountedStays(s, id);
      var more;
      more, t := SendsMany(u, w, id, n - 1, r);
      SentMoreJoin(s, u, t, id, 1, n - 1);
      Join(s, first, u, more, t, r);
      events := first + more;
    }
  }

  /** The first `a` senders have counted, those up to `b` are admitted, the others are ready. */
  predicate Staged(s: State, id: string, a: nat, b: nat) {
    forall w: nat :: w < |s.senders| ==>
      s.senders[w] == if w < a then Persisting(id) else if w < b then Sending(id) else Ready
  }

  lemma {:induction false} StagedEngages(senders: seq<Sender>, id: string, b: nat)
    requires forall w: nat :: w < |senders| ==> senders[w] == if w < b then Sending(id) else Ready
    ensures EngagedCount(senders, id) <= b
  {
    if senders != [] {
      StagedEngages(Front(senders), id, b);
      if b < |senders| { StagedEngages(Front(senders), id, b); }
      if |senders| <= b { FlightBelowEngaged(senders, id); }
    }
  }

  /** Senders that all look before any of them counts are all admitted. */
  lemma {:induction false} AllAdmitted(s: State, id: string, b: nat, r: Rules) returns (events: seq<Event>, t: State)
    requires Idle(s) && DailyOnly(s, id) && UsedToday(s, id) < LimitsOf(s, id).daily
    requires b <= |s.senders| && r.id == id && b <= r.crowd && !r.quiet
    ensures Leads(s, events, t, r) && SentMore(s, t, id, 0) && Staged(t, id, 0, b)
    decreases b
  {
    if b == 0 {
      events, t := [], s;
    } else {
      var first, u := AllAdmitted(s, id, b - 1, r);
      StagedEngages(u.senders, id, b - 1);
      RefreshTwice(u, id);
      var more := Admits(u, b - 1, id, r);
      t := Moved(WithRefreshed(u, id), b - 1, Sending(id));
      Join(s, first, u, more, t, r);
      events := first + more;
    }
  }

  /** And then all of them count. */
  lemma {:induction false} AllCounted(s: State, id: string, a: nat, b: nat, r: Rules) returns (events: seq<Event>, t: State)
    requires Staged(s, id, 0, b) && a <= b <= |s.senders| && !r.quiet
    ensures Leads(s, events, t, r) && SentMore(s, t, id, a) && Staged(t, id, a, b)
    decreases a
  {
    if a == 0 {
      events, t := [], s;
    } else {
      var first, u := AllCounted(s, id, a - 1, b, r);
      CountedIsMore(u, id);
      var more := SendsAndCounts(u, a - 1, id, r);
      t := Moved(WithCounted(u, id), a - 1, Persisting(id));
      Join(s, first, u, more, t, r);
      events := first + more;
    }
  }

  /** The bound is exact: for every limit and every `k` up to the number of senders, some run with
      at most `k` of them at work on the profile counts `daily + k - 1` sends on one day. */
  lemma BoundIsReached(init: State, r: Rules) returns (events: seq<Event>, t: State)
    requires Init(init) && DailyOnly(init, r.id) && 0 < r.crowd <= |init.senders| && !r.quiet
    ensures Leads(init, events, t, r)
    ensures CountOn(t.counted, r.id, init.today) == LimitsOf(init, r.id).daily + r.crowd - 1
  {
    NoneEngaged(init.senders, r.id);
    var a, u := SendsMany(init, 0, r.id, LimitsOf(init, r.id).daily - 1, r);
    var b, v := AllAdmitted(u, r.id, r.crowd, r);
    Join(init, a, u, b, v, r);
    var c;
    c, t := AllCounted(v, r.id, r.crowd, r.crowd, r);
    Join(init, a + b, v, c, t, r);
    events := a + b + c;
  }

  ghost predicate RunCapped(init: State, events: seq<Event>, id: string, day: int) {
    Exec(Step, init, events).Some? ==>
      CountOn(Exec(Step, init, events).value.counted, id, day) <= LimitsOf(init, id).daily
  }

  /** Every run keeps the daily cap of a profile without a burst limit exactly if there is only
      one sender. */
  lemma CapHoldsIffOneSender(init: State, id: string)
    requires Init(init) && DailyOnly(init, id) && |init.senders| > 0
    ensures (forall events: seq<Event>, day: int :: RunCapped(init, events, id, day)) <==> |init.senders| == 1
  {
    if |init.senders| == 1 {
      forall events: seq<Event>, day: int ensures RunCapped(init, events, id, day) {
        if Exec(Step, init, events).Some? {
          OneSenderIsQuiet(init, events, id);
          DailyLimitHolds(init, events, id, day);
        }
      }
    } else {
      var events, t := BoundIsReached(init, Rules(id, 2, true, false));
      assert !RunCapped(init, events, id, init.today);
    }
  }

  // ---------- Writes that come in late ----------

  /** A snapshot of another profile's sender is taken before the profile's sends of the day and
      written after them. */
  lemma WritesLate(init: State, id: string, other: string) returns (events: seq<Event>, t: State)
    requires Init(init) && DailyOnly(init, id) && DailyOnly(init, other) && id != other && |init.senders| >= 2
    ensures Leads(init, events, t, Rules(id, 1, false, false)) && Idle(t) && id !in t.saved
    ensures t.today == init.today && t.limits == init.limits && |t.senders| == |init.senders|
    ensures CountOn(t.counted, id, init.today) == LimitsOf(init, id).daily
  {
    var r, n := Rules(id, 1, false, false), LimitsOf(init, id).daily;
    NoneEngaged(init.senders, id);
    var a, u := SendsUpToSave(init, 1, other, r);
    OtherCounted(init.counted, Count(other, init.today), id);
    EngagedUpdate(init.senders, 1, u.senders[1], id);
    var b, v := SendsMany(u, 0, id, n, r);
    Join(init, a, u, b, v, r);
    t := Moved(v, 1, Ready).(saved := v.senders[1].snapshot);
    Onward(init, a + b, v, Advance(1), t, r);
    events := a + b + [Advance(1)];
  }

  /** One sender per profile is not enough: the late write undoes the record of all sends in
      between, and after a restart the profile gets its whole limit once more. */
  lemma LateWriteOvershoots(init: State, id: string, other: string) returns (events: seq<Event>, t: State)
    requires Init(init) && DailyOnly(init, id) && DailyOnly(init, other) && id != other && |init.senders| >= 2
    ensures Leads(init, events, t, Rules(id, 1, false, false))
    ensures CountOn(t.counted, id, init.today) == 2 * LimitsOf(init, id).daily
  {
    var r := Rules(id, 1, false, false);
    var a, u := WritesLate(init, id, other);
    var v := u.(usage := Restore(u.saved));
    Onward(init, a, u, Restart, v, r);
    NoneEngaged(v.senders, id);
    var b;
    b, t := SendsMany(v, 0, id, LimitsOf(init, id).daily, r);
    Join(init, a + [Restart], v, b, t, r);
    events := a + [Restart] + b;
  }

  /** The run, if it has one sender at a time on the profile and only restarts with today's count
      in the file, keeps the cap. */
  ghost predicate CapKept(s: State, events: seq<Event>, id: string, day: int) {
    Exec(Step, s, events).Some? && Obeys(s, events, Rules(id, 1, true, false)) ==>
      CountOn(Exec(Step, s, events).value.counted, id, day) <= LimitsOf(s, id).daily
  }

  /** A restart leaves the cap in force for everything that can follow, exactly if the file had
      today's count. */
  lemma RestartSafeIff(s: State, id: string)
    requires Kept(s, id, 1) && DailyOnly(s, id) && Idle(s) && |s.senders| > 0
    ensures (forall more: seq<Event>, day: int :: CapKept(Step(s, Restart).value, more, id, day)) <==> FileCurrent(s, id)
  {
    var t := Step(s, Restart).value;
    if FileCurrent(s, id) {
      forall more: seq<Event>, day: int ensures CapKept(t, more, id, day) { CurrentRestartKeeps(s, more, id, day); }
    } else {
      var more, u := StaleRestartBreaks(s, id);
      assert !CapKept(t, more, id, s.today);
    }
  }

  lemma CurrentRestartKeeps(s: State, more: seq<Event>, id: string, day: int)
    requires Kept(s, id, 1) && DailyOnly(s, id) && Idle(s) && FileCurrent(s, id)
    ensures CapKept(Step(s, Restart).value, more, id, day)
  {
    var t, r := Step(s, Restart).value, Rules(id, 1, true, false);
    KeptStep(s, Restart, r);
    if Exec(Step, t, more).Some? && Obeys(t, more, r) {
      KeptAlways(t, more, r);
      KeptIsCapped(Exec(Step, t, more).value, id, 1, day);
    }
  }

  lemma StaleRestartBreaks(s: State, id: string) returns (more: seq<Event>, u: State)
    requires Kept(s, id, 1) && DailyOnly(s, id) && Idle(s) && |s.senders| > 0 && !FileCurrent(s, id)
    ensures Leads(Step(s, Restart).value, more, u, Rules(id, 1, true, false))
    ensures CountOn(u.counted, id, s.today) > LimitsOf(s, id).daily
  {
    var t := Step(s, Restart).value;
    TodayCounted(s, id);
    KeptIsCapped(s, id, 1, s.today);
    SavedPerProfile(s.usage, s.saved, id);
    NoneEngaged(t.senders, id);
    assert UsedToday(t, id) == SavedToday(s, id) < UsedToday(s, id);
    more, u := SendsMany(t, 0, id, LimitsOf(s, id).daily - SavedToday(s, id), Rules(id, 1, true, false));
  }

  // ---------- Admission and bursts ----------

  /** A profile with a limit is looked at, and then admitted exactly if no limit that it has is
      reached by its counters. */
  lemma AdmittedIff(s: State, w: nat, id: string)
    requires w < |s.senders| && s.senders[w] == Checking(id) && id in s.usage
    ensures var l := LimitsOf(s, id); var t := AdvanceStep(s, w);
      t.Some? && t.value.senders[w] ==
        if (l.daily <= 0 || s.usage[id].dayCount < l.daily) && (l.burst <= 0 || s.usage[id].burstCount < l.burst)
        then Sending(id) else Ready
  {}

  lemma BeginsIff(s: State, w: nat, id: string)
    ensures Step(s, Begin(w, id)).Some? <==>
            w < |s.senders| && s.senders[w] == Ready && id in s.limits && (s.limits[id].daily > 0 || s.limits[id].burst > 0)
  {}

  function BurstCount(s: State, id: string): nat {
    if id in s.usage then s.usage[id].burstCount else 0
  }

  predicate WithinBurst(s: State, id: string, k: nat) {
    && EngagedCount(s.senders, id) <= k
    && BurstCount(s, id) + FlightCount(s.senders, id) <= LimitsOf(s, id).burst + k - 1
  }

  lemma MoveWithinBurst(s: State, t: State, w: nat, id: string, k: nat)
    requires WithinBurst(s, id, k) && LimitsOf(s, id).burst > 0
    requires w < |s.senders| && |t.senders| == |s.senders| && t.senders == s.senders[w := t.senders[w]]
    requires t.limits == s.limits
    requires Engaged(t.senders[w], id) && !Engaged(s.senders[w], id) ==> EngagedCount(s.senders, id) < k
    requires
      || BurstCount(t, id) + (if InFlight(t.senders[w], id) then 1 else 0)
         <= BurstCount(s, id) + (if InFlight(s.senders[w], id) then 1 else 0)
      || (s.senders[w] == Checking(id) && BurstCount(t, id) < LimitsOf(s, id).burst)
    ensures WithinBurst(t, id, k)
  {
    FlightUpdate(s.senders, w, t.senders[w], id);
    EngagedUpdate(s.senders, w, t.senders[w], id);
    if s.senders[w] == Checking(id) { CheckingNotInFlight(s.senders, w, id); }
  }

  lemma AdvanceWithinBurst(s: State, w: nat, id: string, k: nat)
    requires WithinBurst(s, id, k) && LimitsOf(s, id).burst > 0 && w < |s.senders| && AdvanceStep(s, w).Some?
    ensures WithinBurst(AdvanceStep(s, w).value, id, k)
  {
    AdvanceFrame(s, w);
    MoveWithinBurst(s, AdvanceStep(s, w).value, w, id, k);
  }

  lemma BurstStep(s: State, e: Event, r: Rules)
    requires r.crowd > 0 && LimitsOf(s, r.id).burst > 0 && WithinBurst(s, r.id, r.crowd)
    requires Step(s, e).Some? && Allowed(s, e, r)
    ensures WithinBurst(Step(s, e).value, r.id, r.crowd)
  {
    match e
    case Begin(w, _) => MoveWithinBurst(s, Step(s, e).value, w, r.id, r.crowd);
    case Advance(w) => AdvanceWithinBurst(s, w, r.id, r.crowd);
    case SendFails(w) => MoveWithinBurst(s, Step(s, e).value, w, r.id, r.crowd);
    case Clock(_, _) =>
    case Restart => NoneEngaged(s.senders, r.id);
  }

  /** With at most `k` senders at work on a profile at once, the counter of its burst window plus the
      admitted sends still to be counted never exceed the burst limit by more than `k - 1`. */
  lemma {:induction false} BurstBound(init: State, events: seq<Event>, r: Rules)
    requires Init(init) && r.crowd > 0 && LimitsOf(init, r.id).burst > 0
    requires Exec(Step, init, events).Some? && Obeys(init, events, r)
    ensures var s := Exec(Step, init, events).value; s.limits == init.limits && WithinBurst(s, r.id, r.crowd)
  {
    if events == [] {
      NoneEngaged(init.senders, r.id);
    } else {
      BurstBound(init, Front(events), r);
      var s := Exec(Step, init, Front(events)).value;
      SettingsStay(s, Last(events));
      BurstStep(s, Last(events), r);
    }
  }
}
