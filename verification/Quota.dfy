/** The daily notification cap: the counters of the profiles and their persistence
    (`getOrCreateUsage`, `persistNotifUsage` in cmd/server/notify.go, `loadNotifUsage` in
    cmd/server/persistence.go), and the senders that share them as a transition system. */
module Quota {
  import opened Common

  /** A local day and a burst bucket are numbers that grow with time. */
  datatype Usage = Usage(dayKey: int, dayCount: nat, burstKey: int, burstCount: nat)

  datatype Record = Record(dayKey: int, dayCount: nat)

  datatype Limits = Limits(daily: int, burst: int, burstWindowMinutes: int)

  /** The bucket for use now: counters of another day or burst window start from zero.  A new
      bucket has keys that match no day and no window. */
  function Refreshed(u: Option<Usage>, l: Limits, today: int, bucket: int): (r: Usage)
    ensures r.dayKey == today
    ensures u.Some? && u.value.dayKey == today ==> r.dayCount == u.value.dayCount
    ensures (u.Some? ==> u.value.dayKey != today) ==> r.dayCount == 0
  {
    var day := if u.Some? && u.value.dayKey == today then u.value.dayCount else 0;
    if l.burstWindowMinutes > 0 then
      Usage(today, day, bucket, if u.Some? && u.value.burstKey == bucket then u.value.burstCount else 0)
    else
      Usage(today, day, if u.Some? then u.value.burstKey else 0, if u.Some? then u.value.burstCount else 0)
  }

  predicate HitsLimit(u: Usage, l: Limits) {
    (l.burst > 0 && u.burstCount >= l.burst) || (l.daily > 0 && u.dayCount >= l.daily)
  }

  function Counted(u: Usage): Usage {
    u.(dayCount := u.dayCount + 1, burstCount := u.burstCount + 1)
  }

  /** What is saved: nothing for a profile without sends on its day. */
  function Saved(u: Option<Usage>): Option<Record> {
    if u.Some? && u.value.dayCount > 0 then Some(Record(u.value.dayKey, u.value.dayCount)) else None
  }

  /** What a restart makes of it: burst counters start over. */
  function Restored(r: Option<Record>): Option<Usage> {
    if r.Some? then Some(Usage(r.value.dayKey, r.value.dayCount, 0, 0)) else None
  }

  function Entry<V>(m: map<string, V>, id: string): Option<V> {
    if id in m then Some(m[id]) else None
  }

  /** The counters of all profiles as they are saved, and as they are restored. */
  function Snapshot(usage: map<string, Usage>): map<string, Record> {
    map id | id in usage && usage[id].dayCount > 0 :: Record(usage[id].dayKey, usage[id].dayCount)
  }

  function Restore(saved: map<string, Record>): map<string, Usage> {
    map id | id in saved :: Usage(saved[id].dayKey, saved[id].dayCount, 0, 0)
  }

  lemma SavedPerProfile(usage: map<string, Usage>, saved: map<string, Record>, id: string)
    ensures Entry(Snapshot(usage), id) == Saved(Entry(usage, id))
    ensures Entry(Restore(saved), id) == Restored(Entry(saved, id))
  {}

  class UsageTable {
    var notifUsage: map<string, Usage>

    constructor ()
      ensures notifUsage == map[]
    {
      notifUsage := map[];
    }

    method GetOrCreateUsage(id: string, l: Limits, today: int, bucket: int) returns (u: Usage)
      modifies this
      ensures u == Refreshed(Entry(old(notifUsage), id), l, today, bucket)
      ensures notifUsage == old(notifUsage)[id := u]
      ensures u.dayKey == today
      ensures u.dayCount ==
        if id in old(notifUsage) && old(notifUsage)[id].dayKey == today then old(notifUsage)[id].dayCount else 0
      ensures l.burstWindowMinutes > 0 ==> u.burstKey == bucket
      ensures u.burstCount ==
        if id in old(notifUsage) && (l.burstWindowMinutes > 0 ==> old(notifUsage)[id].burstKey == bucket)
        then old(notifUsage)[id].burstCount else 0
    {
      u := if id in notifUsage then notifUsage[id] else Usage(today - 1, 0, 0, 0);
      if u.dayKey != today {
        u := u.(dayKey := today, dayCount := 0);
      }
      if l.burstWindowMinutes > 0 && u.burstKey != bucket {
        u := u.(burstKey := bucket, burstCount := 0);
      }
      notifUsage := notifUsage[id := u];
    }

    method CountSend(id: string)
      requires id in notifUsage
      modifies this
      ensures notifUsage == old(notifUsage)[id := Counted(old(notifUsage)[id])]
      ensures notifUsage[id].dayCount == old(notifUsage)[id].dayCount + 1
      ensures notifUsage[id].burstCount == old(notifUsage)[id].burstCount + 1
      ensures notifUsage[id].dayKey == old(notifUsage)[id].dayKey && notifUsage[id].burstKey == old(notifUsage)[id].burstKey
    {
      notifUsage := notifUsage[id := Counted(notifUsage[id])];
    }

    method PersistNotifUsage() returns (snapshot: map<string, Record>)
      ensures snapshot == Snapshot(notifUsage)
      ensures forall id: string :: id in snapshot <==> id in notifUsage && notifUsage[id].dayCount > 0
      ensures forall id: string :: id in snapshot ==> snapshot[id] == Record(notifUsage[id].dayKey, notifUsage[id].dayCount)
    {
      snapshot := map[];
      var todo := notifUsage.Keys;
      while todo != {}
        invariant todo <= notifUsage.Keys
        invariant forall id: string :: Entry(snapshot, id) == if id in todo then None else Saved(Entry(notifUsage, id))
        decreases todo
      {
        var id :| id in todo;
        todo := todo - {id};
        var u := notifUsage[id];
        if u.dayCount > 0 { snapshot := snapshot[id := Record(u.dayKey, u.dayCount)]; }
      }
      assert forall id: string :: id in snapshot <==> Entry(snapshot, id).Some?;
      assert snapshot == Snapshot(notifUsage);
    }

    method LoadNotifUsage(saved: map<string, Record>)
      modifies this
      ensures notifUsage == Restore(saved)
      ensures notifUsage.Keys == saved.Keys
      ensures forall id: string :: id in saved ==> notifUsage[id] == Usage(saved[id].dayKey, saved[id].dayCount, 0, 0)
    {
      notifUsage := map[];
      var todo := saved.Keys;
      while todo != {}
        invariant todo <= saved.Keys
        invariant forall id: string :: Entry(notifUsage, id) == if id in todo then None else Restored(Entry(saved, id))
        decreases todo
      {
        var id :| id in todo;
        todo := todo - {id};
        notifUsage := notifUsage[id := Usage(saved[id].dayKey, saved[id].dayCount, 0, 0)];
      }
      assert forall id: string :: id in notifUsage <==> Entry(notifUsage, id).Some?;
      assert notifUsage == Restore(saved);
    }
  }

  // ---------- Concurrent senders ----------

  /** Where a sender is in `sendJobNotifications`, and with which profile; every phase but `Sending`
      ends with one locked section or one write of the shared file. */
  datatype Sender =
    | Ready
    | Checking(id: string)
    | Sending(id: string)
    | Sent(id: string)
    | Counting(id: string)
    | Persisting(id: string)
    | Saving(snapshot: map<string, Record>)

  datatype Count = Count(id: string, day: int)

  /** `counted` lists every counted send: its profile and the local day it was counted on.
      `buckets` has the current burst window of each profile. */
  datatype State = State(
    today: int,
    buckets: map<string, int>,
    limits: map<string, Limits>,
    usage: map<string, Usage>,
    saved: map<string, Record>,
    senders: seq<Sender>,
    counted: seq<Count>)

  datatype Event =
    | Begin(w: nat, id: string)
    | Advance(w: nat)
    | SendFails(w: nat)
    | Clock(today: int, buckets: map<string, int>)
    | Restart

  function LimitsOf(s: State, id: string): Limits {
    if id in s.limits then s.limits[id] else Limits(0, 0, 0)
  }

  /** Profiles without limits leave the counters alone. */
  predicate Limited(l: Limits) {
    l.daily > 0 || l.burst > 0
  }

  function RefreshedNow(s: State, id: string): Usage {
    Refreshed(Entry(s.usage, id), LimitsOf(s, id), s.today, if id in s.buckets then s.buckets[id] else 0)
  }

  function WithRefreshed(s: State, id: string): State {
    s.(usage := s.usage[id := RefreshedNow(s, id)])
  }

  function Moved(s: State, w: nat, p: Sender): State
    requires w < |s.senders|
  {
    s.(senders := s.senders[w := p])
  }

  predicate Idle(s: State) {
    forall w: nat :: w < |s.senders| ==> s.senders[w] == Ready
  }

  function AdvanceStep(s: State, w: nat): Option<State>
    requires w < |s.senders|
  {
    match s.senders[w]
    case Ready => None
    case Checking(id) =>
      if id !in s.usage then None
      else Some(Moved(s, w, if HitsLimit(s.usage[id], LimitsOf(s, id)) then Ready else Sending(id)))
    case Sending(id) => Some(Moved(s, w, Sent(id)))
    case Sent(id) => Some(Moved(WithRefreshed(s, id), w, Counting(id)))
    case Counting(id) =>
      if id !in s.usage then None
      else Some(Moved(s, w, Persisting(id)).(
             usage := s.usage[id := Counted(s.usage[id])],
             counted := s.counted + [Count(id, s.usage[id].dayKey)]))
    case Persisting(_) => Some(Moved(s, w, Saving(Snapshot(s.usage))))
    case Saving(m) => Some(Moved(s, w, Ready).(saved := m))
  }

  /** The file is written after the lock is given up, so an older snapshot can come in last. */
  function Step(s: State, e: Event): Option<State> {
    match e
    case Begin(w, id) =>
      if w < |s.senders| && s.senders[w].Ready? && Limited(LimitsOf(s, id))
      then Some(Moved(WithRefreshed(s, id), w, Checking(id))) else None
    case Advance(w) => if w < |s.senders| then AdvanceStep(s, w) else None
    case SendFails(w) =>
      if w < |s.senders| && s.senders[w].Sending? then Some(Moved(s, w, Ready)) else None
    case Clock(today, buckets) => if s.today <= today then Some(s.(today := today, buckets := buckets)) else None
    case Restart => if Idle(s) then Some(s.(usage := Restore(s.saved))) else None
  }

  predicate Init(s: State) {
    s.usage == map[] && s.saved == map[] && s.counted == [] && Idle(s)
  }
}
