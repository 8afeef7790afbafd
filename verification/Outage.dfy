/** Outage and recovery notices for an extra Docker host (the ping block of `scanOnce` in
    cmd/server/monitor.go). */
module Outage {
  import opened Common

  /** One ping of a host: the outcome, when it was recorded, when the offline time was compared
      and the configured confirmation time. */
  datatype Ping = Ping(up: bool, at: int, checkedAt: int, confirmSeconds: int)

  datatype Notice = NoNotice | Down | Recovery

  function ConfirmSeconds(configured: int): int {
    if configured <= 0 then 1800 else configured
  }

  // ---------- What the pings so far say ----------

  predicate WasUp(h: seq<Ping>) {
    h != [] && Last(h).up
  }

  /** When the current outage began: the first down ping after the last up ping. */
  function OfflineSince(h: seq<Ping>): Option<int> {
    if h == [] || Last(h).up then None
    else if WasUp(Front(h)) then Some(Last(h).at)
    else OfflineSince(Front(h))
  }

  /** The notice sent at the last ping. */
  function NoticeAt(h: seq<Ping>): Notice
    requires h != []
    decreases |h|, 0
  {
    if Last(h).up then (if WasUp(Front(h)) then NoNotice else Recovery)
    else if OfflineSince(h).Some? && !Notified(Front(h))
            && Last(h).checkedAt - OfflineSince(h).value >= ConfirmSeconds(Last(h).confirmSeconds) * SECOND
    then Down
    else NoNotice
  }

  /** The current outage has been notified. */
  predicate Notified(h: seq<Ping>)
    decreases |h|, 1
  {
    h != [] && !Last(h).up && (Notified(Front(h)) || NoticeAt(h) == Down)
  }

  /** What is stored for a host: whether it was up, since when it is offline, whether the
      current outage has been notified. */
  datatype Host = Host(connected: bool, offlineSince: Option<int>, notified: bool)

  /** The stored state that the pings so far lead to. */
  function HostAfter(h: seq<Ping>): Host {
    Host(WasUp(h), OfflineSince(h), Notified(h))
  }

  /** When a host's outage began, if it is down at this ping. */
  function SinceNow(x: Host, p: Ping): Option<int> {
    if p.up then None else if x.connected then Some(p.at) else x.offlineSince
  }

  function NextNotice(x: Host, p: Ping): Notice {
    if p.up then (if x.connected then NoNotice else Recovery)
    else if SinceNow(x, p).Some? && !x.notified
            && p.checkedAt - SinceNow(x, p).value >= ConfirmSeconds(p.confirmSeconds) * SECOND
    then Down
    else NoNotice
  }

  function NextHost(x: Host, p: Ping): Host {
    Host(p.up, SinceNow(x, p), (x.notified && !(p.up && !x.connected)) || NextNotice(x, p) == Down)
  }

  /** One more ping takes the stored state that the pings before lead to, to the one that all
      of them lead to, and calls for the notice they call for. */
  lemma HostNext(h: seq<Ping>, p: Ping)
    ensures HostAfter(h + [p]) == NextHost(HostAfter(h), p)
    ensures NoticeAt(h + [p]) == NextNotice(HostAfter(h), p)
  {
    assert Front(h + [p]) == h && Last(h + [p]) == p;
    assert WasUp(h) ==> !Notified(h);
    assert Notified(h + [p]) <==> !p.up && (Notified(h) || NoticeAt(h + [p]) == Down);
    assert OfflineSince(h + [p]) == SinceNow(HostAfter(h), p);
  }

  class HostMonitor {
    var dockerHostConnected: map<string, bool>
    var dockerHostOfflineSince: map<string, int>
    var dockerHostNotified: map<string, bool>
    /** Every ping of every host. */
    ghost var pings: map<string, seq<Ping>>

    function Stored(id: string): Host
      reads this
    {
      Host(id in dockerHostConnected && dockerHostConnected[id],
           if id in dockerHostOfflineSince then Some(dockerHostOfflineSince[id]) else None,
           id in dockerHostNotified && dockerHostNotified[id])
    }

    ghost function History(id: string): seq<Ping>
      reads this
    {
      if id in pings then pings[id] else []
    }

    ghost predicate Valid()
      reads this
    {
      forall id: string :: Stored(id) == HostAfter(History(id))
    }

    constructor ()
      ensures Valid() && pings == map[]
    {
      dockerHostConnected, dockerHostOfflineSince, dockerHostNotified, pings := map[], map[], map[], map[];
    }

    /** Records a ping and sends the notice that the host's pings so far call for. */
    method RecordPing(id: string, hostUp: bool, now: int, checkedAt: int, confirm: int) returns (notice: Notice)
      requires Valid()
      modifies this
      ensures Valid()
      ensures pings == old(pings)[id := old(History(id)) + [Ping(hostUp, now, checkedAt, confirm)]]
      ensures notice == NoticeAt(History(id))
    {
      ghost var p, before := Ping(hostUp, now, checkedAt, confirm), History(id);
      assert Stored(id) == HostAfter(before);
      HostNext(before, p);
      notice := StorePing(id, hostUp, now, checkedAt, confirm);
      pings := pings[id := before + [p]];
      forall x: string ensures Stored(x) == HostAfter(History(x)) {
        assert x != id ==> History(x) == old(History(x));
      }
    }

    method StorePing(id: string, hostUp: bool, now: int, checkedAt: int, confirm: int) returns (notice: Notice)
      modifies this`dockerHostConnected, this`dockerHostOfflineSince, this`dockerHostNotified
      ensures Stored(id) == NextHost(old(Stored(id)), Ping(hostUp, now, checkedAt, confirm))
      ensures notice == NextNotice(old(Stored(id)), Ping(hostUp, now, checkedAt, confirm))
      ensures forall x: string :: x != id ==> Stored(x) == old(Stored(x))
    {
      var wasUp := id in dockerHostConnected && dockerHostConnected[id];
      dockerHostConnected := dockerHostConnected[id := hostUp];
      if hostUp {
        dockerHostOfflineSince := dockerHostOfflineSince - {id};
        if !wasUp { dockerHostNotified := dockerHostNotified[id := false]; }
      } else if wasUp {
        dockerHostOfflineSince := dockerHostOfflineSince[id := now];
      }
      var alreadyNotified := id in dockerHostNotified && dockerHostNotified[id];
      notice := NoNotice;
      if hostUp && !wasUp {
        notice := Recovery;
      } else if !hostUp && !alreadyNotified && id in dockerHostOfflineSince {
        var confirmSecs := confirm;
        if confirmSecs <= 0 { confirmSecs := 1800; }
        if checkedAt - dockerHostOfflineSince[id] >= confirmSecs * SECOND {
          notice := Down;
          dockerHostNotified := dockerHostNotified[id := true];
        }
      }
    }
  }

  // ---------- What the notices mean ----------

  /** The notice sent at the ping at position `k`. */
  function NoticeNumber(h: seq<Ping>, k: nat): Notice
    requires k < |h|
  {
    NoticeAt(h[..k + 1])
  }

  lemma FrontOfPrefix(h: seq<Ping>, k: nat)
    requires k < |h|
    ensures Front(h[..k + 1]) == h[..k] && Last(h[..k + 1]) == h[k]
  {}

  /** Position `j` is the last up ping before `k`: all pings in between are down. */
  predicate LastUpBefore(h: seq<Ping>, j: nat, k: nat) {
    j < k < |h| && h[j].up && forall i :: j < i <= k ==> !h[i].up
  }

  lemma SameLastUp(h: seq<Ping>, before: nat, k: nat)
    requires before + 1 == k < |h| && !h[before].up && !h[k].up
    ensures forall j: nat :: LastUpBefore(h, j, k) <==> LastUpBefore(h, j, before)
  {}

  lemma {:induction false} OfflineSinceMeaning(h: seq<Ping>, k: nat)
    requires k < |h| && !h[k].up
    ensures OfflineSince(h[..k + 1]).Some? <==> exists j: nat :: LastUpBefore(h, j, k)
    ensures forall j: nat :: LastUpBefore(h, j, k) ==> OfflineSince(h[..k + 1]) == Some(h[j + 1].at)
  {
    FrontOfPrefix(h, k);
    if k == 0 {
    } else if h[k - 1].up {
      assert LastUpBefore(h, k - 1, k);
    } else {
      OfflineSinceMeaning(h, k - 1);
      SameLastUp(h, k - 1, k);
    }
  }

  /** A down notice was sent at `i` and the host has been down from then to before `k`. */
  predicate DownSince(h: seq<Ping>, i: nat, k: nat) {
    i < k <= |h| && NoticeNumber(h, i) == Down && forall m :: i < m < k ==> !h[m].up
  }

  lemma SameDownSince(h: seq<Ping>, before: nat, k: nat)
    requires before + 1 == k <= |h| && !h[before].up && NoticeNumber(h, before) != Down
    ensures forall i: nat :: DownSince(h, i, k) <==> DownSince(h, i, before)
  {}

  /** An outage counts as notified exactly if a down notice was sent since the last up ping. */
  lemma {:induction false} NotifiedMeaning(h: seq<Ping>, k: nat)
    requires k <= |h|
    ensures Notified(h[..k]) <==> exists i: nat :: DownSince(h, i, k)
  {
    if k > 0 {
      FrontOfPrefix(h, k - 1);
      NotifiedMeaning(h, k - 1);
      if h[k - 1].up {
        assert NoticeNumber(h, k - 1) != Down;
      } else if NoticeNumber(h, k - 1) == Down {
        assert DownSince(h, k - 1, k);
      } else {
        SameDownSince(h, k - 1, k);
      }
    }
  }

  /** The host was last up at `j`, has been down for the confirmation time when pinged at `k`,
      and no down notice has been sent in between. */
  predicate DueForNotice(h: seq<Ping>, j: nat, k: nat) {
    && LastUpBefore(h, j, k)
    && h[k].checkedAt - h[j + 1].at >= ConfirmSeconds(h[k].confirmSeconds) * SECOND
    && forall i: nat :: j < i < k ==> NoticeNumber(h, i) != Down
  }

  /** A down notice is sent exactly when the host was up once, has been down ever since, for at
      least the confirmation time, and no notice of this outage has been sent yet. */
  lemma DownNoticeIff(h: seq<Ping>, k: nat)
    requires k < |h|
    ensures NoticeNumber(h, k) == Down <==> exists j: nat :: DueForNotice(h, j, k)
  {
    FrontOfPrefix(h, k);
    if j: nat :| LastUpBefore(h, j, k) {
      OfflineSinceMeaning(h, k);
      NotifiedSince(h, j, k);
      assert forall x: nat :: LastUpBefore(h, x, k) ==> x == j;
      assert NoticeNumber(h, k) == Down <==> DueForNotice(h, j, k);
    } else if !h[k].up {
      OfflineSinceMeaning(h, k);
    }
  }

  lemma NotifiedSince(h: seq<Ping>, j: nat, k: nat)
    requires LastUpBefore(h, j, k)
    ensures Notified(h[..k]) <==> exists i: nat :: j < i < k && NoticeNumber(h, i) == Down
  {
    NotifiedMeaning(h, k);
    FrontOfPrefix(h, j);
    assert !DownSince(h, j, k);
    forall i: nat | j < i < k && NoticeNumber(h, i) == Down ensures DownSince(h, i, k) {}
  }

  /** Between two down notices the host was up. */
  lemma OneDownNoticePerOutage(h: seq<Ping>, i: nat, k: nat)
    requires i < k < |h| && NoticeNumber(h, i) == Down && NoticeNumber(h, k) == Down
    ensures exists m :: i < m < k && h[m].up
  {
    FrontOfPrefix(h, k);
    NotifiedMeaning(h, k);
    assert !DownSince(h, i, k);
  }

  /** A recovery notice is sent exactly at an up ping that does not directly follow another. */
  lemma RecoveryNoticeIff(h: seq<Ping>, k: nat)
    requires k < |h|
    ensures NoticeNumber(h, k) == Recovery <==> h[k].up && (k == 0 || !h[k - 1].up)
  {
    FrontOfPrefix(h, k);
  }

  /** The time an outage must last before it is reported: as configured, in seconds, or half an hour. */
  lemma ConfirmMeans(h: seq<Ping>, j: nat, k: nat)
    requires DueForNotice(h, j, k)
    ensures h[k].checkedAt - h[j + 1].at >= (if h[k].confirmSeconds > 0 then h[k].confirmSeconds else 1800) * 1_000_000_000
  {}

  /** And it is reported at the first ping that finds it to have lasted that long. */
  lemma ReportedInTime(h: seq<Ping>, j: nat, k: nat)
    requires LastUpBefore(h, j, k)
    requires h[k].checkedAt - h[j + 1].at >= (if h[k].confirmSeconds > 0 then h[k].confirmSeconds else 1800) * 1_000_000_000
    ensures exists i: nat :: j < i <= k && NoticeNumber(h, i) == Down
  {
    if forall i: nat :: j < i < k ==> NoticeNumber(h, i) != Down {
      assert DueForNotice(h, j, k);
      DownNoticeIff(h, k);
    }
  }
}
