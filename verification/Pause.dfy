/** The maintenance pause snapshot (cmd/server/maintenance.go). */
module Pause {
  import opened Common
  import opened Jobs
  import opened Schedule

  const LOCAL := "local"

  /** `jobOnStart` and `localOnStart` have no entry where the source has an empty string. */
  datatype Snapshot = Snapshot(
    skipEntireScan: bool,
    pausedJobIDs: set<string>,
    pausedHostIDs: set<string>,
    active: seq<Window>,
    jobOnStart: map<string, OnStart>,
    localOnStart: Option<OnStart>)
  {
    /** The behaviour governing a job, or the local host for an action without a job. */
    function OnStartFor(jobID: string): Option<OnStart> {
      if jobID == "" then localOnStart
      else if jobID in jobOnStart then Some(jobOnStart[jobID])
      else None
    }
  }

  function OnStartRank(v: Option<OnStart>): int {
    match v
    case Some(ForceCancel) => 2
    case Some(AllowFinish) => 1
    case None => 0
  }

  function StrongerOnStart(a: Option<OnStart>, b: Option<OnStart>): Option<OnStart> {
    if OnStartRank(b) > OnStartRank(a) then b else a
  }

  // ---------- What the windows ask for ----------

  /** A window governs a job that it lists, or that applies to a host it lists. */
  predicate Governs(w: Window, jobs: seq<Job>, jobID: string) {
    || jobID in w.jobIDs
    || exists h: string :: h in w.dockerHostIDs && PinnedTo(jobs, h, jobID)
  }

  predicate PinnedTo(jobs: seq<Job>, hostID: string, jobID: string) {
    exists j: Job :: j in jobs && AppliesTo(j, hostID) && j.id == jobID
  }

  /** Some active window governs the job with behaviour `s`. */
  ghost predicate Demanded(active: seq<Window>, jobs: seq<Job>, jobID: string, s: OnStart) {
    exists w: Window :: w in active && Governs(w, jobs, jobID) && w.onStart == s
  }

  /** Some active window lists the host with behaviour `s`. */
  ghost predicate HostDemanded(active: seq<Window>, hostID: string, s: OnStart) {
    exists w: Window :: w in active && hostID in w.dockerHostIDs && w.onStart == s
  }

  /** The snapshot is the join of what the active windows ask for. */
  ghost predicate IsJoin(p: Snapshot, active: seq<Window>, jobs: seq<Job>) {
    && (forall id: string :: id in p.pausedJobIDs <==>
          Demanded(active, jobs, id, AllowFinish) || Demanded(active, jobs, id, ForceCancel))
    && (forall id: string :: id in p.jobOnStart <==> id in p.pausedJobIDs)
    && (forall id: string :: id in p.jobOnStart ==>
          (p.jobOnStart[id] == ForceCancel <==> Demanded(active, jobs, id, ForceCancel)))
    && (forall h: string :: h in p.pausedHostIDs <==>
          HostDemanded(active, h, AllowFinish) || HostDemanded(active, h, ForceCancel))
    && (p.skipEntireScan <==> LOCAL in p.pausedHostIDs)
    && (p.localOnStart.Some? <==> LOCAL in p.pausedHostIDs)
    && (p.localOnStart == Some(ForceCancel) <==> HostDemanded(active, LOCAL, ForceCancel))
  }

  // ---------- Accumulating requests ----------

  /** A snapshot that holds exactly the job requests `asked` and the host requests `hosts`. */
  ghost predicate Holds(p: Snapshot, asked: set<(string, OnStart)>, hosts: set<(string, OnStart)>) {
    && (forall id: string :: id in p.pausedJobIDs <==> (id, AllowFinish) in asked || (id, ForceCancel) in asked)
    && p.jobOnStart.Keys == p.pausedJobIDs
    && (forall id: string :: id in p.jobOnStart ==> (p.jobOnStart[id] == ForceCancel <==> (id, ForceCancel) in asked))
    && (forall h: string :: h in p.pausedHostIDs <==> (h, AllowFinish) in hosts || (h, ForceCancel) in hosts)
    && (p.skipEntireScan <==> LOCAL in p.pausedHostIDs)
    && (p.localOnStart.Some? <==> LOCAL in p.pausedHostIDs)
    && (p.localOnStart == Some(ForceCancel) <==> (LOCAL, ForceCancel) in hosts)
  }

  function PauseJob(p: Snapshot, id: string, s: OnStart): Snapshot {
    var before := if id in p.jobOnStart then Some(p.jobOnStart[id]) else None;
    p.(pausedJobIDs := p.pausedJobIDs + {id},
       jobOnStart := p.jobOnStart[id := StrongerOnStart(before, Some(s)).value])
  }

  lemma PauseJobHolds(p: Snapshot, id: string, s: OnStart,
                      asked: set<(string, OnStart)>, hosts: set<(string, OnStart)>)
    requires Holds(p, asked, hosts)
    ensures Holds(PauseJob(p, id, s), asked + {(id, s)}, hosts)
  {}

  method ComputeMaintenancePause(windows: seq<Window>, jobs: seq<Job>, now: int) returns (p: Snapshot)
    ensures p.active == ActiveOnes(windows, now)
    ensures IsJoin(p, p.active, jobs)
  {
    var active := ActiveMaintenanceWindows(windows, now);
    p := Snapshot(false, {}, {}, active, map[], None);
    ghost var asked: set<(string, OnStart)>, hosts: set<(string, OnStart)> := {}, {};
    for i := 0 to |active|
      invariant p.active == active && Holds(p, asked, hosts)
      invariant forall id: string, s: OnStart :: (id, s) in asked <==> Demanded(active[..i], jobs, id, s)
      invariant forall h: string, s: OnStart :: (h, s) in hosts <==> HostDemanded(active[..i], h, s)
    {
      var w := active[i];
      assert forall x: Window :: x in active[..i + 1] <==> x in active[..i] || x == w;
      p, asked, hosts := ApplyWindow(p, w, jobs, asked, hosts);
    }
    assert active[..|active|] == active;
  }

  /** One window's requests: first its jobs, then host by host the host and its jobs. */
  method ApplyWindow(p0: Snapshot, w: Window, jobs: seq<Job>,
                     ghost asked0: set<(string, OnStart)>, ghost hosts0: set<(string, OnStart)>)
    returns (p: Snapshot, ghost asked: set<(string, OnStart)>, ghost hosts: set<(string, OnStart)>)
    requires Holds(p0, asked0, hosts0)
    ensures p.active == p0.active && Holds(p, asked, hosts)
    ensures forall id: string, s: OnStart ::
      (id, s) in asked <==> (id, s) in asked0 || (w.onStart == s && Governs(w, jobs, id))
    ensures forall h: string, s: OnStart ::
      (h, s) in hosts <==> (h, s) in hosts0 || (w.onStart == s && h in w.dockerHostIDs)
  {
    p, asked := PauseJobs(p0, w.jobIDs, w.onStart, asked0, hosts0);
    hosts := hosts0;
    ghost var listed := asked;
    for k := 0 to |w.dockerHostIDs|
      invariant p.active == p0.active && Holds(p, asked, hosts)
      invariant forall id: string, s: OnStart ::
        (id, s) in asked <==>
          (id, s) in listed || (w.onStart == s && exists h: string :: h in w.dockerHostIDs[..k] && PinnedTo(jobs, h, id))
      invariant forall h: string, s: OnStart ::
        (h, s) in hosts <==> (h, s) in hosts0 || (w.onStart == s && h in w.dockerHostIDs[..k])
    {
      var hostID := w.dockerHostIDs[k];
      assert forall h: string :: h in w.dockerHostIDs[..k + 1] <==> h in w.dockerHostIDs[..k] || h == hostID;
      p, hosts := PauseHost(p, hostID, w.onStart, asked, hosts);
      var pinned := JobsForHost(jobs, hostID);
      var ids := IDsOf(pinned);
      p, asked := PauseJobs(p, ids, w.onStart, asked, hosts);
      assert forall id: string :: id in ids <==> PinnedTo(jobs, hostID, id);
    }
    assert w.dockerHostIDs[..|w.dockerHostIDs|] == w.dockerHostIDs;
  }

  method IDsOf(jobs: seq<Job>) returns (ids: seq<string>)
    ensures forall id: string :: id in ids <==> exists j: Job :: j in jobs && j.id == id
  {
    ids := [];
    for i := 0 to |jobs|
      invariant forall id: string :: id in ids <==> exists j: Job :: j in jobs[..i] && j.id == id
    {
      assert forall j: Job :: j in jobs[..i + 1] <==> j in jobs[..i] || j == jobs[i];
      ids := ids + [jobs[i].id];
    }
    assert jobs[..|jobs|] == jobs;
  }

  method PauseJobs(p0: Snapshot, ids: seq<string>, onStart: OnStart,
                   ghost asked0: set<(string, OnStart)>, ghost hosts: set<(string, OnStart)>)
    returns (p: Snapshot, ghost asked: set<(string, OnStart)>)
    requires Holds(p0, asked0, hosts)
    ensures p.active == p0.active && Holds(p, asked, hosts)
    ensures forall id: string, s: OnStart ::
      (id, s) in asked <==> (id, s) in asked0 || (onStart == s && id in ids)
  {
    p, asked := p0, asked0;
    for i := 0 to |ids|
      invariant p.active == p0.active && Holds(p, asked, hosts)
      invariant forall id: string, s: OnStart ::
        (id, s) in asked <==> (id, s) in asked0 || (onStart == s && id in ids[..i])
    {
      PauseJobHolds(p, ids[i], onStart, asked, hosts);
      p := PauseJob(p, ids[i], onStart);
      asked := asked + {(ids[i], onStart)};
    }
  }

  method PauseHost(p0: Snapshot, hostID: string, onStart: OnStart,
                   ghost asked: set<(string, OnStart)>, ghost hosts0: set<(string, OnStart)>)
    returns (p: Snapshot, ghost hosts: set<(string, OnStart)>)
    requires Holds(p0, asked, hosts0)
    ensures p.active == p0.active && Holds(p, asked, hosts) && hosts == hosts0 + {(hostID, onStart)}
  {
    p := p0.(pausedHostIDs := p0.pausedHostIDs + {hostID});
    hosts := hosts0 + {(hostID, onStart)};
    if hostID == LOCAL {
      p := p.(skipEntireScan := true, localOnStart := StrongerOnStart(p.localOnStart, Some(onStart)));
    }
  }

  // ---------- Order independence ----------

  /** The same window, but for the order and repetition of the IDs it lists. */
  ghost predicate SameTargets(w: Window, v: Window) {
    && v == w.(jobIDs := v.jobIDs, dockerHostIDs := v.dockerHostIDs)
    && (forall id: string :: id in w.jobIDs <==> id in v.jobIDs)
    && (forall h: string :: h in w.dockerHostIDs <==> h in v.dockerHostIDs)
  }

  ghost predicate EachHasTwin(windows: seq<Window>, windows': seq<Window>) {
    forall w: Window :: w in windows ==> exists v: Window :: v in windows' && SameTargets(w, v)
  }

  lemma TwinsDemandAlike(windows: seq<Window>, windows': seq<Window>, jobs: seq<Job>, jobs': seq<Job>, now: int)
    requires EachHasTwin(windows, windows')
    requires forall j: Job :: j in jobs ==> j in jobs'
    ensures forall id: string, s: OnStart ::
      Demanded(ActiveOnes(windows, now), jobs, id, s) ==> Demanded(ActiveOnes(windows', now), jobs', id, s)
    ensures forall h: string, s: OnStart ::
      HostDemanded(ActiveOnes(windows, now), h, s) ==> HostDemanded(ActiveOnes(windows', now), h, s)
  {
    var active, active' := ActiveOnes(windows, now), ActiveOnes(windows', now);
    ActiveOnesMembers(windows, now);
    ActiveOnesMembers(windows', now);
    forall w: Window | w in active
      ensures exists v: Window :: v in active' && SameTargets(w, v)
    {
      var v: Window :| v in windows' && SameTargets(w, v);
      SameSchedule(w, v, now);
    }
    forall id: string, s: OnStart | Demanded(active, jobs, id, s) ensures Demanded(active', jobs', id, s) {
      var w: Window :| w in active && Governs(w, jobs, id) && w.onStart == s;
      var v: Window :| v in active' && SameTargets(w, v);
      assert Governs(v, jobs', id);
    }
    forall h: string, s: OnStart | HostDemanded(active, h, s) ensures HostDemanded(active', h, s) {
      var w: Window :| w in active && h in w.dockerHostIDs && w.onStart == s;
      var v: Window :| v in active' && SameTargets(w, v);
    }
  }

  /** The targets of a window do not enter into when it is active. */
  lemma SameSchedule(w: Window, v: Window, now: int)
    requires SameTargets(w, v)
    ensures ActiveAt(w, now) <==> ActiveAt(v, now)
  {
    if Configured(w) && Anchored(w) {
      forall day: int ensures OnDay(w, day) == OnDay(v, day) && Slot(w, day) == Slot(v, day) {}
      forall o: int ensures InReachBefore(w, now, o) <==> InReachBefore(v, now, o) {}
    }
  }

  lemma JoinIsUnique(p: Snapshot, q: Snapshot, active: seq<Window>, active': seq<Window>,
                     jobs: seq<Job>, jobs': seq<Job>)
    requires IsJoin(p, active, jobs) && IsJoin(q, active', jobs')
    requires forall id: string, s: OnStart :: Demanded(active, jobs, id, s) <==> Demanded(active', jobs', id, s)
    requires forall h: string, s: OnStart :: HostDemanded(active, h, s) <==> HostDemanded(active', h, s)
    ensures p.(active := []) == q.(active := [])
  {
    assert p.pausedJobIDs == q.pausedJobIDs;
    assert p.pausedHostIDs == q.pausedHostIDs;
    assert p.jobOnStart.Keys == q.jobOnStart.Keys;
    forall id: string | id in p.jobOnStart ensures p.jobOnStart[id] == q.jobOnStart[id] {
      SameBehaviour(p.jobOnStart[id], q.jobOnStart[id], Demanded(active, jobs, id, ForceCancel));
    }
    assert p.jobOnStart == q.jobOnStart;
    if p.localOnStart.Some? {
      SameBehaviour(p.localOnStart.value, q.localOnStart.value, HostDemanded(active, LOCAL, ForceCancel));
    }
  }

  lemma SameBehaviour(a: OnStart, b: OnStart, force: bool)
    requires (a == ForceCancel <==> force) && (b == ForceCancel <==> force)
    ensures a == b
  {}

  /** The whole snapshot, apart from the list of windows it carries, does not depend on the
      order of the windows, of the jobs, or of the IDs listed in a window. */
  lemma SnapshotOrderIndependent(p: Snapshot, q: Snapshot, windows: seq<Window>, windows': seq<Window>,
                                 jobs: seq<Job>, jobs': seq<Job>, now: int)
    requires IsJoin(p, ActiveOnes(windows, now), jobs) && IsJoin(q, ActiveOnes(windows', now), jobs')
    requires EachHasTwin(windows, windows') && EachHasTwin(windows', windows)
    requires forall j: Job :: j in jobs <==> j in jobs'
    ensures p.(active := []) == q.(active := [])
  {
    TwinsDemandAlike(windows, windows', jobs, jobs', now);
    TwinsDemandAlike(windows', windows, jobs', jobs, now);
    JoinIsUnique(p, q, ActiveOnes(windows, now), ActiveOnes(windows', now), jobs, jobs');
  }

  /** A force-cancel window is never overridden: whatever else is active, the jobs it governs
      and, if it lists the local host, the actions without a job, are to be force-cancelled. */
  lemma ForceCancelGoverns(p: Snapshot, active: seq<Window>, jobs: seq<Job>, w: Window, jobID: string)
    requires IsJoin(p, active, jobs) && w in active && w.onStart == ForceCancel
    requires if jobID == "" then LOCAL in w.dockerHostIDs else Governs(w, jobs, jobID)
    ensures p.OnStartFor(jobID) == Some(ForceCancel)
  {
    if jobID == "" {
      assert HostDemanded(active, LOCAL, ForceCancel);
    } else {
      assert Demanded(active, jobs, jobID, ForceCancel);
    }
  }

  // ---------- The check a worker makes before it acts ----------

  /** The behaviour governing a job at `now`, read directly off the windows. */
  ghost function OnStartAt(windows: seq<Window>, jobs: seq<Job>, now: int, jobID: string): Option<OnStart> {
    var active := ActiveOnes(windows, now);
    var asked := (s: OnStart) =>
      if jobID == "" then HostDemanded(active, LOCAL, s) else Demanded(active, jobs, jobID, s);
    if asked(ForceCancel) then Some(ForceCancel)
    else if asked(AllowFinish) then Some(AllowFinish)
    else None
  }

  lemma SnapshotOnStart(p: Snapshot, windows: seq<Window>, jobs: seq<Job>, now: int, jobID: string)
    requires IsJoin(p, ActiveOnes(windows, now), jobs)
    ensures p.OnStartFor(jobID) == OnStartAt(windows, jobs, now, jobID)
  {
    var r := p.OnStartFor(jobID);
    if r.Some? {
      SameBehaviour(r.value, if r.value == ForceCancel then ForceCancel else AllowFinish, r.value == ForceCancel);
    }
  }

  method MaintenanceOnStartFor(windows: seq<Window>, jobs: seq<Job>, now: int, jobID: string)
    returns (r: Option<OnStart>)
    ensures r == OnStartAt(windows, jobs, now, jobID)
  {
    var p := ComputeMaintenancePause(windows, jobs, now);
    SnapshotOnStart(p, windows, jobs, now, jobID);
    r := p.OnStartFor(jobID);
  }

  method FilterPausedJobs(jobs: seq<Job>, p: Snapshot) returns (out: seq<Job>)
    ensures out == Unpaused(jobs, p.pausedJobIDs)
  {
    out := [];
    for i := 0 to |jobs|
      invariant out == Unpaused(jobs[..i], p.pausedJobIDs)
    {
      assert jobs[..i + 1][..i] == jobs[..i];
      if jobs[i].id in p.pausedJobIDs { continue; }
      out := out + [jobs[i]];
    }
    assert jobs[..|jobs|] == jobs;
  }

  function Unpaused(jobs: seq<Job>, paused: set<string>): (out: seq<Job>)
    ensures forall j: Job :: j in out <==> j in jobs && j.id !in paused
  {
    if jobs == [] then []
    else
      var init, last := jobs[..|jobs| - 1], jobs[|jobs| - 1];
      assert jobs == init + [last];
      Unpaused(init, paused) + if last.id in paused then [] else [last]
  }

  // ---------- Job by job ----------

  predicate Reaches(w: Window, jobs: seq<Job>, jobID: string) {
    || (exists k :: 0 <= k < |w.jobIDs| && w.jobIDs[k] == jobID)
    || (exists i, k :: 0 <= i < |jobs| && 0 <= k < |w.dockerHostIDs| && jobs[i].id == jobID && OnHost(jobs[i], w.dockerHostIDs[k]))
  }

  predicate OnHost(j: Job, hostID: string) {
    |j.dockerHostIDs| > 0 ==> hostID in j.dockerHostIDs
  }

  lemma ReachesMeans(w: Window, jobs: seq<Job>, jobID: string)
    ensures Governs(w, jobs, jobID) <==> Reaches(w, jobs, jobID)
  {
    if h: string :| h in w.dockerHostIDs && PinnedTo(jobs, h, jobID) {
      var j: Job :| j in jobs && AppliesTo(j, h) && j.id == jobID;
      var i :| 0 <= i < |jobs| && jobs[i] == j;
      var k :| 0 <= k < |w.dockerHostIDs| && w.dockerHostIDs[k] == h;
      assert OnHost(jobs[i], w.dockerHostIDs[k]);
    }
    if i, k :| 0 <= i < |jobs| && 0 <= k < |w.dockerHostIDs| && jobs[i].id == jobID && OnHost(jobs[i], w.dockerHostIDs[k]) {
      assert PinnedTo(jobs, w.dockerHostIDs[k], jobID);
    }
  }

  /** What a snapshot says of a job and of the local host, window by window. */
  lemma PausedMeans(p: Snapshot, active: seq<Window>, jobs: seq<Job>, jobID: string)
    requires IsJoin(p, active, jobs)
    ensures jobID in p.pausedJobIDs <==> exists w: Window :: w in active && Reaches(w, jobs, jobID)
    ensures jobID in p.jobOnStart && p.jobOnStart[jobID] == ForceCancel <==>
            exists w: Window :: w in active && w.onStart == ForceCancel && Reaches(w, jobs, jobID)
    ensures p.skipEntireScan <==> exists w: Window :: w in active && "local" in w.dockerHostIDs
    ensures p.localOnStart == Some(ForceCancel) <==>
            exists w: Window :: w in active && w.onStart == ForceCancel && "local" in w.dockerHostIDs
  {
    forall w: Window ensures Governs(w, jobs, jobID) <==> Reaches(w, jobs, jobID) {
      ReachesMeans(w, jobs, jobID);
    }
    forall w: Window | w in active && Reaches(w, jobs, jobID)
      ensures Demanded(active, jobs, jobID, w.onStart) {}
    forall w: Window | w in active && "local" in w.dockerHostIDs
      ensures HostDemanded(active, LOCAL, w.onStart) {}
  }

  lemma {:induction false} UnpausedInOrder(a: seq<Job>, b: seq<Job>, paused: set<string>)
    ensures Unpaused(a + b, paused) == Unpaused(a, paused) + Unpaused(b, paused)
  {
    if b == [] {
      assert a + b == a;
    } else {
      assert (a + b)[..|a + b| - 1] == a + b[..|b| - 1];
      UnpausedInOrder(a, b[..|b| - 1], paused);
    }
  }

  lemma UnpausedOne(j: Job, paused: set<string>)
    ensures Unpaused([j], paused) == if j.id in paused then [] else [j]
  {
    assert [j][..0] == [];
  }
}
