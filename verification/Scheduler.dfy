/** Which jobs a scan runs, and how long the monitor sleeps between scans
    (`computeDueJobs`, `timeUntilNextJobDue` in cmd/server/monitor.go). */
module Scheduler {
  import opened Common
  import opened Jobs
  import opened Pause
  import opened Schedule

  /** Go's zero time, 1 January of the year 1, which a missing entry of `lastJobScan` reads as. */
  const ZERO_TIME := -62135596800 * SECOND

  type LastScans = map<string, int>

  function ScanInterval(j: Job): (i: int)
    ensures i >= 5 * SECOND
  {
    if j.monitorIntervalSeconds < 5 then 60 * SECOND else j.monitorIntervalSeconds * SECOND
  }

  predicate IsDue(j: Job, last: LastScans, now: int) {
    j.enabled && (j.id in last ==> now - last[j.id] >= ScanInterval(j))
  }

  /** The jobs due at `now`, in order; a job marked due counts as scanned for those after it. */
  function DueJobs(jobs: seq<Job>, last: LastScans, now: int): (due: seq<Job>) {
    if jobs == [] then []
    else
      var before := DueJobs(jobs[..|jobs| - 1], last, now);
      var j := jobs[|jobs| - 1];
      before + if IsDue(j, Marked(last, before, now), now) then [j] else []
  }

  /** The scan times after marking jobs as scanned at `now`. */
  function Marked(last: LastScans, due: seq<Job>, now: int): LastScans {
    if due == [] then last
    else Marked(last, due[..|due| - 1], now)[due[|due| - 1].id := now]
  }

  function LastOrZero(last: LastScans, id: string): int {
    if id in last then last[id] else ZERO_TIME
  }

  function DueTime(j: Job, last: LastScans): int {
    LastOrZero(last, j.id) + ScanInterval(j)
  }

  /** `next` is the earliest due time of the enabled jobs. */
  predicate IsNextDue(jobs: seq<Job>, last: LastScans, next: int) {
    && (exists j: Job :: j in jobs && j.enabled && DueTime(j, last) == next)
    && (forall j: Job :: j in jobs && j.enabled ==> next <= DueTime(j, last))
  }

  predicate AnyEnabled(jobs: seq<Job>) {
    exists j: Job :: j in jobs && j.enabled
  }

  /** The sleep is right for the unpaused jobs. */
  ghost predicate IsSleep(jobs: seq<Job>, last: LastScans, now: int, sleep: int) {
    if AnyEnabled(jobs)
    then exists next: int :: IsNextDue(jobs, last, next) && sleep == if next - now > 0 then next - now else SECOND
    else sleep == 60 * SECOND
  }

  datatype DueMark = DueMark(id: string, at: int, interval: int)

  /** Marks of one job are at least the interval of the later one apart. */
  predicate Spaced(marks: seq<DueMark>) {
    forall i, k :: 0 <= i < k < |marks| && marks[i].id == marks[k].id ==>
      marks[k].at - marks[i].at >= marks[k].interval
  }

  predicate MarksBefore(marks: seq<DueMark>, last: LastScans) {
    forall i :: 0 <= i < |marks| ==> marks[i].id in last && marks[i].at <= last[marks[i].id]
  }

  function MarksOf(due: seq<Job>, now: int): seq<DueMark> {
    if due == [] then []
    else
      var j := due[|due| - 1];
      MarksOf(due[..|due| - 1], now) + [DueMark(j.id, now, ScanInterval(j))]
  }

  lemma DueSnoc(last: LastScans, due: seq<Job>, j: Job, now: int)
    ensures Marked(last, due + [j], now) == Marked(last, due, now)[j.id := now]
    ensures MarksOf(due + [j], now) == MarksOf(due, now) + [DueMark(j.id, now, ScanInterval(j))]
    ensures IDs(due + [j]) == IDs(due) + {j.id}
  {
    SplitLast(due, j);
  }

  function IDs(due: seq<Job>): set<string> {
    if due == [] then {} else IDs(Front(due)) + {Last(due).id}
  }

  lemma {:induction false} IDsMembers(due: seq<Job>, id: string)
    ensures id in IDs(due) <==> exists j: Job :: j in due && j.id == id
  {
    if due != [] {
      IDsMembers(Front(due), id);
      assert due == Front(due) + [Last(due)];
    }
  }

  /** What one more job adds to the due ones. */
  lemma DueNext(jobs: seq<Job>, i: nat, last: LastScans, now: int)
    requires i < |jobs|
    ensures var before := DueJobs(jobs[..i], last, now);
      DueJobs(jobs[..i + 1], last, now) ==
      if IsDue(jobs[i], Marked(last, before, now), now) then before + [jobs[i]] else before
  {
    assert jobs[..i + 1][..i] == jobs[..i];
  }

  class Monitor {
    var lastJobScan: LastScans
    /** Every due mark there ever was, and whether no action has been recorded as finished before
        the scan already recorded for its job. */
    ghost var marks: seq<DueMark>
    ghost var forward: bool

    ghost predicate Valid()
      reads this
    {
      forward ==> Spaced(marks) && MarksBefore(marks, lastJobScan)
    }

    constructor ()
      ensures Valid() && lastJobScan == map[] && marks == [] && forward
    {
      lastJobScan, marks, forward := map[], [], true;
    }

    method MarkDue(j: Job, now: int)
      requires Valid() && IsDue(j, lastJobScan, now)
      modifies this`lastJobScan, this`marks
      ensures Valid() && lastJobScan == old(lastJobScan)[j.id := now]
      ensures marks == old(marks) + [DueMark(j.id, now, ScanInterval(j))]
    {
      if forward { MarkKeepsSpacing(marks, lastJobScan, j, now); }
      lastJobScan := lastJobScan[j.id := now];
      marks := marks + [DueMark(j.id, now, ScanInterval(j))];
    }

    /** Takes the jobs that are due and marks them; marks of a job stay its interval apart. */
    method ComputeDueJobs(jobs: seq<Job>, now: int) returns (dueJobs: seq<Job>, dueJobIDs: set<string>)
      requires Valid()
      modifies this`lastJobScan, this`marks
      ensures Valid()
      ensures dueJobs == DueJobs(jobs, old(lastJobScan), now)
      ensures dueJobIDs == IDs(dueJobs)
      ensures lastJobScan == Marked(old(lastJobScan), dueJobs, now)
      ensures marks == old(marks) + MarksOf(dueJobs, now)
    {
      dueJobs, dueJobIDs := [], {};
      for i := 0 to |jobs|
        invariant Valid() && dueJobs == DueJobs(jobs[..i], old(lastJobScan), now)
        invariant dueJobIDs == IDs(dueJobs)
        invariant lastJobScan == Marked(old(lastJobScan), dueJobs, now)
        invariant marks == old(marks) + MarksOf(dueJobs, now)
      {
        var r := jobs[i];
        DueNext(jobs, i, old(lastJobScan), now);
        if !r.enabled { continue; }
        if r.id !in lastJobScan || now - lastJobScan[r.id] >= ScanInterval(r) {
          DueSnoc(old(lastJobScan), dueJobs, r, now);
          dueJobs := dueJobs + [r];
          dueJobIDs := dueJobIDs + {r.id};
          MarkDue(r, now);
        }
      }
      assert jobs[..|jobs|] == jobs;
    }

    /** A failed action counts as a scan of its job at the time it finished. */
    method SetLastJobScan(jobID: string, t: int)
      requires Valid()
      modifies this`lastJobScan, this`forward
      ensures Valid() && lastJobScan == old(lastJobScan)[jobID := t]
      ensures forward <==> old(forward) && (jobID in old(lastJobScan) ==> old(lastJobScan)[jobID] <= t)
    {
      forward := forward && (jobID in lastJobScan ==> lastJobScan[jobID] <= t);
      lastJobScan := lastJobScan[jobID := t];
    }

    method TimeUntilNextJobDue(allJobs: seq<Job>, windows: seq<Window>, now: int) returns (sleep: int)
      ensures 0 < sleep
      ensures forall p: Snapshot :: IsJoin(p, ActiveOnes(windows, now), allJobs) ==>
        if p.skipEntireScan then sleep == 60 * SECOND
        else IsSleep(Unpaused(allJobs, p.pausedJobIDs), lastJobScan, now, sleep)
    {
      var pause := ComputeMaintenancePause(windows, allJobs, now);
      forall p: Snapshot | IsJoin(p, ActiveOnes(windows, now), allJobs)
        ensures p.(active := []) == pause.(active := [])
      {
        JoinIsUnique(p, pause, ActiveOnes(windows, now), ActiveOnes(windows, now), allJobs, allJobs);
      }
      if pause.skipEntireScan { return 60 * SECOND; }
      var jobs := FilterPausedJobs(allJobs, pause);
      var next: Option<int> := None;
      for i := 0 to |jobs|
        invariant next.None? ==> !AnyEnabled(jobs[..i])
        invariant next.Some? ==> IsNextDue(jobs[..i], lastJobScan, next.value)
      {
        var r := jobs[i];
        assert forall j: Job :: j in jobs[..i + 1] <==> j in jobs[..i] || j == r;
        if !r.enabled { continue; }
        var due := LastOrZero(lastJobScan, r.id) + ScanInterval(r);
        if next.None? || due < next.value { next := Some(due); }
      }
      assert jobs[..|jobs|] == jobs;
      if next.None? { return 60 * SECOND; }
      var d := next.value - now;
      sleep := if d > 0 then d else SECOND;
    }
  }

  lemma MarkKeepsSpacing(marks: seq<DueMark>, last: LastScans, j: Job, now: int)
    requires Spaced(marks) && MarksBefore(marks, last) && IsDue(j, last, now)
    ensures Spaced(marks + [DueMark(j.id, now, ScanInterval(j))])
    ensures MarksBefore(marks + [DueMark(j.id, now, ScanInterval(j))], last[j.id := now])
  {}

  // ---------- Sleeping and waking agree ----------

  /** Something is due exactly when some single job is due against the recorded scans. */
  lemma {:induction false} DueIffSomeJobIs(jobs: seq<Job>, last: LastScans, t: int)
    ensures DueJobs(jobs, last, t) != [] <==> exists j: Job :: j in jobs && IsDue(j, last, t)
  {
    if jobs != [] {
      var init, r := jobs[..|jobs| - 1], jobs[|jobs| - 1];
      assert jobs == init + [r];
      DueIffSomeJobIs(init, last, t);
    }
  }

  /** On waking after the sleep some job is due. */
  lemma WakeFindsWork(jobs: seq<Job>, last: LastScans, now: int, sleep: int)
    requires AnyEnabled(jobs) && IsSleep(jobs, last, now, sleep)
    ensures DueJobs(jobs, last, now + sleep) != []
  {
    var next: int :| IsNextDue(jobs, last, next) && sleep == if next - now > 0 then next - now else SECOND;
    var j: Job :| j in jobs && j.enabled && DueTime(j, last) == next;
    assert IsDue(j, last, now + sleep);
    DueIffSomeJobIs(jobs, last, now + sleep);
  }

  /** Unless the one-second floor applied, no job is due at any earlier instant of the sleep, on a
      clock that is further from the zero time than any interval. */
  lemma NothingDueWhileSleeping(jobs: seq<Job>, last: LastScans, now: int, next: int, t: int)
    requires IsNextDue(jobs, last, next) && now <= t < next
    requires forall j: Job :: j in jobs && j.enabled ==> ZERO_TIME + ScanInterval(j) <= now
    ensures DueJobs(jobs, last, t) == []
  {
    DueIffSomeJobIs(jobs, last, t);
    forall j: Job | j in jobs ensures !IsDue(j, last, t) {
      assert j.enabled ==> next <= DueTime(j, last);
    }
  }

  /** So an enabled job that was never scanned always makes the floor apply. */
  lemma UnscannedJobsMeanFloor(jobs: seq<Job>, last: LastScans, now: int, next: int, j: Job)
    requires IsNextDue(jobs, last, next) && j in jobs && j.enabled && j.id !in last
    requires ZERO_TIME + ScanInterval(j) <= now
    ensures next <= now
  {
    assert next <= DueTime(j, last);
  }

  // ---------- One mark per job and pass ----------

  lemma {:induction false} MarkedAt(last: LastScans, due: seq<Job>, now: int, id: string)
    ensures id in Marked(last, due, now) <==> id in last || exists j: Job :: j in due && j.id == id
    ensures (exists j: Job :: j in due && j.id == id) ==> Marked(last, due, now)[id] == now
  {
    if due != [] {
      var init, r := due[..|due| - 1], due[|due| - 1];
      assert due == init + [r];
      MarkedAt(last, init, now, id);
    }
  }

  /** However often an ID is listed, a pass takes at most one job of that ID. */
  lemma {:induction false} OneDueJobPerID(jobs: seq<Job>, last: LastScans, now: int, i: nat, k: nat)
    requires i < k < |DueJobs(jobs, last, now)|
    ensures DueJobs(jobs, last, now)[i].id != DueJobs(jobs, last, now)[k].id
  {
    var init, r := jobs[..|jobs| - 1], jobs[|jobs| - 1];
    var before := DueJobs(init, last, now);
    if k < |before| {
      OneDueJobPerID(init, last, now, i, k);
    } else {
      MarkedAt(last, before, now, before[i].id);
      assert before[i] in before;
    }
  }

  // ---------- Marks over any sequence of scans and finished actions ----------

  datatype Round = Scan(jobs: seq<Job>, now: int) | Finish(jobID: string, t: int)

  datatype Record = Record(last: LastScans, marks: seq<DueMark>, forward: bool)

  function NextRecord(r: Record, x: Round): Record {
    match x
    case Scan(jobs, now) =>
      var due := DueJobs(jobs, r.last, now);
      Record(Marked(r.last, due, now), r.marks + MarksOf(due, now), r.forward)
    case Finish(id, t) => Record(r.last[id := t], r.marks, r.forward && (id in r.last ==> r.last[id] <= t))
  }

  function Play(rounds: seq<Round>): Record {
    if rounds == [] then Record(map[], [], true)
    else NextRecord(Play(rounds[..|rounds| - 1]), rounds[|rounds| - 1])
  }

  lemma {:induction false} ScanKeepsSpacing(marks: seq<DueMark>, last: LastScans, jobs: seq<Job>, now: int)
    requires Spaced(marks) && MarksBefore(marks, last)
    ensures var due := DueJobs(jobs, last, now);
      Spaced(marks + MarksOf(due, now)) && MarksBefore(marks + MarksOf(due, now), Marked(last, due, now))
  {
    if jobs == [] {
      assert marks + [] == marks;
    } else {
      var init, j := jobs[..|jobs| - 1], jobs[|jobs| - 1];
      ScanKeepsSpacing(marks, last, init, now);
      var before := DueJobs(init, last, now);
      if IsDue(j, Marked(last, before, now), now) {
        MarkKeepsSpacing(marks + MarksOf(before, now), Marked(last, before, now), j, now);
        DueSnoc(last, before, j, now);
        assert marks + MarksOf(before, now) + [DueMark(j.id, now, ScanInterval(j))] == marks + MarksOf(before + [j], now);
        assert DueJobs(jobs, last, now) == before + [j];
      } else {
        assert DueJobs(jobs, last, now) == before;
      }
    }
  }

  /** Whatever jobs are configured from scan to scan and even if the scan clock goes back, any two
      due marks of a job are at least its interval at the later one apart, as long as no action
      is recorded as finished before its job's recorded scan. */
  lemma {:induction false} DueMarksSpaced(rounds: seq<Round>)
    ensures var r := Play(rounds); r.forward ==> Spaced(r.marks) && MarksBefore(r.marks, r.last)
  {
    if rounds != [] {
      var before, x := Play(rounds[..|rounds| - 1]), rounds[|rounds| - 1];
      DueMarksSpaced(rounds[..|rounds| - 1]);
      if x.Scan? && before.forward {
        ScanKeepsSpacing(before.marks, before.last, x.jobs, x.now);
      }
    }
  }

  // ---------- Job by job ----------

  /** A job is scanned at its own interval, or every minute if that is shorter than five seconds. */
  lemma IntervalMeans(j: Job)
    ensures ScanInterval(j) == (if j.monitorIntervalSeconds >= 5 then j.monitorIntervalSeconds else 60) * 1_000_000_000
  {}

  predicate DistinctIDs(jobs: seq<Job>) {
    forall i, k :: 0 <= i < k < |jobs| ==> jobs[i].id != jobs[k].id
  }

  /** Of jobs with different IDs exactly those are due that are enabled and were never scanned, or
      last at least their interval ago. */
  lemma {:induction false} DueMembers(jobs: seq<Job>, last: LastScans, now: int, j: Job)
    requires DistinctIDs(jobs)
    ensures j in DueJobs(jobs, last, now) <==>
            && j in jobs && j.enabled
            && (j.id !in last
                || now - last[j.id] >= (if j.monitorIntervalSeconds >= 5 then j.monitorIntervalSeconds else 60) * 1_000_000_000)
  {
    if jobs != [] {
      var before, r := jobs[..|jobs| - 1], jobs[|jobs| - 1];
      assert jobs == before + [r];
      DueMembers(before, last, now, j);
      DueAreListed(before, last, now);
      MarkedAt(last, DueJobs(before, last, now), now, r.id);
      NotMarked(last, DueJobs(before, last, now), now, r.id);
    }
  }

  lemma {:induction false} DueAreListed(jobs: seq<Job>, last: LastScans, now: int)
    ensures forall x: Job :: x in DueJobs(jobs, last, now) ==> x in jobs
  {
    if jobs != [] {
      DueAreListed(jobs[..|jobs| - 1], last, now);
      assert jobs == jobs[..|jobs| - 1] + [jobs[|jobs| - 1]];
    }
  }

  lemma {:induction false} NotMarked(last: LastScans, due: seq<Job>, now: int, id: string)
    ensures (forall x: Job :: x in due ==> x.id != id) && id in last ==>
              id in Marked(last, due, now) && Marked(last, due, now)[id] == last[id]
  {
    if due != [] {
      NotMarked(last, due[..|due| - 1], now, id);
      assert due == due[..|due| - 1] + [due[|due| - 1]];
    }
  }
}
