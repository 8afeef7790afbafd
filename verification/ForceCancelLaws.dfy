/** No action escapes a force-cancel window: whatever its worker was doing when the window
    opened, once the cancel pass is over no governed action runs in a live context. */
module ForceCancelLaws {
  import opened ActionProtocol
  import opened ClaimLaws
  import opened Common
  import opened ContainerState
  import opened Jobs
  import opened Pause
  import opened Schedule
  import opened Transitions

  /** The window is in force and governs the job, as a worker would find now. */
  ghost predicate StillGoverned(s: State, w: Window, jobID: string) {
    w in s.windows && ActiveAt(w, s.now) && GovernedBy(w, s.jobs, jobID)
  }

  /** The window pauses the job; an action without a job belongs to the local host. */
  predicate GovernedBy(w: Window, jobs: seq<Job>, jobID: string) {
    if jobID == "" then LOCAL in w.dockerHostIDs else Governs(w, jobs, jobID)
  }

  lemma GovernedIsPaused(s: State, w: Window, jobID: string)
    requires StillGoverned(s, w, jobID)
    ensures OnStartAt(s.windows, s.jobs, s.now, jobID).Some?
  {
    var active := ActiveOnes(s.windows, s.now);
    ActiveOnesMembers(s.windows, s.now);
    if jobID == "" {
      assert HostDemanded(active, LOCAL, w.onStart);
    } else {
      assert Demanded(active, s.jobs, jobID, w.onStart);
    }
  }

  /** The worker is past its checks with an action of the job on container `n`, not forced. */
  predicate ActsOn(p: Phase, n: string, jobID: string) {
    (p.PastMaintenance? || p.Executing?) && !p.job.force && p.job.name == n && p.job.jobID == jobID
  }

  /** Every action of the job on `n` that is past its checks is cancelled, or will be by the pass
      number `pass` of the scanner. */
  ghost predicate Shielded(s: State, n: string, jobID: string, pass: nat) {
    && pass <= s.passes
    && (s.passes == pass ==>
          (s.scanner.Cancelling? || s.scanner.Firing?) && s.scanner.pause.OnStartFor(jobID) == Some(ForceCancel))
    && (s.passes == pass && s.scanner.Firing? ==>
          forall w: nat :: w < |s.workers| && ActsOn(s.workers[w], n, jobID) ==>
            s.workers[w].ctx in s.cancelled || s.workers[w].ctx in s.scanner.todo)
    && (pass < s.passes ==> AllCancelled(s, n, jobID))
  }

  ghost predicate AllCancelled(s: State, n: string, jobID: string) {
    forall w: nat :: w < |s.workers| && ActsOn(s.workers[w], n, jobID) ==> s.workers[w].ctx in s.cancelled
  }

  /** While the job stays paused no worker passes the maintenance check with it. */
  lemma NobodyJoins(p: Phase, choice: Choice, cs: States, claimed: bool, governed: Option<OnStart>, now: int, nextCtx: nat)
    requires WorkEffect(p, choice, cs, claimed, governed, now, nextCtx).Some?
    ensures var f := WorkEffect(p, choice, cs, claimed, governed, now, nextCtx).value;
      f.next.Acting() && !f.next.job.force ==>
        !p.Idle? && f.next.job == p.job && (governed.Some? ==> p.Acting() && f.next.ctx == p.ctx)
  {}

  lemma ShieldedWork(s: State, w: nat, choice: Choice, n: string, jobID: string, pass: nat)
    requires w < |s.workers| && WorkStep(s, w, choice).Some?
    requires Shielded(s, n, jobID, pass) && OnStartAt(s.windows, s.jobs, s.now, jobID).Some?
    ensures Shielded(WorkStep(s, w, choice).value, n, jobID, pass)
  {
    var t, p := WorkStep(s, w, choice).value, s.workers[w];
    NobodyJoins(p, choice, s.cState, NameOf(p) in s.activeJobs,
                OnStartAt(s.windows, s.jobs, s.now, JobIDOf(p)), s.now, s.nextCtx);
    forall v: nat | v < |t.workers| && ActsOn(t.workers[v], n, jobID)
      ensures ActsOn(s.workers[v], n, jobID) && t.workers[v].ctx == s.workers[v].ctx
    {
      if v != w {
        assert t.workers[v] == s.workers[v];
      }
    }
  }

  /** The collection finds every action that is past its checks, because its worker registered
      before it looked at the windows. */
  lemma CollectionFindsAll(s: State, n: string, jobID: string)
    requires Agreement(s, n) && s.scanner.Cancelling? && s.scanner.pause.OnStartFor(jobID) == Some(ForceCancel)
    ensures forall w: nat :: w < |s.workers| && ActsOn(s.workers[w], n, jobID) ==>
      s.workers[w].ctx in GovernedContexts(s.cancels, s.scanner.pause)
  {
    forall w: nat | w < |s.workers| && ActsOn(s.workers[w], n, jobID)
      ensures s.workers[w].ctx in GovernedContexts(s.cancels, s.scanner.pause)
    {
      assert s.workers[w].HasRegistration();
      assert s.cancels[n].jobID == jobID;
    }
  }

  lemma ShieldedStep(s: State, e: Event, n: string, jobID: string, pass: nat)
    requires Agreement(s, n) && Step(s, e).Some?
    requires Shielded(s, n, jobID, pass) && OnStartAt(s.windows, s.jobs, s.now, jobID).Some?
    ensures Shielded(Step(s, e).value, n, jobID, pass)
  {
    if e.Work? {
      ShieldedWork(s, e.w, e.choice, n, jobID, pass);
    } else if e.CollectCancels? && s.scanner.pause.OnStartFor(jobID) == Some(ForceCancel) {
      CollectionFindsAll(s, n, jobID);
    }
  }

  /** The run gets that far, and the job is paused then. */
  ghost predicate PausedAfter(init: State, events: seq<Event>, jobID: string) {
    Exec(Step, init, events).Some?
    && var s := Exec(Step, init, events).value; OnStartAt(s.windows, s.jobs, s.now, jobID).Some?
  }

  ghost predicate PausedFrom(init: State, events: seq<Event>, from: nat, jobID: string) {
    forall i: nat :: from <= i < |events| ==> PausedAfter(init, events[..i], jobID)
  }

  ghost predicate ShieldedAfter(init: State, events: seq<Event>, n: string, jobID: string, pass: nat) {
    Exec(Step, init, events).Some? && Shielded(Exec(Step, init, events).value, n, jobID, pass)
  }

  lemma ShieldedNext(init: State, events: seq<Event>, n: string, jobID: string, pass: nat)
    requires Init(init) && events != [] && Exec(Step, init, events).Some? && Sparing(init, events, n)
    requires PausedAfter(init, Front(events), jobID) && ShieldedAfter(init, Front(events), n, jobID, pass)
    ensures ShieldedAfter(init, events, n, jobID, pass)
  {
    AgreementInit(init, n);
    AgreementAlways(init, Front(events), n);
    ShieldedStep(Exec(Step, init, Front(events)).value, Last(events), n, jobID, pass);
  }

  lemma {:induction false} ShieldedAlways(init: State, events: seq<Event>, from: nat, n: string, jobID: string, pass: nat)
    requires Init(init) && Exec(Step, init, events).Some? && Sparing(init, events, n) && from <= |events|
    requires ShieldedAfter(init, events[..from], n, jobID, pass)
    requires PausedFrom(init, events, from, jobID)
    ensures ShieldedAfter(init, events, n, jobID, pass)
  {
    var k := |events| - 1;
    if from <= k {
      var before := Front(events);
      forall i: nat | i <= k ensures before[..i] == events[..i] {}
      assert PausedAfter(init, events[..k], jobID) && PausedFrom(init, before, from, jobID);
      ShieldedAlways(init, before, from, n, jobID, pass);
      ShieldedNext(init, events, n, jobID, pass);
    } else {
      assert events[..from] == events;
    }
  }

  // ---------- The scan that sees the window open ----------

  ghost predicate SnapshotIsJoin(s: State) {
    s.scanner.Snapshotted? || s.scanner.Cancelling? ==>
      IsJoin(s.scanner.pause, s.scanner.pause.active, s.scanner.jobsSeen)
  }

  lemma SnapshotIsJoinStep(s: State, e: Event)
    requires SnapshotIsJoin(s) && Step(s, e).Some?
    ensures SnapshotIsJoin(Step(s, e).value)
  {
    match e
    case Work(w, choice) => assert Step(s, e).value.scanner == s.scanner;
    case _ =>
  }

  lemma {:induction false} SnapshotIsJoinAlways(init: State, events: seq<Event>)
    requires Init(init) && Exec(Step, init, events).Some?
    ensures SnapshotIsJoin(Exec(Step, init, events).value)
  {
    if events != [] {
      SnapshotIsJoinAlways(init, Front(events));
      SnapshotIsJoinStep(Exec(Step, init, Front(events)).value, Last(events));
    }
  }

  lemma EdgeStartsPass(s: State, w: Window, n: string, jobID: string)
    requires s.scanner.Snapshotted? && SnapshotIsJoin(s)
    requires OpensIn(s, w) && GovernedBy(w, s.scanner.jobsSeen, jobID)
    ensures Step(s, DetectEdges).Some? && Shielded(Step(s, DetectEdges).value, n, jobID, s.passes)
  {
    var p := s.scanner.pause;
    ForceCancelGoverns(p, p.active, s.scanner.jobsSeen, w, jobID);
    assert OpensWithForce(w, ByID(p.active), s.activeIDs);
    assert ForceCancelStarted(p.active, s.activeIDs);
  }

  /** The scan under way has found force-cancel window `w` active, which the scan before had
      not; no other active window has its ID. */
  ghost predicate OpensIn(s: State, w: Window) {
    && s.scanner.Snapshotted?
    && w in s.scanner.pause.active && w.onStart == ForceCancel && w.id !in s.activeIDs
    && forall v: Window :: v in s.scanner.pause.active && v.id == w.id ==> v == w
  }

  ghost predicate GovernedAfter(init: State, events: seq<Event>, w: Window, jobID: string) {
    Exec(Step, init, events).Some? && StillGoverned(Exec(Step, init, events).value, w, jobID)
  }

  lemma OpeningShields(init: State, events: seq<Event>, w: Window, n: string, jobID: string)
    requires Init(init) && events != [] && Last(events) == DetectEdges && Exec(Step, init, Front(events)).Some?
    requires var s := Exec(Step, init, Front(events)).value; OpensIn(s, w) && GovernedBy(w, s.scanner.jobsSeen, jobID)
    ensures ShieldedAfter(init, events, n, jobID, Exec(Step, init, Front(events)).value.passes)
  {
    SnapshotIsJoinAlways(init, Front(events));
    EdgeStartsPass(Exec(Step, init, Front(events)).value, w, n, jobID);
  }

  lemma GovernedStaysPaused(init: State, events: seq<Event>, w: Window, jobID: string)
    requires GovernedAfter(init, events, w, jobID)
    ensures PausedAfter(init, events, jobID)
  {
    GovernedIsPaused(Exec(Step, init, events).value, w, jobID);
  }

  /** From the event at `at` on the window stays in force and governs the job. */
  ghost predicate GovernedSince(init: State, events: seq<Event>, at: nat, w: Window, jobID: string) {
    forall i: nat :: at < i < |events| ==> GovernedAfter(init, events[..i], w, jobID)
  }

  lemma GovernedIsPausedFrom(init: State, events: seq<Event>, at: nat, w: Window, jobID: string)
    requires GovernedSince(init, events, at, w, jobID)
    ensures PausedFrom(init, events, at + 1, jobID)
  {
    forall i: nat | at + 1 <= i < |events| ensures PausedAfter(init, events[..i], jobID) {
      GovernedStaysPaused(init, events[..i], w, jobID);
    }
  }

  /** No escape.  The event at `at` detects that force-cancel window `w` has opened; from then on
      `w` stays in force and keeps governing the job.  Then in every interleaving that takes no
      claim on container `n` away, once the cancel pass of that scan is over, no action of the job
      on `n` runs in a context that is not cancelled, unless it was forced. */
  lemma NoEscape(init: State, events: seq<Event>, at: nat, w: Window, n: string, jobID: string)
    requires Init(init) && Exec(Step, init, events).Some? && Sparing(init, events, n)
    requires at < |events| && events[at] == DetectEdges && Exec(Step, init, events[..at]).Some?
    requires var s := Exec(Step, init, events[..at]).value; OpensIn(s, w) && GovernedBy(w, s.scanner.jobsSeen, jobID)
    requires GovernedSince(init, events, at, w, jobID)
    ensures var s, t := Exec(Step, init, events[..at]).value, Exec(Step, init, events).value;
      s.passes < t.passes ==> AllCancelled(t, n, jobID)
  {
    var s := Exec(Step, init, events[..at]).value;
    FrontOfPrefix(events, at);
    OpeningShields(init, events[..at + 1], w, n, jobID);
    GovernedIsPausedFrom(init, events, at, w, jobID);
    ShieldedAlways(init, events, at + 1, n, jobID, s.passes);
  }

  lemma FrontOfPrefix(events: seq<Event>, at: nat)
    requires at < |events|
    ensures Front(events[..at + 1]) == events[..at] && Last(events[..at + 1]) == events[at]
  {}

  // ---------- The course of a scan ----------

  /** After the snapshot the edges are detected; the cancel pass runs exactly if a force-cancel window
      has opened; and the scan ends there exactly if the local host is paused. */
  lemma ScanCourse(s: State)
    requires s.scanner.Snapshotted?
    ensures Step(s, DetectEdges).Some?
    ensures var p, t := s.scanner.pause, Step(s, DetectEdges).value;
      && (t.scanner.Cancelling? <==>
            exists w: Window :: LastWithID(p.active, w) && w.id !in s.activeIDs && w.onStart == ForceCancel)
      && (!t.scanner.Cancelling? ==> t.scanner == if p.skipEntireScan then Resting else Scanning)
      && (t.scanner.Cancelling? ==> t.scanner.pause == p)
  {
    var p := s.scanner.pause;
    forall w: Window ensures OpensWithForce(w, ByID(p.active), s.activeIDs) <==>
      LastWithID(p.active, w) && w.id !in s.activeIDs && w.onStart == ForceCancel
    {
      OpensMeans(p.active, s.activeIDs, w);
    }
  }

  /** A dispatch goes on exactly if retries are not exhausted, and then, if a threshold is configured,
      sets it exactly if no wait is left. */
  lemma DispatchCourse(s: State, n: string, required: int)
    requires s.scanner.Scanning?
    ensures Step(s, Dispatch(n, required)).Some?
    ensures var t := Step(s, Dispatch(n, required)).value;
      if n in s.cState && s.cState[n].exhausted then t == s
      else
        && t.scanner == CheckingWait(n, required) && Step(t, CheckDispatchWait).Some?
        && var u := Step(t, CheckDispatchWait).value;
        && (u.scanner == SettingThreshold(n, required) <==>
              required > 0 && (n in s.cState && s.cState[n].deadline.Some? ==> s.cState[n].deadline.value <= s.now))
        && (u.scanner == SettingThreshold(n, required) || u.scanner == Scanning)
  {}

  ghost predicate Fired(s: State, t: State, contexts: set<nat>) {
    && t.cancelled == s.cancelled + contexts && t.passes == s.passes + 1
    && t.cState == s.cState && t.activeJobs == s.activeJobs && t.cancels == s.cancels && t.workers == s.workers
  }

  /** Nothing blocks the cancel pass: the scanner's own steps bring it to its end, with exactly the
      contexts cancelled whose registered job the snapshot wants force-cancelled. */
  lemma PassComesToEnd(s: State) returns (events: seq<Event>)
    requires s.scanner.Cancelling?
    ensures Exec(Step, s, events).Some? && !Exec(Step, s, events).value.scanner.Firing?
    ensures Fired(s, Exec(Step, s, events).value, GovernedContexts(s.cancels, s.scanner.pause))
  {
    var t := Step(s, CollectCancels).value;
    assert Front([CollectCancels]) == [];
    var more := FiringComesToEnd(t);
    ExecAppend(Step, s, [CollectCancels], more);
    events := [CollectCancels] + more;
  }

  lemma FireOnce(s: State, c: nat)
    requires s.scanner.Firing? && c in s.scanner.todo
    ensures Exec(Step, s, [Fire(c)]) == Step(s, Fire(c)) && Step(s, Fire(c)).Some?
    ensures var t := Step(s, Fire(c)).value;
      && t.scanner == Firing(s.scanner.pause, s.scanner.todo - {c}) && t.cancelled == s.cancelled + {c}
      && t.passes == s.passes && t.cState == s.cState && t.activeJobs == s.activeJobs
      && t.cancels == s.cancels && t.workers == s.workers
  {
    assert Front([Fire(c)]) == [];
  }

  lemma FireNone(s: State)
    requires s.scanner.Firing? && s.scanner.todo == {}
    ensures Exec(Step, s, [EndFiring]) == Step(s, EndFiring) && Step(s, EndFiring).Some?
    ensures var t := Step(s, EndFiring).value; t.scanner == AfterCancelling(s.scanner.pause) && Fired(s, t, {})
  {
    assert Front([EndFiring]) == [];
  }

  lemma {:induction false} FiringComesToEnd(s: State) returns (events: seq<Event>)
    requires s.scanner.Firing?
    ensures Exec(Step, s, events).Some? && Exec(Step, s, events).value.scanner == AfterCancelling(s.scanner.pause)
    ensures Fired(s, Exec(Step, s, events).value, s.scanner.todo)
    decreases |s.scanner.todo|
  {
    if s.scanner.todo == {} {
      FireNone(s);
      events := [EndFiring];
    } else {
      var c :| c in s.scanner.todo;
      FireOnce(s, c);
      var t := Step(s, Fire(c)).value;
      var more := FiringComesToEnd(t);
      ExecAppend(Step, s, [Fire(c)], more);
      events := [Fire(c)] + more;
      assert {c} + (s.scanner.todo - {c}) == s.scanner.todo;
    }
  }
}
