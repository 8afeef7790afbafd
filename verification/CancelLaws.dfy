/** The cancel pass spares what no force-cancel window governs: the only contexts it cancels under
    an action that is still at work belong to jobs that a force-cancel window governed when the
    scan took its snapshot.  This holds of every run, whatever is forced or reset. */
module CancelLaws {
  import opened ActionProtocol
  import opened ClaimLaws
  import opened Common
  import opened ContainerState
  import opened ForceCancelLaws
  import opened Jobs
  import opened Pause
  import opened Schedule

  /** The worker has a context of its own that its run has not cancelled itself. */
  predicate Live(p: Phase) {
    p.HasRegistration() && !p.Unregistering?
  }

  predicate LiveWith(s: State, v: nat, w: nat) {
    v < |s.workers| && w < |s.workers| && Live(s.workers[v]) && Live(s.workers[w])
  }

  /** Contexts are handed out once, and a registered context is of the registered job. */
  ghost predicate ContextsFit(s: State) {
    && (forall w: nat :: w < |s.workers| ==> Fitting(s.workers[w]))
    && (forall w: nat :: w < |s.workers| && Live(s.workers[w]) ==> s.workers[w].ctx < s.nextCtx)
    && (forall v: nat, w: nat :: LiveWith(s, v, w) && s.workers[v].ctx == s.workers[w].ctx ==> v == w)
    && (forall n: string :: n in s.cancels ==> s.cancels[n].ctx < s.nextCtx)
    && (forall n: string, w: nat :: n in s.cancels && LiveWith(s, w, w) && s.workers[w].ctx == s.cancels[n].ctx ==>
          s.workers[w].job.jobID == s.cancels[n].jobID)
  }

  function Pending(s: State): set<nat> {
    if s.scanner.Firing? then s.scanner.todo else {}
  }

  /** No context of the future is cancelled or about to be. */
  ghost predicate CancelledFit(s: State) {
    forall c: nat :: c in s.cancelled || c in Pending(s) ==> c < s.nextCtx
  }

  /** How a worker's step treats its context. */
  ghost predicate KeepsContext(p: Phase, f: Effect, nextCtx: nat) {
    && Fitting(f.next)
    && (Live(f.next) ==>
          (Live(p) && f.next.ctx == p.ctx && f.next.job == p.job && f.registration == Keep)
          || (f.registration == Add && f.next.Registered? && f.next.ctx == nextCtx))
    && (f.registration == Add ==> f.next.Registered? && Live(f.next) && f.cancelled == {})
    && (f.cancelled != {} ==> Live(p) && f.cancelled == {p.ctx} && !Live(f.next))
  }

  lemma StepKeepsContext(p: Phase, choice: Choice, cs: States, claimed: bool, governed: Option<OnStart>, now: int, nextCtx: nat)
    requires Fitting(p)
    requires WorkEffect(p, choice, cs, claimed, governed, now, nextCtx).Some?
    ensures KeepsContext(p, WorkEffect(p, choice, cs, claimed, governed, now, nextCtx).value, nextCtx)
  {}

  lemma CancelledWork(s: State, w: nat, n: string, f: Effect)
    requires ContextsFit(s) && CancelledFit(s) && w < |s.workers| && KeepsContext(s.workers[w], f, s.nextCtx)
    ensures CancelledFit(Apply(s, w, n, f))
  {
    var t := Apply(s, w, n, f);
    forall c: nat | c in t.cancelled || c in Pending(t) ensures c < t.nextCtx {
      if c in f.cancelled {
        assert c == s.workers[w].ctx;
      } else {
        assert c in s.cancelled || c in Pending(s);
      }
    }
  }

  lemma ContextsWork(s: State, w: nat, n: string, f: Effect)
    requires ContextsFit(s) && w < |s.workers| && KeepsContext(s.workers[w], f, s.nextCtx)
    ensures ContextsFit(Apply(s, w, n, f))
  {
    var t := Apply(s, w, n, f);
    assert forall v: nat :: v < |s.workers| && v != w ==> t.workers[v] == s.workers[v];
    assert Live(f.next) && f.registration != Add ==> LiveWith(s, w, w);
    forall v: nat, x: nat | LiveWith(t, v, x) && t.workers[v].ctx == t.workers[x].ctx ensures v == x {
      if v != x {
        assert v != w ==> LiveWith(s, v, v);
        assert x != w ==> LiveWith(s, x, x);
        assert f.registration == Keep ==> LiveWith(s, v, x);
      }
    }
    forall m: string, v: nat | m in t.cancels && LiveWith(t, v, v) && t.workers[v].ctx == t.cancels[m].ctx
      ensures t.workers[v].job.jobID == t.cancels[m].jobID
    {
      assert v != w ==> LiveWith(s, v, v);
    }
  }

  lemma ContextsStep(s: State, e: Event)
    requires ContextsFit(s) && CancelledFit(s) && Step(s, e).Some?
    ensures ContextsFit(Step(s, e).value) && CancelledFit(Step(s, e).value)
  {
    if e.Work? {
      var p := s.workers[e.w];
      StepKeepsContext(p, e.choice, s.cState, NameOf(p) in s.activeJobs,
                       OnStartAt(s.windows, s.jobs, s.now, JobIDOf(p)), s.now, s.nextCtx);
      ContextsWork(s, e.w, NameOf(p), EffectOf(s, e.w, e.choice).value);
      CancelledWork(s, e.w, NameOf(p), EffectOf(s, e.w, e.choice).value);
    } else {
      OthersLeaveContexts(s, e);
    }
  }

  lemma OthersLeaveContexts(s: State, e: Event)
    requires !e.Work? && Step(s, e).Some?
    ensures var t := Step(s, e).value;
      && t.workers == s.workers && t.cancels == s.cancels && t.nextCtx == s.nextCtx
      && t.cancelled + Pending(t) <= s.cancelled + Pending(s) + (if e.CollectCancels? then Pending(t) else {})
      && (e.CollectCancels? ==> s.scanner.Cancelling?)
      && (e.CollectCancels? ==> Pending(t) == GovernedContexts(s.cancels, s.scanner.pause) && t.cancelled == s.cancelled)
  {}

  /** The event at position `i` collected the cancel functions of a snapshot under which some active
      force-cancel window governed the job. */
  ghost predicate CollectedFor(init: State, events: seq<Event>, i: nat, jobID: string)
    requires i < |events|
  {
    && events[i] == CollectCancels
    && Exec(Step, init, events[..i]).Some?
    && var s := Exec(Step, init, events[..i]).value;
    && s.scanner.Cancelling?
    && exists w: Window :: w in s.scanner.pause.active && w.onStart == ForceCancel
         && GovernedBy(w, s.scanner.jobsSeen, jobID)
  }

  ghost predicate EverCollectedFor(init: State, events: seq<Event>, jobID: string) {
    exists i: nat :: i < |events| && CollectedFor(init, events, i, jobID)
  }

  lemma CollectedEarlier(init: State, events: seq<Event>, jobID: string)
    requires events != [] && EverCollectedFor(init, Front(events), jobID)
    ensures EverCollectedFor(init, events, jobID)
  {
    var i: nat :| i < |Front(events)| && CollectedFor(init, Front(events), i, jobID);
    assert Front(events)[..i] == events[..i];
    assert CollectedFor(init, events, i, jobID);
  }

  /** A snapshot that asks for force-cancel has a window that does. */
  lemma ForceHasWindow(p: Snapshot, jobs: seq<Job>, jobID: string)
    requires IsJoin(p, p.active, jobs) && p.OnStartFor(jobID) == Some(ForceCancel)
    ensures exists w: Window :: w in p.active && w.onStart == ForceCancel && GovernedBy(w, jobs, jobID)
  {
    if jobID == "" {
      var w: Window :| w in p.active && LOCAL in w.dockerHostIDs && w.onStart == ForceCancel;
      assert GovernedBy(w, jobs, jobID);
    } else {
      var w: Window :| w in p.active && Governs(w, jobs, jobID) && w.onStart == ForceCancel;
      assert GovernedBy(w, jobs, jobID);
    }
  }

  predicate Doomed(s: State, w: nat) {
    LiveWith(s, w, w) && (s.workers[w].ctx in s.cancelled || s.workers[w].ctx in Pending(s))
  }

  /** Every live context that is cancelled or about to be was collected for its job. */
  ghost predicate Justified(init: State, events: seq<Event>, s: State) {
    forall w: nat :: Doomed(s, w) ==> EverCollectedFor(init, events, s.workers[w].job.jobID)
  }

  lemma JustifiedWork(init: State, events: seq<Event>, s: State, w: nat, n: string, f: Effect)
    requires ContextsFit(s) && CancelledFit(s) && Justified(init, events, s)
    requires w < |s.workers| && KeepsContext(s.workers[w], f, s.nextCtx)
    ensures Justified(init, events, Apply(s, w, n, f))
  {
    var t := Apply(s, w, n, f);
    forall v: nat | Doomed(t, v) ensures EverCollectedFor(init, events, t.workers[v].job.jobID) {
      if v != w {
        assert t.workers[v] == s.workers[v];
      }
      assert Doomed(s, v);
    }
  }

  lemma JustifiedScan(init: State, events: seq<Event>)
    requires events != [] && Exec(Step, init, events).Some? && !Last(events).Work?
    requires var s := Exec(Step, init, Front(events)).value;
      ContextsFit(s) && SnapshotIsJoin(s) && Justified(init, events, s)
    ensures Justified(init, events, Exec(Step, init, events).value)
  {
    var s, e := Exec(Step, init, Front(events)).value, Last(events);
    var t := Step(s, e).value;
    OthersLeaveContexts(s, e);
    forall w: nat | Doomed(t, w) ensures EverCollectedFor(init, events, t.workers[w].job.jobID) {
      var c := t.workers[w].ctx;
      if !Doomed(s, w) {
        GovernedMeans(s.cancels, s.scanner.pause);
        var n: string :| n in s.cancels && s.cancels[n].ctx == c && s.scanner.pause.OnStartFor(s.cancels[n].jobID) == Some(ForceCancel);
        ForceHasWindow(s.scanner.pause, s.scanner.jobsSeen, s.cancels[n].jobID);
        assert events[..|events| - 1] == Front(events) && LiveWith(s, w, w);
        assert CollectedFor(init, events, |events| - 1, s.cancels[n].jobID);
      }
    }
  }

  lemma {:induction false} JustifiedAlways(init: State, events: seq<Event>)
    requires Init(init) && Exec(Step, init, events).Some?
    ensures var s := Exec(Step, init, events).value;
      ContextsFit(s) && CancelledFit(s) && Justified(init, events, s)
  {
    if events != [] {
      var before, e := Front(events), Last(events);
      JustifiedAlways(init, before);
      SnapshotIsJoinAlways(init, before);
      var s := Exec(Step, init, before).value;
      ContextsStep(s, e);
      JustifiedLonger(init, events, s);
      if e.Work? {
        var p := s.workers[e.w];
        StepKeepsContext(p, e.choice, s.cState, NameOf(p) in s.activeJobs,
                         OnStartAt(s.windows, s.jobs, s.now, JobIDOf(p)), s.now, s.nextCtx);
        JustifiedWork(init, events, s, e.w, NameOf(p), EffectOf(s, e.w, e.choice).value);
      } else {
        JustifiedScan(init, events);
      }
    }
  }

  lemma JustifiedLonger(init: State, events: seq<Event>, s: State)
    requires events != [] && Justified(init, Front(events), s)
    ensures Justified(init, events, s)
  {
    forall w: nat | Doomed(s, w) ensures EverCollectedFor(init, events, s.workers[w].job.jobID) {
      CollectedEarlier(init, events, s.workers[w].job.jobID);
    }
  }

  /** The converse of no escape: in every run, if an action that is not forced is past its checks in
      a cancelled context, then some scan before collected the cancel functions under a snapshot in
      which an active force-cancel window governed the action's job. */
  lemma OnlyGovernedCancelled(init: State, events: seq<Event>, w: nat)
    requires Init(init) && Exec(Step, init, events).Some?
    requires var s := Exec(Step, init, events).value;
      w < |s.workers| && s.workers[w].Acting() && !s.workers[w].job.force && s.workers[w].ctx in s.cancelled
    ensures EverCollectedFor(init, events, Exec(Step, init, events).value.workers[w].job.jobID)
  {
    JustifiedAlways(init, events);
    assert Doomed(Exec(Step, init, events).value, w);
  }
}
