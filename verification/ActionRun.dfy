/** `actionJob.Run` (cmd/server/action.go) as the source writes it, on the shared fields, and that
    it takes exactly the steps of the action protocol. */
module ActionRun {
  import opened Common
  import opened ContainerState
  import opened Pause
  import opened Schedule
  import opened ActionProtocol

  /** What one step reads besides the shared fields. */
  datatype Reading = Reading(choice: Choice, governed: Option<OnStart>, now: int)

  /** What a worker's steps read and change. */
  datatype View = View(
    phase: Phase,
    cState: States,
    activeJobs: set<string>,
    cancels: map<string, Registration>,
    cancelled: set<nat>,
    nextCtx: nat)

  function ViewStep(v: View, r: Reading): Option<View> {
    var n := NameOf(v.phase);
    var f := WorkEffect(v.phase, r.choice, v.cState, n in v.activeJobs, r.governed, r.now, v.nextCtx);
    if f.None? then None
    else Some(View(
      f.value.next,
      f.value.cState,
      match f.value.claim case Keep => v.activeJobs case Add => v.activeJobs + {n} case Drop => v.activeJobs - {n},
      match f.value.registration
        case Keep => v.cancels
        case Add => if f.value.next.Registered? then v.cancels[n := Registration(f.value.next.job.jobID, v.nextCtx)] else v.cancels
        case Drop => v.cancels - {n},
      if f.value.cancelled == {} then v.cancelled else v.cancelled + f.value.cancelled,
      if f.value.registration.Add? then v.nextCtx + 1 else v.nextCtx))
  }

  /** What happens outside during one run: the readings of the clock and of the windows, and how
      the Docker call ends. */
  datatype Outside = Outside(entered: int, governed: Option<OnStart>, started: int, ok: bool, finished: int)

  function ReadingAt(p: Phase, o: Outside): Reading {
    match p
    case Entered(_) | Claimed(_) | Registered(_, _) | PastExhausted(_, _) => Reading(Go, None, o.entered)
    case PastWait(_, _) => Reading(Go, o.governed, o.entered)
    case PastMaintenance(_, _) => Reading(Go, None, o.started)
    case Executing(_, _, _) => Reading(if o.ok then Succeed else Fail, None, o.finished)
    case _ => Reading(Go, None, o.finished)
  }

  /** `u` comes right after `v` when nothing interrupts. */
  predicate Follows(v: View, o: Outside, u: View) {
    ViewStep(v, ReadingAt(v.phase, o)) == Some(u)
  }

  predicate IsPath(path: seq<View>, o: Outside) {
    path != [] && forall i :: 0 < i < |path| ==> Linked(path, i, o)
  }

  predicate Linked(path: seq<View>, i: nat, o: Outside)
    requires 0 < i < |path|
  {
    Follows(path[i - 1], o, path[i])
  }

  /** A run that nothing interrupts gets from `v` to `u`. */
  ghost predicate Reaches(v: View, o: Outside, u: View) {
    exists path :: IsPath(path, o) && path[0] == v && path[|path| - 1] == u
  }

  /** What worker `w` sees of a state of the protocol. */
  ghost function Seen(s: State, w: nat): View
    requires w < |s.workers|
  {
    View(s.workers[w], s.cState, s.activeJobs, s.cancels, s.cancelled, s.nextCtx)
  }

  /** A protocol step of one worker is a step on its view: possible in the same cases, with the
      same effect, and nobody else's place changes. */
  lemma ProtocolStepIsViewStep(s: State, w: nat, choice: Choice)
    requires w < |s.workers|
    ensures var r := Reading(choice, OnStartAt(s.windows, s.jobs, s.now, JobIDOf(s.workers[w])), s.now);
      && (Step(s, Work(w, choice)).Some? <==> ViewStep(Seen(s, w), r).Some?)
      && (Step(s, Work(w, choice)).Some? ==>
            && Seen(Step(s, Work(w, choice)).value, w) == ViewStep(Seen(s, w), r).value
            && forall v: nat :: v < |s.workers| && v != w ==> Step(s, Work(w, choice)).value.workers[v] == s.workers[v])
  {
  }

  lemma Stay(v: View, o: Outside)
    ensures Reaches(v, o, v)
  {
    assert IsPath([v], o);
  }

  lemma Extend(before: View, o: Outside, v: View, u: View)
    requires Reaches(before, o, v) && Follows(v, o, u)
    ensures Reaches(before, o, u)
  {
    var path :| IsPath(path, o) && path[0] == before && path[|path| - 1] == v;
    var longer := path + [u];
    forall i | 0 < i < |longer| ensures Linked(longer, i, o) {
      assert i < |path| ==> Linked(path, i, o);
    }
    assert IsPath(longer, o);
  }

  lemma Join(before: View, o: Outside, v: View, u: View)
    requires Reaches(before, o, v) && Reaches(v, o, u)
    ensures Reaches(before, o, u)
  {
    var path :| IsPath(path, o) && path[0] == before && path[|path| - 1] == v;
    var more :| IsPath(more, o) && more[0] == v && more[|more| - 1] == u;
    var all := path + more[1..];
    forall i | 0 < i < |all| ensures Linked(all, i, o) {
      if i < |path| {
        assert Linked(path, i, o);
      } else {
        assert Linked(more, i - |path| + 1, o);
      }
    }
    assert IsPath(all, o) && all[|all| - 1] == u;
  }

  function ViewOf(app: App, p: Phase, nextCtx: nat): View
    reads app
  {
    View(p, app.cState, app.activeJobs, app.activeJobCancels, app.cancelledContexts, nextCtx)
  }

  // ---------- a whole run, as a function of where it starts ----------

  /** Claim, registration and the guards of an action that is not forced, on a container that is not
      claimed. */
  function AfterGuards(v: View, j: ActionJob, o: Outside): View {
    var taken := v.(
      activeJobs := v.activeJobs + {j.name},
      cancels := v.cancels[j.name := Registration(j.jobID, v.nextCtx)],
      nextCtx := v.nextCtx + 1);
    if IsExhausted(v.cState, j.name) || WaitRemaining(v.cState, j.name, o.entered) > 0 then
      taken.(phase := Leaving(j, v.nextCtx))
    else
      taken.(cState := WithWaitChecked(v.cState, j.name, o.entered),
             phase := if o.governed.Some? then Leaving(j, v.nextCtx) else PastMaintenance(j, v.nextCtx))
  }

  function Concluded(s: States, j: ActionJob, cycle: nat): States {
    if 0 < RetryLimit(j) <= cycle then WithExhausted(s, j.name, true) else s
  }

  function AfterAttempt(s: States, j: ActionJob, o: Outside): States {
    var counted := WithCycleIncremented(s, j.name);
    var settling :=
      if o.ok && j.postActionWait > 0 then WithDeadline(counted, j.name, o.finished + j.postActionWait) else counted;
    Concluded(WithLastFailed(settling, j.name, !o.ok), j, Ensured(s, j.name).cycle + 1)
  }

  /** Counting the attempt, acting, and recording how it went. */
  function AfterAct(v: View, j: ActionJob, ctx: nat, o: Outside): View {
    if !j.force then v.(phase := Leaving(j, ctx), cState := AfterAttempt(v.cState, j, o))
    else if o.ok then v.(phase := Idle, cState := v.cState - {j.name}, activeJobs := v.activeJobs - {j.name})
    else v.(phase := Idle, cState := WithCycleIncremented(v.cState, j.name))
  }

  function AfterLeave(v: View, j: ActionJob, ctx: nat): View {
    v.(phase := Idle, cancelled := v.cancelled + {ctx}, cancels := v.cancels - {j.name}, activeJobs := v.activeJobs - {j.name})
  }

  function AfterReset(v: View, j: ActionJob): View {
    v.(phase := PastMaintenance(j, BACKGROUND), cState := v.cState - {j.name}, activeJobs := v.activeJobs - {j.name})
  }

  function AfterRun(v: View, j: ActionJob, o: Outside): View {
    if j.force then AfterAct(AfterReset(v, j), j, BACKGROUND, o)
    else if j.name in v.activeJobs then v.(phase := Idle)
    else
      var u := AfterGuards(v, j, o);
      AfterLeave(if u.phase.Leaving? then u else AfterAct(u, j, v.nextCtx, o), j, v.nextCtx)
  }

  // ---------- it takes the steps of the protocol ----------

  lemma GuardPath(v: View, j: ActionJob, o: Outside)
    requires v.phase == Entered(j) && !j.force && j.name !in v.activeJobs
    ensures Reaches(v, o, AfterGuards(v, j, o))
  {
    var ctx, end := v.nextCtx, AfterGuards(v, j, o);
    var a := v.(phase := Claimed(j), activeJobs := v.activeJobs + {j.name});
    var b := a.(phase := Registered(j, ctx), cancels := v.cancels[j.name := Registration(j.jobID, ctx)], nextCtx := ctx + 1);
    Stay(v, o);
    Extend(v, o, v, a);
    Extend(v, o, a, b);
    if IsExhausted(v.cState, j.name) {
      Extend(v, o, b, end);
    } else {
      Extend(v, o, b, b.(phase := PastExhausted(j, ctx)));
      WaitPath(b.(phase := PastExhausted(j, ctx)), j, ctx, o, end);
      Join(v, o, b.(phase := PastExhausted(j, ctx)), end);
    }
  }

  lemma WaitPath(v: View, j: ActionJob, ctx: nat, o: Outside, end: View)
    requires v.phase == PastExhausted(j, ctx)
    requires end == if WaitRemaining(v.cState, j.name, o.entered) > 0 then v.(phase := Leaving(j, ctx))
                    else v.(cState := WithWaitChecked(v.cState, j.name, o.entered),
                            phase := if o.governed.Some? then Leaving(j, ctx) else PastMaintenance(j, ctx))
    ensures Reaches(v, o, end)
  {
    Stay(v, o);
    if WaitRemaining(v.cState, j.name, o.entered) > 0 {
      Extend(v, o, v, end);
    } else {
      var a := v.(cState := WithWaitChecked(v.cState, j.name, o.entered), phase := PastWait(j, ctx));
      Extend(v, o, v, a);
      Extend(v, o, a, end);
    }
  }

  lemma ActPath(v: View, j: ActionJob, ctx: nat, o: Outside)
    requires v.phase == PastMaintenance(j, ctx)
    ensures Reaches(v, o, AfterAct(v, j, ctx, o))
  {
    var k := Ensured(v.cState, j.name).cycle + 1;
    var a := v.(phase := Executing(j, ctx, k), cState := WithCycleIncremented(v.cState, j.name));
    Stay(v, o);
    Extend(v, o, v, a);
    if o.ok {
      SuccessPath(v, a, j, ctx, k, o);
    } else if j.force {
      Stay(a, o);
      Extend(a, o, a, a.(phase := Idle));
    } else {
      FailurePath(v, a, j, ctx, k, o);
    }
    Join(v, o, a, AfterAct(v, j, ctx, o));
  }

  lemma FailurePath(v: View, a: View, j: ActionJob, ctx: nat, k: nat, o: Outside)
    requires v.phase == PastMaintenance(j, ctx) && k == Ensured(v.cState, j.name).cycle + 1 && !o.ok && !j.force
    requires a == v.(phase := Executing(j, ctx, k), cState := WithCycleIncremented(v.cState, j.name))
    ensures Reaches(a, o, AfterAct(v, j, ctx, o))
  {
    var b := a.(phase := Recording(j, ctx, k, true));
    Stay(a, o);
    Extend(a, o, a, b);
    RecordPath(b, j, ctx, k, true, o);
    Join(a, o, b, AfterRecord(b, j, ctx, k, true));
  }

  lemma SuccessPath(v: View, a: View, j: ActionJob, ctx: nat, k: nat, o: Outside)
    requires v.phase == PastMaintenance(j, ctx) && k == Ensured(v.cState, j.name).cycle + 1 && o.ok
    requires a == v.(phase := Executing(j, ctx, k), cState := WithCycleIncremented(v.cState, j.name))
    ensures Reaches(a, o, AfterAct(v, j, ctx, o))
  {
    var b, c := a.(phase := Succeeded(j, ctx, k)), AfterWaiting(a, j, ctx, k, o);
    Stay(a, o);
    Extend(a, o, a, b);
    Extend(a, o, b, c);
    RecordPath(c, j, ctx, k, false, o);
    RecordedIsActed(v, a, j, ctx, k, o);
    Join(a, o, c, AfterAct(v, j, ctx, o));
  }

  /** A success gives the container time to settle. */
  function AfterWaiting(a: View, j: ActionJob, ctx: nat, k: nat, o: Outside): View {
    a.(phase := Recording(j, ctx, k, false),
       cState := if j.postActionWait > 0 then WithDeadline(a.cState, j.name, o.finished + j.postActionWait) else a.cState)
  }

  lemma RecordedIsActed(v: View, a: View, j: ActionJob, ctx: nat, k: nat, o: Outside)
    requires k == Ensured(v.cState, j.name).cycle + 1 && o.ok
    requires a == v.(phase := Executing(j, ctx, k), cState := WithCycleIncremented(v.cState, j.name))
    ensures AfterRecord(AfterWaiting(a, j, ctx, k, o), j, ctx, k, false) == AfterAct(v, j, ctx, o)
  {
    if j.force { ForgetTwice(v.cState, a.cState, AfterWaiting(a, j, ctx, k, o).cState, j.name); }
  }

  function AfterRecord(v: View, j: ActionJob, ctx: nat, cycle: nat, failed: bool): View {
    var s := WithLastFailed(v.cState, j.name, failed);
    if j.force then v.(phase := Idle, cState := s - {j.name}, activeJobs := v.activeJobs - {j.name})
    else v.(phase := Leaving(j, ctx), cState := Concluded(s, j, cycle))
  }

  lemma RecordPath(v: View, j: ActionJob, ctx: nat, cycle: nat, failed: bool, o: Outside)
    requires v.phase == Recording(j, ctx, cycle, failed)
    ensures Reaches(v, o, AfterRecord(v, j, ctx, cycle, failed))
  {
    var a := v.(phase := Recorded(j, ctx, cycle), cState := WithLastFailed(v.cState, j.name, failed));
    var end := AfterRecord(v, j, ctx, cycle, failed);
    Stay(v, o);
    Extend(v, o, v, a);
    if !j.force && 0 < RetryLimit(j) <= cycle {
      var b := end.(phase := ExhaustionSet(j, ctx));
      Extend(v, o, a, b);
      Extend(v, o, b, end);
    } else {
      Extend(v, o, a, end);
    }
  }

  lemma ForgetTwice(s: States, t: States, u: States, n: string)
    requires t == WithCycleIncremented(s, n)
    requires OthersKept(t, u, n)
    ensures WithLastFailed(u, n, false) - {n} == s - {n}
  {}

  lemma LeavePath(v: View, j: ActionJob, ctx: nat, o: Outside)
    requires v.phase == Leaving(j, ctx)
    ensures Reaches(v, o, AfterLeave(v, j, ctx))
  {
    var a := v.(phase := Unregistering(j, ctx), cancelled := v.cancelled + {ctx});
    var b := a.(phase := Releasing(j), cancels := v.cancels - {j.name});
    Stay(v, o);
    Extend(v, o, v, a);
    Extend(v, o, a, b);
    Extend(v, o, b, AfterLeave(v, j, ctx));
  }

  lemma RunPath(v: View, j: ActionJob, o: Outside)
    requires v.phase == Entered(j)
    ensures Reaches(v, o, AfterRun(v, j, o)) && AfterRun(v, j, o).phase == Idle
  {
    Stay(v, o);
    if j.force {
      Extend(v, o, v, AfterReset(v, j));
      ActPath(AfterReset(v, j), j, BACKGROUND, o);
      Join(v, o, AfterReset(v, j), AfterRun(v, j, o));
    } else if j.name in v.activeJobs {
      Extend(v, o, v, v.(phase := Idle));
    } else {
      var u := AfterGuards(v, j, o);
      GuardPath(v, j, o);
      var w := if u.phase.Leaving? then u else AfterAct(u, j, v.nextCtx, o);
      if !u.phase.Leaving? {
        ActPath(u, j, v.nextCtx, o);
        Join(v, o, u, w);
      }
      LeavePath(w, j, v.nextCtx, o);
      Join(v, o, w, AfterRun(v, j, o));
    }
  }

  // ---------- what it means for the container ----------

  /** What one attempt leaves of a container's entry: it is counted, its outcome is recorded, a
      success starts the wait, and the last allowed attempt exhausts the retries.  An action
      without a job is allowed a single attempt, and a limit of 0 is none. */
  predicate Attempted(e: Option<Entry>, after: Option<Entry>, j: ActionJob, o: Outside) {
    var was := if e.Some? then e.value else Entry(0, false, None, false, 0, 0);
    var limit := if j.jobID == "" then 1 else j.retryCount;
    && after.Some?
    && after.value.cycle == was.cycle + 1
    && after.value.lastFailed == !o.ok
    && after.value.deadline == (if o.ok && j.postActionWait > 0 then Some(o.finished + j.postActionWait) else was.deadline)
    && (after.value.exhausted <==> was.exhausted || (limit > 0 && was.cycle + 1 >= limit))
    && after.value.stableScans == (if o.ok then was.stableScans else 0)
    && after.value.stableScansRequired == was.stableScansRequired
  }

  lemma AttemptMeans(s: States, j: ActionJob, o: Outside)
    ensures Attempted(Lookup(s, j.name), Lookup(AfterAttempt(s, j, o), j.name), j, o)
    ensures OthersKept(s, AfterAttempt(s, j, o), j.name)
  {}

  /** Some guard turns the action away: retries are exhausted, a wait is not over, or a window
      pauses the job. */
  predicate TurnedAway(s: States, n: string, o: Outside) {
    || (n in s && s[n].exhausted)
    || (n in s && s[n].deadline.Some? && o.entered < s[n].deadline.value)
    || o.governed.Some?
  }

  /** What is left of the entry of a container whose action is turned away: asking about a wait that
      is over forgets it. */
  function Dismissed(e: Entry, o: Outside): Entry {
    if e.exhausted || (e.deadline.Some? && o.entered < e.deadline.value) then e else e.(deadline := None)
  }

  lemma GuardsMean(v: View, j: ActionJob, o: Outside)
    ensures var u := AfterGuards(v, j, o);
      && (u.phase.PastMaintenance? <==> !TurnedAway(v.cState, j.name, o)) && (u.phase.Leaving? <==> TurnedAway(v.cState, j.name, o))
      && OthersKept(v.cState, u.cState, j.name) && (j.name in u.cState <==> j.name in v.cState)
      && (j.name in u.cState ==> u.cState[j.name] == Dismissed(v.cState[j.name], o))
  {}

  /** An action that is not forced is carried out exactly if the container is not claimed and no
      guard turns it away; one that is turned away is not counted. */
  lemma UnforcedRunMeans(v: View, j: ActionJob, o: Outside)
    requires !j.force && j.name !in v.activeJobs
    ensures var u := AfterRun(v, j, o);
      && OthersKept(v.cState, u.cState, j.name)
      && u.activeJobs == v.activeJobs && u.cancels == v.cancels - {j.name} && u.cancelled == v.cancelled + {v.nextCtx}
      && if TurnedAway(v.cState, j.name, o) then
           && (j.name in u.cState <==> j.name in v.cState)
           && (j.name in u.cState ==> u.cState[j.name] == Dismissed(v.cState[j.name], o))
         else
           var was := if j.name in v.cState then Some(v.cState[j.name].(deadline := None)) else None;
           Attempted(was, Lookup(u.cState, j.name), j, o)
  {
    GuardsMean(v, j, o);
    AttemptMeans(AfterGuards(v, j, o).cState, j, o);
  }

  /** A forced action starts from a fresh entry, whatever there was, and a success leaves none. */
  lemma ForcedRunMeans(v: View, j: ActionJob, o: Outside)
    requires j.force
    ensures var u := AfterRun(v, j, o);
      && OthersKept(v.cState, u.cState, j.name)
      && u.activeJobs == v.activeJobs - {j.name} && u.cancels == v.cancels && u.cancelled == v.cancelled
      && (o.ok ==> j.name !in u.cState)
      && (!o.ok ==> j.name in u.cState && u.cState[j.name] == Entry(1, false, None, false, 0, 0))
  {}

  // ---------- as the source writes it ----------

  /** Claiming, registering and the three guards of an action that is not forced. */
  method Guard(app: App, j: ActionJob, ctx: nat, o: Outside) returns (claimed: bool, pass: bool)
    requires !j.force
    modifies app
    ensures claimed <==> j.name !in old(app.activeJobs)
    ensures !claimed ==> !pass && ViewOf(app, Idle, ctx) == old(ViewOf(app, Idle, ctx))
    ensures claimed ==>
      ViewOf(app, if pass then PastMaintenance(j, ctx) else Leaving(j, ctx), ctx + 1) == AfterGuards(old(ViewOf(app, Entered(j), ctx)), j, o)
  {
    pass := false;
    claimed := app.ClaimActiveJob(j.name);
    if !claimed {
      assert app.activeJobs == old(app.activeJobs);
      return;
    }
    app.RegisterActiveJobCancel(j.name, j.jobID, ctx);
    var exhausted := app.IsRetriesExhausted(j.name);
    if exhausted { return; }
    var remaining := app.PostActionWaitRemaining(j.name, o.entered);
    if remaining > 0 { return; }
    pass := o.governed.None?;
  }

  /** Counting the attempt, acting, and recording how it went. */
  method Act(app: App, j: ActionJob, ctx: nat, ghost nextCtx: nat, o: Outside)
    modifies app
    ensures ViewOf(app, if j.force then Idle else Leaving(j, ctx), nextCtx)
            == AfterAct(old(ViewOf(app, PastMaintenance(j, ctx), nextCtx)), j, ctx, o)
  {
    ghost var was := app.cState;
    var cycle := app.IncrementActionCycle(j.name);
    if o.ok {
      ghost var counted := app.cState;
      if j.postActionWait > 0 {
        app.SetPostActionDeadline(j.name, o.finished + j.postActionWait);
      }
      ForgetTwice(was, counted, app.cState, j.name);
      app.SetLastActionFailed(j.name, false);
      if j.force {
        app.ResetActionCooldown(j.name);
        return;
      }
      if 0 < RetryLimit(j) <= cycle { app.SetRetriesExhausted(j.name, true); }
      return;
    }
    if !j.force { app.SetLastActionFailed(j.name, true); }
    if !j.force && 0 < RetryLimit(j) <= cycle { app.SetRetriesExhausted(j.name, true); }
  }

  /** The deferred calls, last registered first. */
  method Leave(app: App, j: ActionJob, ctx: nat, ghost nextCtx: nat)
    modifies app
    ensures ViewOf(app, Idle, nextCtx) == AfterLeave(old(ViewOf(app, Leaving(j, ctx), nextCtx)), j, ctx)
  {
    app.cancelledContexts := app.cancelledContexts + {ctx};
    app.UnregisterActiveJobCancel(j.name);
    app.ReleaseActiveJob(j.name);
  }

  method RunBody(app: App, j: ActionJob, ctx: nat, o: Outside) returns (nextCtx: nat)
    modifies app
    ensures ViewOf(app, Idle, nextCtx) == AfterRun(old(ViewOf(app, Entered(j), ctx)), j, o)
  {
    nextCtx := ctx;
    if j.force {
      app.ResetActionCooldown(j.name);
      Act(app, j, BACKGROUND, ctx, o);
      return;
    }
    var claimed, pass;
    claimed, pass := Guard(app, j, ctx, o);
    if !claimed { return; }
    nextCtx := ctx + 1;
    if pass { Act(app, j, ctx, nextCtx, o); }
    Leave(app, j, ctx, nextCtx);
  }

  /** A whole run takes the steps of the protocol, in their order, from entering to idle.  An action
      that is not forced is carried out exactly if the container is not claimed and no guard turns
      it away; one that is turned away is not counted.  A forced action starts from a fresh entry,
      and a success leaves none. */
  method Run(app: App, j: ActionJob, ctx: nat, o: Outside) returns (nextCtx: nat)
    modifies app
    ensures Reaches(old(ViewOf(app, Entered(j), ctx)), o, ViewOf(app, Idle, nextCtx))
    ensures OthersKept(old(app.cState), app.cState, j.name)
    ensures !j.force && j.name in old(app.activeJobs) ==>
      && app.cState == old(app.cState) && app.activeJobs == old(app.activeJobs)
      && app.activeJobCancels == old(app.activeJobCancels) && app.cancelledContexts == old(app.cancelledContexts)
    ensures !j.force && j.name !in old(app.activeJobs) ==>
      && app.activeJobs == old(app.activeJobs) && app.activeJobCancels == old(app.activeJobCancels) - {j.name}
      && app.cancelledContexts == old(app.cancelledContexts) + {ctx}
    ensures !j.force && j.name !in old(app.activeJobs) && TurnedAway(old(app.cState), j.name, o) ==>
      && (j.name in app.cState <==> j.name in old(app.cState))
      && (j.name in app.cState ==> app.cState[j.name] == Dismissed(old(app.cState)[j.name], o))
    ensures !j.force && j.name !in old(app.activeJobs) && !TurnedAway(old(app.cState), j.name, o) ==>
      var was := if j.name in old(app.cState) then Some(old(app.cState)[j.name].(deadline := None)) else None;
      Attempted(was, Lookup(app.cState, j.name), j, o)
    ensures j.force && o.ok ==> j.name !in app.cState
    ensures j.force && !o.ok ==> j.name in app.cState && app.cState[j.name] == Entry(1, false, None, false, 0, 0)
    ensures j.force ==>
      && app.activeJobs == old(app.activeJobs) - {j.name}
      && app.activeJobCancels == old(app.activeJobCancels) && app.cancelledContexts == old(app.cancelledContexts)
  {
    ghost var before := ViewOf(app, Entered(j), ctx);
    RunPath(before, j, o);
    if j.force {
      ForcedRunMeans(before, j, o);
    } else if j.name !in app.activeJobs {
      UnforcedRunMeans(before, j, o);
    }
    nextCtx := RunBody(app, j, ctx, o);
  }

  // ---------- what a run leaves behind ----------

  /** `u` differs from `v` by the claim and the registration of its own place in the run. */
  ghost predicate Took(v: View, u: View, n: string) {
    && (u.phase.Idle? || (NameOf(u.phase) == n && !u.phase.job.force))
    && (u.phase.HasClaim() ==> n !in v.activeJobs && n !in v.cancels)
    && u.activeJobs == (if u.phase.HasClaim() then v.activeJobs + {n} else v.activeJobs)
    && u.cancels == WithOwn(v.cancels, u.phase, n)
  }

  function WithOwn(cancels: map<string, Registration>, p: Phase, n: string): map<string, Registration> {
    if p.HasRegistration() then cancels[n := Registration(p.job.jobID, p.ctx)] else cancels
  }

  /** A step keeps the registration, or registers, or takes back its own. */
  lemma RegistrationStep(u: View, r: Reading)
    requires !u.phase.Idle? && ViewStep(u, r).Some?
    ensures var x, n := ViewStep(u, r).value, NameOf(u.phase);
      if u.phase.Claimed? then x.phase == Registered(u.phase.job, u.nextCtx) && x.cancels == u.cancels[n := Registration(u.phase.job.jobID, u.nextCtx)]
      else if u.phase.Unregistering? then x.phase == Releasing(u.phase.job) && x.cancels == u.cancels - {n}
      else x.cancels == u.cancels && x.phase.HasRegistration() == u.phase.HasRegistration()
           && (x.phase.HasRegistration() ==> x.phase.job == u.phase.job && x.phase.ctx == u.phase.ctx)
  {}

  lemma TookRegistration(v: View, u: View, n: string, r: Reading)
    requires Took(v, u, n) && !u.phase.Idle? && ViewStep(u, r).Some?
    requires u.phase.Claimed? ==> n !in v.cancels
    ensures ViewStep(u, r).value.cancels == WithOwn(v.cancels, ViewStep(u, r).value.phase, n)
  {
    RegistrationStep(u, r);
    assert u.phase.Unregistering? ==> WithOwn(v.cancels, u.phase, n) - {n} == v.cancels;
  }

  lemma TookStep(v: View, u: View, n: string, r: Reading)
    requires n in v.cancels ==> n in v.activeJobs
    requires Took(v, u, n) && !u.phase.Idle? && ViewStep(u, r).Some?
    ensures Took(v, ViewStep(u, r).value, n)
  {
    TookRegistration(v, u, n, r);
    assert u.phase.Releasing? ==> ViewStep(u, r).value.activeJobs == v.activeJobs;
  }

  lemma OtherEntryStays(u: View, r: Reading, m: string)
    requires m != NameOf(u.phase) && ViewStep(u, r).Some?
    ensures Lookup(ViewStep(u, r).value.cState, m) == Lookup(u.cState, m)
  {
  }

  /** A run that is not forced gives back what it took on every path: once idle, claims and
      registrations are as before; and it never touches another container's entry. */
  lemma RunGivesBack(v: View, o: Outside, u: View, m: string)
    requires v.phase.Entered? && !v.phase.job.force && m != NameOf(v.phase)
    requires NameOf(v.phase) in v.cancels ==> NameOf(v.phase) in v.activeJobs
    requires Reaches(v, o, u)
    ensures u.phase.Idle? ==> u.activeJobs == v.activeJobs && u.cancels == v.cancels
    ensures Lookup(u.cState, m) == Lookup(v.cState, m)
  {
    var path :| IsPath(path, o) && path[0] == v && path[|path| - 1] == u;
    TookAlong(v, o, path, m, |path| - 1);
  }

  lemma {:induction false} TookAlong(v: View, o: Outside, path: seq<View>, m: string, i: nat)
    requires v.phase.Entered? && !v.phase.job.force && m != NameOf(v.phase)
    requires NameOf(v.phase) in v.cancels ==> NameOf(v.phase) in v.activeJobs
    requires IsPath(path, o) && path[0] == v && i < |path|
    ensures Took(v, path[i], NameOf(v.phase)) && Lookup(path[i].cState, m) == Lookup(v.cState, m)
  {
    if i > 0 {
      TookAlong(v, o, path, m, i - 1);
      assert Linked(path, i, o);
      var u := path[i - 1];
      IdleIsOver(u, o);
      TookStep(v, u, NameOf(v.phase), ReadingAt(u.phase, o));
      OtherEntryStays(u, ReadingAt(u.phase, o), m);
    }
  }

  /** Nothing follows once a run is idle, so how it ends is settled by where it starts. */
  lemma IdleIsOver(u: View, o: Outside)
    ensures u.phase.Idle? ==> ViewStep(u, ReadingAt(u.phase, o)).None?
  {
  }

  lemma {:induction false} OneEnd(v: View, o: Outside, p: seq<View>, q: seq<View>)
    requires IsPath(p, o) && IsPath(q, o) && p[0] == q[0] == v && |p| <= |q|
    ensures q[|p| - 1] == p[|p| - 1]
  {
    if |p| > 1 {
      var init := p[..|p| - 1];
      forall i | 0 < i < |init| ensures Linked(init, i, o) { assert Linked(p, i, o); }
      OneEnd(v, o, init, q);
      assert Linked(p, |p| - 1, o) && Linked(q, |p| - 1, o);
    }
  }

  lemma EndIsUnique(v: View, o: Outside, a: View, b: View)
    requires Reaches(v, o, a) && Reaches(v, o, b) && a.phase.Idle? && b.phase.Idle?
    ensures a == b
  {
    var p :| IsPath(p, o) && p[0] == v && p[|p| - 1] == a;
    var q :| IsPath(q, o) && q[0] == v && q[|q| - 1] == b;
    if |p| <= |q| {
      OneEnd(v, o, p, q);
      if |p| < |q| { assert Linked(q, |p|, o); IdleIsOver(a, o); }
    } else {
      OneEnd(v, o, q, p);
      assert Linked(p, |q|, o);
      IdleIsOver(b, o);
    }
  }
}
