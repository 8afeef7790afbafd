/** Mutual exclusion of actions per container, in every run that takes no claim on it away. */
module ClaimLaws {
  import opened ActionProtocol
  import opened Common
  import opened ContainerState
  import opened Pause
  import opened Schedule

  /** A recorded claim on the container is held by the worker it is recorded for. */
  ghost predicate ClaimIsHeld(s: State, n: string) {
    n in s.holder ==>
      s.holder[n] < |s.workers| && s.workers[s.holder[n]].HasClaim() && s.workers[s.holder[n]].job.name == n
  }

  /** A worker between claim and release of the container is recorded. */
  ghost predicate HolderIsRecorded(s: State, n: string) {
    forall w: nat :: w < |s.workers| && s.workers[w].HasClaim() && s.workers[w].job.name == n ==>
      n in s.holder && s.holder[n] == w
  }

  /** The registry has the container exactly while the holder is between registering and
      unregistering, and then it is the holder's own entry. */
  ghost predicate RegistryIsExact(s: State, n: string)
    requires ClaimIsHeld(s, n)
  {
    && (forall w: nat :: w < |s.workers| && s.workers[w].HasRegistration() && s.workers[w].job.name == n ==>
          n in s.cancels && s.cancels[n] == Registration(s.workers[w].job.jobID, s.workers[w].ctx))
    && (n in s.cancels ==> n in s.holder && s.workers[s.holder[n]].HasRegistration())
  }

  /** The places in `Run` where a forced action can be. */
  predicate Fitting(p: Phase) {
    !p.Idle? && p.job.force ==>
      p.Entered? || p.PastMaintenance? || p.Executing? || p.Succeeded? || p.Recording? || p.Recorded?
  }

  ghost predicate ForcedStayOut(s: State, n: string) {
    forall w: nat :: w < |s.workers| && NameOf(s.workers[w]) == n ==> Fitting(s.workers[w])
  }

  /** Claims and registrations of the container agree with where the workers are. */
  ghost predicate Agreement(s: State, n: string) {
    && (n in s.activeJobs <==> n in s.holder)
    && ClaimIsHeld(s, n) && HolderIsRecorded(s, n) && RegistryIsExact(s, n) && ForcedStayOut(s, n)
  }

  /** How the next phase of a step fits the changes it makes to claims and registrations. */
  ghost predicate Fits(p: Phase, f: Effect, claimed: bool) {
    && (f.claim == Keep ==> f.next.HasClaim() == p.HasClaim())
    && (f.claim == Add ==> !claimed && p.Entered? && f.next.HasClaim() && f.registration == Keep)
    && (f.claim == Drop ==>
          !f.next.HasClaim() && f.registration == Keep
          && ((p.HasClaim() && !p.HasRegistration()) || (!p.HasClaim() && ForcedReset(p, NameOf(p)))))
    && (f.registration == Keep ==> f.next.HasRegistration() == p.HasRegistration())
    && (f.registration == Add ==> p.HasClaim() && !p.HasRegistration() && f.next.Registered?)
    && (f.registration == Drop ==> p.HasRegistration() && f.next.HasClaim() && !f.next.HasRegistration())
    && (p.HasRegistration() && f.next.HasRegistration() ==> f.next.ctx == p.ctx)
    && Fitting(f.next)
  }

  lemma StepsFit(p: Phase, choice: Choice, cs: States, claimed: bool, governed: Option<OnStart>, now: int, nextCtx: nat)
    requires Fitting(p)
    requires WorkEffect(p, choice, cs, claimed, governed, now, nextCtx).Some?
    ensures var f := WorkEffect(p, choice, cs, claimed, governed, now, nextCtx).value;
      && Fits(p, f, claimed) && (f.registration == Add ==> f.next.ctx == nextCtx)
      && (f.claim == Drop ==> choice.Go?)
  {}

  /** A worker stays with its action to the end, and taking one changes nothing else. */
  lemma StaysWithJob(p: Phase, choice: Choice, cs: States, claimed: bool, governed: Option<OnStart>, now: int, nextCtx: nat)
    requires WorkEffect(p, choice, cs, claimed, governed, now, nextCtx).Some?
    ensures var f := WorkEffect(p, choice, cs, claimed, governed, now, nextCtx).value;
      && (!p.Idle? && !f.next.Idle? ==> f.next.job == p.job)
      && (p.Idle? ==> f.next.Entered? && f.claim == Keep && f.registration == Keep && f.marks == [] && f.cState == cs)
  {}

  // ---------- One step ----------

  /** A step of a worker on another container. */
  lemma AgreementElsewhere(s: State, w: nat, f: Effect, n: string)
    requires Agreement(s, n) && w < |s.workers|
    requires var p := s.workers[w];
      if p.Idle? then f.next.Entered? && f.claim == Keep && f.registration == Keep
      else p.job.name != n && (!f.next.Idle? ==> f.next.job == p.job)
    ensures Agreement(Apply(s, w, NameOf(s.workers[w]), f), n)
  {
    var t := Apply(s, w, NameOf(s.workers[w]), f);
    assert forall v: nat :: v < |s.workers| && v != w ==> t.workers[v] == s.workers[v];
    assert n in s.holder ==> s.holder[n] != w && t.holder[n] == s.holder[n];
  }

  lemma ClaimApplies(s: State, w: nat, f: Effect)
    requires w < |s.workers| && !s.workers[w].Idle?
    requires var n := NameOf(s.workers[w]); Agreement(s, n) && Fits(s.workers[w], f, n in s.activeJobs)
    requires !f.next.Idle? ==> f.next.job == s.workers[w].job
    requires var n := NameOf(s.workers[w]); f.claim == Drop && !s.workers[w].HasClaim() ==> n !in s.activeJobs
    ensures var n := NameOf(s.workers[w]); var t := Apply(s, w, n, f);
      (n in t.activeJobs <==> n in t.holder) && ClaimIsHeld(t, n) && HolderIsRecorded(t, n) && ForcedStayOut(t, n)
  {
    var t := Apply(s, w, NameOf(s.workers[w]), f);
    assert forall v: nat :: v < |s.workers| && v != w ==> t.workers[v] == s.workers[v];
  }

  lemma RegistryApplies(s: State, w: nat, f: Effect)
    requires w < |s.workers| && !s.workers[w].Idle?
    requires var n := NameOf(s.workers[w]); Agreement(s, n) && Fits(s.workers[w], f, n in s.activeJobs)
    requires !f.next.Idle? ==> f.next.job == s.workers[w].job
    requires var n := NameOf(s.workers[w]); f.claim == Drop && !s.workers[w].HasClaim() ==> n !in s.activeJobs
    requires f.registration == Add ==> f.next.ctx == s.nextCtx
    ensures var n := NameOf(s.workers[w]); var t := Apply(s, w, n, f);
      ClaimIsHeld(t, n) && RegistryIsExact(t, n)
  {
    var t := Apply(s, w, NameOf(s.workers[w]), f);
    ClaimApplies(s, w, f);
    assert forall v: nat :: v < |s.workers| && v != w ==> t.workers[v] == s.workers[v];
  }

  lemma AgreementWork(s: State, w: nat, choice: Choice, n: string)
    requires Agreement(s, n) && w < |s.workers| && WorkStep(s, w, choice).Some?
    requires Spares(s, Work(w, choice), n)
    ensures Agreement(WorkStep(s, w, choice).value, n)
  {
    var p, f := s.workers[w], EffectOf(s, w, choice).value;
    var governed := OnStartAt(s.windows, s.jobs, s.now, JobIDOf(p));
    StaysWithJob(p, choice, s.cState, NameOf(p) in s.activeJobs, governed, s.now, s.nextCtx);
    if p.Idle? || p.job.name != n {
      AgreementElsewhere(s, w, f, n);
    } else {
      StepsFit(p, choice, s.cState, n in s.activeJobs, governed, s.now, s.nextCtx);
      ClaimApplies(s, w, f);
      RegistryApplies(s, w, f);
    }
  }

  /** Only workers and resets touch claims and registrations. */
  lemma OthersLeaveClaims(s: State, e: Event, n: string)
    requires !e.Work? && Spares(s, e, n) && Agreement(s, n) && Step(s, e).Some?
    ensures var t := Step(s, e).value;
      && t.workers == s.workers && t.cancels == s.cancels
      && (n in t.holder <==> n in s.holder) && (n in s.holder ==> t.holder[n] == s.holder[n])
      && (n in t.activeJobs <==> n in s.activeJobs)
  {}

  lemma AgreementStep(s: State, e: Event, n: string)
    requires Agreement(s, n) && Spares(s, e, n) && Step(s, e).Some?
    ensures Agreement(Step(s, e).value, n)
  {
    if e.Work? {
      AgreementWork(s, e.w, e.choice, n);
    } else {
      OthersLeaveClaims(s, e, n);
    }
  }

  // ---------- Runs ----------

  lemma AgreementInit(s: State, n: string)
    requires Init(s)
    ensures Agreement(s, n)
  {}

  lemma {:induction false} AgreementAlways(s: State, events: seq<Event>, n: string)
    requires Agreement(s, n) && Exec(Step, s, events).Some? && Sparing(s, events, n)
    ensures Agreement(Exec(Step, s, events).value, n)
  {
    if events != [] {
      AgreementAlways(s, Front(events), n);
      AgreementStep(Exec(Step, s, Front(events)).value, Last(events), n);
    }
  }

  ghost predicate AtMostOneHolder(s: State, n: string) {
    forall v: nat, w: nat | v < |s.workers| && w < |s.workers| ::
      Holds(s.workers[v], n) && Holds(s.workers[w], n) ==> v == w
  }

  predicate Holds(p: Phase, n: string) {
    p.HasClaim() && p.job.name == n
  }

  /** In every run that takes no claim on the container away, at most one worker is between
      claim and release for it, it counts as claimed exactly then, a registered cancel function
      is under a claim, and it is the one of the worker that holds the claim. */
  lemma MutualExclusion(init: State, events: seq<Event>, n: string)
    requires Init(init) && Exec(Step, init, events).Some? && Sparing(init, events, n)
    ensures var s := Exec(Step, init, events).value;
      && AtMostOneHolder(s, n)
      && (n in s.activeJobs <==> exists w: nat :: w < |s.workers| && Holds(s.workers[w], n))
      && (n in s.cancels ==> n in s.activeJobs)
      && (forall w: nat :: w < |s.workers| && Holds(s.workers[w], n) && n in s.cancels ==>
            s.workers[w].HasRegistration()
            && s.cancels[n] == Registration(s.workers[w].job.jobID, s.workers[w].ctx))
  {
    AgreementInit(init, n);
    AgreementAlways(init, events, n);
    var s := Exec(Step, init, events).value;
    if n in s.activeJobs {
      assert Holds(s.workers[s.holder[n]], n);
    }
  }

  // ---------- When a reset is harmless ----------

  /** The run, if it takes no claim on the container away, ends with at most one holder. */
  ghost predicate KeepsExclusion(s: State, events: seq<Event>, n: string) {
    Exec(Step, s, events).Some? && Sparing(s, events, n) ==> AtMostOneHolder(Exec(Step, s, events).value, n)
  }

  /** A cooldown reset leaves mutual exclusion in force for everything that can follow, exactly
      if the container was not claimed or there is only one worker. */
  lemma ResetHarmlessIff(s: State, n: string)
    requires Agreement(s, n)
    ensures (forall more: seq<Event> :: KeepsExclusion(Reset(s, n), more, n)) <==>
            (n !in s.activeJobs || |s.workers| < 2)
  {
    if n !in s.activeJobs {
      forall more: seq<Event> ensures KeepsExclusion(Reset(s, n), more, n) {
        UnclaimedResetKeeps(s, more, n);
      }
    } else if |s.workers| < 2 {
      forall more: seq<Event> ensures KeepsExclusion(Reset(s, n), more, n) {
        if Exec(Step, Reset(s, n), more).Some? { WorkersStay(Reset(s, n), more); }
      }
    } else {
      var more := TwoHolders(s, n);
      assert !KeepsExclusion(Reset(s, n), more, n);
    }
  }

  lemma UnclaimedResetKeeps(s: State, more: seq<Event>, n: string)
    requires Agreement(s, n) && n !in s.activeJobs
    ensures KeepsExclusion(Reset(s, n), more, n)
  {
    assert Agreement(Reset(s, n), n);
    if Exec(Step, Reset(s, n), more).Some? && Sparing(Reset(s, n), more, n) {
      AgreementAlways(Reset(s, n), more, n);
    }
  }

  lemma {:induction false} WorkersStay(s: State, events: seq<Event>)
    requires Exec(Step, s, events).Some?
    ensures |Exec(Step, s, events).value.workers| == |s.workers|
  {
    if events != [] {
      WorkersStay(s, Front(events));
      WorkersStep(Exec(Step, s, Front(events)).value, Last(events));
    }
  }

  lemma WorkersStep(s: State, e: Event)
    requires Step(s, e).Some?
    ensures |Step(s, e).value.workers| == |s.workers|
  {}

  lemma {:induction false} SparingAppend(s: State, events: seq<Event>, more: seq<Event>, n: string)
    requires Exec(Step, s, events).Some? && Sparing(s, events, n) && Sparing(Exec(Step, s, events).value, more, n)
    ensures Sparing(s, events + more, n)
  {
    if more == [] {
      assert events + more == events;
    } else {
      FrontOfSum(events, more);
      SparingAppend(s, events, Front(more), n);
      ExecAppend(Step, s, events, Front(more));
    }
  }

  /** How far a worker is from being idle. */
  function Rank(p: Phase): nat {
    match p
    case Idle => 0
    case Releasing(_) => 1
    case Unregistering(_, _) => 2
    case Leaving(_, _) => 3
    case ExhaustionSet(_, _) => 4
    case Recorded(_, _, _) => 5
    case Recording(_, _, _, _) => 6
    case Succeeded(_, _, _) => 7
    case Executing(_, _, _) => 8
    case PastMaintenance(_, _) => 9
    case PastWait(_, _) => 10
    case PastExhausted(_, _) => 11
    case Registered(_, _) => 12
    case Claimed(_) => 13
    case Entered(_) => 14
  }

  function Onward(p: Phase): Choice {
    if p.Executing? then Fail else Go
  }

  /** Nothing blocks a worker: it always has a step that brings it nearer to the end. */
  lemma AlwaysOnward(p: Phase, cs: States, claimed: bool, governed: Option<OnStart>, now: int, nextCtx: nat)
    requires !p.Idle?
    ensures var f := WorkEffect(p, Onward(p), cs, claimed, governed, now, nextCtx);
      && f.Some? && Rank(f.value.next) < Rank(p)
      && (f.value.claim == Add ==> p.Entered? && !p.job.force)
  {}

  /** A worker that is not about to claim the container can be brought to its end without
      anything happening to the container's claim or to the other workers. */
  lemma {:induction false} BringToEnd(s: State, v: nat, n: string) returns (more: seq<Event>)
    requires v < |s.workers| && n !in s.activeJobs
    requires s.workers[v].Idle? || s.workers[v].job.name != n || s.workers[v].job.force
    ensures Exec(Step, s, more).Some? && Sparing(s, more, n)
    ensures var t := Exec(Step, s, more).value;
      n !in t.activeJobs && t.workers == s.workers[v := Idle]
    decreases Rank(s.workers[v])
  {
    var p := s.workers[v];
    if p.Idle? {
      more := [];
    } else {
      var governed := OnStartAt(s.windows, s.jobs, s.now, JobIDOf(p));
      AlwaysOnward(p, s.cState, NameOf(p) in s.activeJobs, governed, s.now, s.nextCtx);
      StaysWithJob(p, Onward(p), s.cState, NameOf(p) in s.activeJobs, governed, s.now, s.nextCtx);
      var first := [Work(v, Onward(p))];
      var t := Step(s, first[0]).value;
      assert t.workers == s.workers[v := EffectOf(s, v, Onward(p)).value.next] && n !in t.activeJobs;
      var rest := BringToEnd(t, v, n);
      OneEvent(s, first[0], n);
      ExecAppend(Step, s, first, rest);
      SparingAppend(s, first, rest, n);
      more := first + rest;
      assert t.workers[v := Idle] == s.workers[v := Idle];
    }
  }

  lemma OneEvent(s: State, e: Event, n: string)
    requires Step(s, e).Some? && Spares(s, e, n)
    ensures Exec(Step, s, [e]) == Step(s, e) && Sparing(s, [e], n)
  {
    ExecSnoc(Step, s, [], e);
    assert [] + [e] == [e] && Front([e]) == [];
  }

  /** An idle worker, or one that has just entered with an action on the container, claims it. */
  lemma Claims(s: State, v: nat, n: string) returns (more: seq<Event>)
    requires v < |s.workers| && n !in s.activeJobs
    requires s.workers[v].Idle? || (s.workers[v].Entered? && s.workers[v].job.name == n && !s.workers[v].job.force)
    ensures Exec(Step, s, more).Some? && Sparing(s, more, n)
    ensures var t := Exec(Step, s, more).value;
      |t.workers| == |s.workers| && Holds(t.workers[v], n)
      && forall w: nat :: w < |s.workers| && w != v ==> t.workers[w] == s.workers[w]
    decreases s.workers[v].Idle?
  {
    if s.workers[v].Idle? {
      var take := Work(v, Take(ActionJob(n, "", false, 0, 0)));
      OneEvent(s, take, n);
      var t := Step(s, take).value;
      var rest := Claims(t, v, n);
      ExecAppend(Step, s, [take], rest);
      SparingAppend(s, [take], rest, n);
      more := [take] + rest;
    } else {
      OneEvent(s, Work(v, Go), n);
      more := [Work(v, Go)];
    }
  }

  /** After a reset of a claimed container any second worker can come to hold it too. */
  lemma TwoHolders(s: State, n: string) returns (more: seq<Event>)
    requires Agreement(s, n) && n in s.activeJobs && |s.workers| >= 2
    ensures Exec(Step, Reset(s, n), more).Some? && Sparing(Reset(s, n), more, n)
    ensures !AtMostOneHolder(Exec(Step, Reset(s, n), more).value, n)
  {
    var h := s.holder[n];
    var v := if h == 0 then 1 else 0;
    var r := Reset(s, n);
    assert Holds(r.workers[h], n) && !Holds(r.workers[v], n);
    var end := [];
    if !r.workers[v].Entered? || r.workers[v].job.name != n || r.workers[v].job.force {
      end := BringToEnd(r, v, n);
    } else {
      assert Exec(Step, r, end) == Some(r);
    }
    var t := Exec(Step, r, end).value;
    var claim := Claims(t, v, n);
    ExecAppend(Step, r, end, claim);
    SparingAppend(r, end, claim, n);
    more := end + claim;
    var u := Exec(Step, t, claim).value;
    assert Holds(u.workers[h], n) && Holds(u.workers[v], n);
  }
}
