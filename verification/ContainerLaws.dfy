/** What every run keeps for a container that is never forced, and never reset while an action
    on it is claimed: waits, exhaustion, the retry bound and the recovery gate.  Other containers
    may be forced and reset at any time. */
module ContainerLaws {
  import opened ActionProtocol
  import opened ClaimLaws
  import opened Common
  import opened ContainerHistory
  import opened ContainerState
  import opened Pause
  import opened Schedule

  // ---------- One container at a time ----------

  /** The phase of the worker that holds the claim on a container, `Idle` if none does. */
  ghost function HolderPhase(s: State, n: string): Phase
    requires ClaimIsHeld(s, n)
  {
    if n in s.holder then s.workers[s.holder[n]] else Idle
  }

  predicate Exhausted(e: Option<Entry>) {
    e.Some? && e.value.exhausted
  }

  predicate PastWaitCheck(p: Phase) {
    p.PastWait? || p.PastMaintenance? || p.Executing? || p.Succeeded?
  }

  predicate Started(p: Phase) {
    p.Executing? || p.Succeeded? || p.Recording? || p.Recorded?
  }

  predicate PastExhaustionCheck(p: Phase) {
    p.PastExhausted? || p.PastWait? || p.PastMaintenance? || Started(p)
  }

  /** The entry of a container is what its history says. */
  predicate EntryMatchesHistory(e: Option<Entry>, h: seq<Mark>) {
    var x := if e.Some? then e.value else FRESH;
    && x.cycle == StartsSinceDeletion(h)
    && x.stableScans == StableRun(h)
    && x.lastFailed == LastActionFailed(h)
    && x.stableScansRequired == Threshold(h)
  }

  predicate WaitInv(e: Option<Entry>, p: Phase, h: seq<Mark>, now: int) {
    && 0 <= now
    && (LatestWait(h) <= now || (e.Some? && e.value.deadline.Some? && LatestWait(h) <= e.value.deadline.value))
    && (e.Some? && e.value.deadline.Some? ==> e.value.deadline.value <= LatestWait(h))
    && (PastWaitCheck(p) ==> LatestWait(h) <= now)
    && WaitsRespected(h)
  }

  predicate ExhaustionInv(e: Option<Entry>, p: Phase, h: seq<Mark>) {
    && ExhaustionsLogged(h) + (if p.ExhaustionSet? then 1 else 0) == (if Exhausted(e) then 1 else 0)
    && (PastExhaustionCheck(p) ==> !Exhausted(e))
    && NoStartAfterExhaustion(h) && LoggedOnce(h)
  }

  /** What holds of one container in every reachable state. */
  predicate Sound(e: Option<Entry>, p: Phase, h: seq<Mark>, now: int) {
    EntryMatchesHistory(e, h) && WaitInv(e, p, h, now) && ExhaustionInv(e, p, h) && RecoveriesEarned(h)
  }

  /** What holds besides if all retry limits for the container lie in 1..`r`. */
  predicate WithinRetries(e: Option<Entry>, p: Phase, h: seq<Mark>, r: int) {
    var cycle := if e.Some? then e.value.cycle else 0;
    && cycle <= r
    && (!p.Idle? ==> 1 <= RetryLimit(p.job) <= r)
    && (if Started(p) then cycle <= p.cycle <= r else Exhausted(e) || cycle < r)
    && StartsStayWithin(h, r)
  }

  // ---------- Steps of the worker that holds the claim ----------

  /** How a step of the claim's holder changes the entry, and what it adds to the history. */
  ghost predicate OwnStep(e: Option<Entry>, p: Phase, e': Option<Entry>, p': Phase, marks: seq<Mark>, now: int) {
    var x := if e.Some? then e.value else FRESH;
    && (!p'.Idle? && !p.Idle? ==> p'.job == p.job)
    && (Started(p) && Started(p') ==> p'.cycle == p.cycle)
    && match p
      case PastMaintenance(_, _) =>
        e' == Some(x.(cycle := x.cycle + 1)) && p'.Executing? && p'.cycle == x.cycle + 1 && marks == [ActionStarted(now)]
      case Succeeded(j, _, _) =>
        p'.Recording? && !p'.failed
        && if j.postActionWait > 0
           then e' == Some(x.(deadline := Some(now + j.postActionWait))) && marks == [WaitSet(now + j.postActionWait)]
           else e' == e && marks == []
      case Recording(_, _, _, failed) =>
        && e' == Some(x.(lastFailed := failed, stableScans := if failed then 0 else x.stableScans))
        && p'.Recorded? && marks == [if failed then ActionFailed else ActionSucceeded]
      case ExhaustionSet(_, _) => e' == e && p'.Leaving? && marks == [ExhaustionLogged]
      case Recorded(j, _, k) =>
        marks == [] && if 0 < RetryLimit(j) <= k then e' == Some(x.(exhausted := true)) && p'.ExhaustionSet?
                       else e' == e && p'.Leaving?
      case PastExhausted(_, _) =>
        && marks == []
        && (if e.Some? && InWait(e.value, now) then p'.Leaving? else p'.PastWait?)
        && (e' == e || (e.Some? && !InWait(e.value, now) && e' == Some(e.value.(deadline := None))))
      case _ =>
        && e' == e && marks == []
        && (p'.PastExhausted? ==> !Exhausted(e))
        && (PastExhaustionCheck(p') ==> p'.PastExhausted? || PastExhaustionCheck(p))
        && (PastWaitCheck(p') ==> PastWaitCheck(p))
        && (Started(p') == Started(p))
        && !p'.ExhaustionSet?
  }

  lemma HolderStepsAreOwn(p: Phase, choice: Choice, cs: States, claimed: bool, governed: Option<OnStart>,
                          now: int, nextCtx: nat)
    requires (p.HasClaim() || (p.Entered? && !claimed)) && !p.job.force
    requires WorkEffect(p, choice, cs, claimed, governed, now, nextCtx).Some?
    ensures var f := WorkEffect(p, choice, cs, claimed, governed, now, nextCtx).value;
      OwnStep(Lookup(cs, p.job.name), p, Lookup(f.cState, p.job.name), f.next, f.marks, now)
  {}

  lemma OneMark(h: seq<Mark>, marks: seq<Mark>)
    requires |marks| <= 1
    ensures if marks == [] then h + marks == h else Front(h + marks) == h && Last(h + marks) == marks[0]
  {}

  lemma EntryOwnStep(e: Option<Entry>, p: Phase, e': Option<Entry>, p': Phase, h: seq<Mark>, marks: seq<Mark>, now: int)
    requires EntryMatchesHistory(e, h) && OwnStep(e, p, e', p', marks, now)
    ensures EntryMatchesHistory(e', h + marks)
  {
    OneMark(h, marks);
  }

  lemma WaitNoted(h: seq<Mark>, m: Mark)
    requires WaitsRespected(h) && (m.ActionStarted? ==> LatestWait(h) <= m.at)
    ensures WaitsRespected(h + [m])
    ensures !m.StateReset? ==> LatestWait(h + [m]) == if m.WaitSet? && m.until > LatestWait(h) then m.until else LatestWait(h)
  {
    SplitLast(h, m);
  }

  lemma WaitOwnStep(e: Option<Entry>, p: Phase, e': Option<Entry>, p': Phase, h: seq<Mark>, marks: seq<Mark>, now: int)
    requires WaitInv(e, p, h, now) && OwnStep(e, p, e', p', marks, now)
    ensures WaitInv(e', p', h + marks, now)
  {
    if marks == [] {
      assert h + marks == h;
    } else {
      assert marks == [marks[0]];
      WaitNoted(h, marks[0]);
    }
  }

  lemma ExhaustionNoted(h: seq<Mark>, m: Mark)
    requires NoStartAfterExhaustion(h) && LoggedOnce(h)
    requires m.ActionStarted? || m.ExhaustionLogged? ==> ExhaustionsLogged(h) == 0
    ensures NoStartAfterExhaustion(h + [m]) && LoggedOnce(h + [m])
    ensures !m.StateReset? ==> ExhaustionsLogged(h + [m]) == ExhaustionsLogged(h) + if m.ExhaustionLogged? then 1 else 0
  {
    SplitLast(h, m);
  }

  lemma ExhaustionOwnStep(e: Option<Entry>, p: Phase, e': Option<Entry>, p': Phase, h: seq<Mark>, marks: seq<Mark>, now: int)
    requires ExhaustionInv(e, p, h) && OwnStep(e, p, e', p', marks, now)
    ensures ExhaustionInv(e', p', h + marks)
  {
    if marks == [] {
      assert h + marks == h;
    } else {
      assert marks == [marks[0]];
      ExhaustionNoted(h, marks[0]);
    }
  }

  lemma RecoveryOwnStep(e: Option<Entry>, p: Phase, e': Option<Entry>, p': Phase, h: seq<Mark>, marks: seq<Mark>, now: int)
    requires RecoveriesEarned(h) && OwnStep(e, p, e', p', marks, now)
    ensures RecoveriesEarned(h + marks)
  {
    OneMark(h, marks);
  }

  lemma SoundOwnStep(e: Option<Entry>, p: Phase, e': Option<Entry>, p': Phase, h: seq<Mark>, marks: seq<Mark>, now: int)
    requires Sound(e, p, h, now) && OwnStep(e, p, e', p', marks, now)
    ensures Sound(e', p', h + marks, now)
  {
    EntryOwnStep(e, p, e', p', h, marks, now);
    WaitOwnStep(e, p, e', p', h, marks, now);
    ExhaustionOwnStep(e, p, e', p', h, marks, now);
    RecoveryOwnStep(e, p, e', p', h, marks, now);
  }

  lemma RetriesOwnStep(e: Option<Entry>, p: Phase, e': Option<Entry>, p': Phase, h: seq<Mark>, marks: seq<Mark>,
                       now: int, r: int)
    requires EntryMatchesHistory(e, h) && ExhaustionInv(e, p, h)
    requires WithinRetries(e, p, h, r) && OwnStep(e, p, e', p', marks, now)
    requires !p.Idle? && 1 <= RetryLimit(p.job) <= r
    ensures WithinRetries(e', p', h + marks, r)
  {
    EntryOwnStep(e, p, e', p', h, marks, now);
    StartsOwnStep(e, p, e', p', h, marks, now, r);
  }

  lemma StartsOwnStep(e: Option<Entry>, p: Phase, e': Option<Entry>, p': Phase, h: seq<Mark>, marks: seq<Mark>,
                      now: int, r: int)
    requires EntryMatchesHistory(e, h) && EntryMatchesHistory(e', h + marks) && OwnStep(e, p, e', p', marks, now)
    requires StartsStayWithin(h, r) && (p.PastMaintenance? ==> (if e.Some? then e.value.cycle else 0) < r)
    ensures StartsStayWithin(h + marks, r)
  {
    OneMark(h, marks);
  }

  // ---------- Marks that say nothing about waits and exhaustion ----------

  predicate Aside(m: Mark) {
    !m.ExhaustionLogged? && !m.ActionStarted? && !m.WaitSet? && !m.StateReset?
  }

  /** The histories agree on waits and exhaustion. */
  predicate SaySame(h: seq<Mark>, k: seq<Mark>) {
    && ExhaustionsLogged(k) == ExhaustionsLogged(h) && LatestWait(k) == LatestWait(h)
    && (NoStartAfterExhaustion(h) ==> NoStartAfterExhaustion(k))
    && (LoggedOnce(h) ==> LoggedOnce(k))
    && (WaitsRespected(h) ==> WaitsRespected(k))
  }

  lemma AsideNoted(h: seq<Mark>, m: Mark)
    requires Aside(m)
    ensures SaySame(h, h + [m])
  {
    SplitLast(h, m);
  }

  lemma {:induction false} AsideAll(h: seq<Mark>, marks: seq<Mark>)
    requires forall i :: 0 <= i < |marks| ==> Aside(marks[i])
    ensures SaySame(h, h + marks)
  {
    if marks == [] {
      assert h + marks == h;
    } else {
      AsideAll(h, Front(marks));
      AsideNoted(h + Front(marks), Last(marks));
      assert h + Front(marks) + [Last(marks)] == h + marks;
    }
  }

  // ---------- Steps of the scanner ----------

  /** What a dispatch does to the container's entry and history. */
  ghost predicate DispatchStep(e: Option<Entry>, e': Option<Entry>, marks: seq<Mark>, now: int) {
    var x := if e.Some? then e.value else FRESH;
    || (e' == e && marks == [])
    || (e.Some? && !InWait(x, now) && e' == Some(x.(deadline := None)) && marks == [])
    || (|marks| == 1 && marks[0].ThresholdSet? && e' == Some(x.(stableScansRequired := marks[0].required)))
  }

  lemma EntryDispatch(e: Option<Entry>, e': Option<Entry>, h: seq<Mark>, marks: seq<Mark>, now: int)
    requires EntryMatchesHistory(e, h) && DispatchStep(e, e', marks, now)
    ensures EntryMatchesHistory(e', h + marks)
  {
    OneMark(h, marks);
  }

  lemma ThresholdNoted(h: seq<Mark>, m: Mark, r: int)
    requires m.ThresholdSet?
    ensures RecoveriesEarned(h) ==> RecoveriesEarned(h + [m])
    ensures StartsStayWithin(h, r) ==> StartsStayWithin(h + [m], r)
  {
    SplitLast(h, m);
  }

  lemma DispatchMarks(h: seq<Mark>, e: Option<Entry>, e': Option<Entry>, marks: seq<Mark>, now: int)
    requires DispatchStep(e, e', marks, now)
    ensures h + marks == h || (h + marks == h + [marks[0]] && marks[0].ThresholdSet?)
  {
    OneMark(h, marks);
    if marks != [] { assert marks == [marks[0]]; }
  }

  lemma RecoveryDispatch(e: Option<Entry>, e': Option<Entry>, h: seq<Mark>, marks: seq<Mark>, now: int)
    requires RecoveriesEarned(h) && DispatchStep(e, e', marks, now)
    ensures RecoveriesEarned(h + marks)
  {
    DispatchMarks(h, e, e', marks, now);
    if marks != [] { ThresholdNoted(h, marks[0], 0); }
  }

  lemma QuietDispatch(e: Option<Entry>, p: Phase, e': Option<Entry>, h: seq<Mark>, k: seq<Mark>, marks: seq<Mark>, now: int)
    requires WaitInv(e, p, h, now) && ExhaustionInv(e, p, h) && DispatchStep(e, e', marks, now) && SaySame(h, k)
    ensures WaitInv(e', p, k, now) && ExhaustionInv(e', p, k)
  {}

  lemma SoundDispatch(e: Option<Entry>, p: Phase, e': Option<Entry>, h: seq<Mark>, marks: seq<Mark>, now: int)
    requires Sound(e, p, h, now) && DispatchStep(e, e', marks, now)
    ensures Sound(e', p, h + marks, now)
  {
    EntryDispatch(e, e', h, marks, now);
    AsideAll(h, marks);
    QuietDispatch(e, p, e', h, h + marks, marks, now);
    RecoveryDispatch(e, e', h, marks, now);
  }

  lemma RetriesDispatch(e: Option<Entry>, p: Phase, e': Option<Entry>, h: seq<Mark>, marks: seq<Mark>, now: int, r: int)
    requires WithinRetries(e, p, h, r) && DispatchStep(e, e', marks, now) && r >= 1
    ensures WithinRetries(e', p, h + marks, r)
  {
    DispatchMarks(h, e, e', marks, now);
    if marks != [] { ThresholdNoted(h, marks[0], r); }
  }

  function AfterScan(e: Option<Entry>, troubled: bool, now: int): Option<Entry> {
    if e.None? then None
    else match Judge(e.value, troubled, now)
      case Kept(x) => Some(x)
      case Recovered => None
  }

  lemma TwoMarks(h: seq<Mark>, a: Mark, b: Mark)
    ensures Last(h + [a, b]) == b && Front(h + [a, b]) == h + [a] && Last(h + [a]) == a && Front(h + [a]) == h
  {}

  lemma MarkUpToTwo(h: seq<Mark>, marks: seq<Mark>)
    requires |marks| <= 2
    ensures marks == [] ==> h + marks == h
    ensures |marks| == 1 ==> Front(h + marks) == h && Last(h + marks) == marks[0]
    ensures |marks| == 2 ==> Last(h + marks) == marks[1] && Front(h + marks) == h + [marks[0]]
    ensures |marks| == 2 ==> Last(h + [marks[0]]) == marks[0] && Front(h + [marks[0]]) == h
  {
    if |marks| == 2 {
      assert marks == [marks[0], marks[1]];
      TwoMarks(h, marks[0], marks[1]);
    }
  }

  lemma EntryScan(e: Option<Entry>, troubled: bool, h: seq<Mark>, now: int)
    requires EntryMatchesHistory(e, h) && RecoveriesEarned(h)
    ensures EntryMatchesHistory(AfterScan(e, troubled, now), h + ScanMarks(e, troubled, now))
    ensures RecoveriesEarned(h + ScanMarks(e, troubled, now))
  {
    MarkUpToTwo(h, ScanMarks(e, troubled, now));
  }

  lemma QuietScan(e: Option<Entry>, p: Phase, troubled: bool, h: seq<Mark>, k: seq<Mark>, now: int)
    requires WaitInv(e, p, h, now) && ExhaustionInv(e, p, h) && SaySame(h, k)
    ensures WaitInv(AfterScan(e, troubled, now), p, k, now) && ExhaustionInv(AfterScan(e, troubled, now), p, k)
  {}

  lemma RetriesScan(e: Option<Entry>, p: Phase, troubled: bool, h: seq<Mark>, now: int, r: int)
    requires EntryMatchesHistory(e, h) && WithinRetries(e, p, h, r) && r >= 1
    ensures WithinRetries(AfterScan(e, troubled, now), p, h + ScanMarks(e, troubled, now), r)
  {
    MarkUpToTwo(h, ScanMarks(e, troubled, now));
  }

  // ---------- A reset ----------

  lemma SoundReset(e: Option<Entry>, h: seq<Mark>, now: int)
    requires Sound(e, Idle, h, now)
    ensures Sound(None, Idle, h + [StateReset], now)
  {
    SplitLast(h, StateReset);
  }

  lemma RetriesReset(e: Option<Entry>, h: seq<Mark>, r: int)
    requires WithinRetries(e, Idle, h, r) && r >= 1
    ensures WithinRetries(None, Idle, h + [StateReset], r)
  {
    SplitLast(h, StateReset);
  }

  // ---------- From one container to the whole state ----------

  /** No worker has a forced action on the container. */
  ghost predicate NotForced(s: State, n: string) {
    forall w: nat :: w < |s.workers| && !s.workers[w].Idle? && s.workers[w].job.name == n ==> !s.workers[w].job.force
  }

  ghost predicate SoundAt(s: State, n: string) {
    Agreement(s, n) && NotForced(s, n) && Sound(Lookup(s.cState, n), HolderPhase(s, n), s.history(n), s.now)
  }

  ghost predicate WithinRetriesAt(s: State, n: string, r: int)
    requires ClaimIsHeld(s, n)
  {
    WithinRetries(Lookup(s.cState, n), HolderPhase(s, n), s.history(n), r) && LimitsWithin(s, n, r)
  }

  lemma NotForcedStep(s: State, e: Event, n: string)
    requires NotForced(s, n) && Unforced(e, n) && Step(s, e).Some?
    ensures NotForced(Step(s, e).value, n)
  {
    if e.Work? {
      var p := s.workers[e.w];
      StaysWithJob(p, e.choice, s.cState, NameOf(p) in s.activeJobs,
                   OnStartAt(s.windows, s.jobs, s.now, JobIDOf(p)), s.now, s.nextCtx);
    }
  }

  /** A worker's step leaves the entries of all other containers alone; before the claim it
      leaves every entry alone. */
  lemma EffectIsLocal(p: Phase, choice: Choice, cs: States, claimed: bool, governed: Option<OnStart>,
                      now: int, nextCtx: nat, n: string)
    requires WorkEffect(p, choice, cs, claimed, governed, now, nextCtx).Some?
    ensures var f := WorkEffect(p, choice, cs, claimed, governed, now, nextCtx).value;
      && (p.Idle? || n != NameOf(p) ==> Lookup(f.cState, n) == Lookup(cs, n))
      && (!p.Idle? && !p.job.force && !p.HasClaim() ==> f.marks == [] && f.cState == cs)
      && (p.Idle? ==> f.marks == [])
  {}

  /** The holder of a claim, or the worker making it, is seen as the container's own. */
  predicate ActsFor(p: Phase, n: string, claimed: bool) {
    !p.Idle? && p.job.name == n && (p.HasClaim() || (p.Entered? && !claimed))
  }

  lemma HolderPhaseAfter(s: State, w: nat, choice: Choice, n: string)
    requires SoundAt(s, n) && w < |s.workers| && WorkStep(s, w, choice).Some?
    requires Agreement(WorkStep(s, w, choice).value, n)
    ensures var p := s.workers[w]; var t := WorkStep(s, w, choice).value;
      if ActsFor(p, n, n in s.activeJobs)
      then HolderPhase(t, n) == EffectOf(s, w, choice).value.next
           && HolderPhase(s, n) == if p.HasClaim() then p else Idle
      else HolderPhase(t, n) == HolderPhase(s, n)
  {
    var p := s.workers[w];
    var governed := OnStartAt(s.windows, s.jobs, s.now, JobIDOf(p));
    StaysWithJob(p, choice, s.cState, NameOf(p) in s.activeJobs, governed, s.now, s.nextCtx);
    if !p.Idle? && p.job.name == n {
      StepsFit(p, choice, s.cState, n in s.activeJobs, governed, s.now, s.nextCtx);
    }
  }

  /** Seen from one container, a worker's step is a step of its own holder or no step. */
  lemma WorkSeenFrom(s: State, w: nat, choice: Choice, n: string) returns (marks: seq<Mark>)
    requires SoundAt(s, n) && w < |s.workers| && WorkStep(s, w, choice).Some?
    requires Agreement(WorkStep(s, w, choice).value, n)
    ensures var t := WorkStep(s, w, choice).value;
      && t.history(n) == s.history(n) + marks && t.now == s.now
      && if ActsFor(s.workers[w], n, n in s.activeJobs)
         then HolderPhase(s, n) == (if s.workers[w].HasClaim() then s.workers[w] else Idle)
              && OwnStep(Lookup(s.cState, n), s.workers[w], Lookup(t.cState, n), HolderPhase(t, n), marks, s.now)
         else Lookup(t.cState, n) == Lookup(s.cState, n) && HolderPhase(t, n) == HolderPhase(s, n) && marks == []
  {
    var p, f := s.workers[w], EffectOf(s, w, choice).value;
    var governed := OnStartAt(s.windows, s.jobs, s.now, JobIDOf(p));
    HolderPhaseAfter(s, w, choice, n);
    EffectIsLocal(p, choice, s.cState, NameOf(p) in s.activeJobs, governed, s.now, s.nextCtx, n);
    if ActsFor(p, n, n in s.activeJobs) {
      HolderStepsAreOwn(p, choice, s.cState, n in s.activeJobs, governed, s.now, s.nextCtx);
      marks := f.marks;
    } else {
      marks := [];
    }
  }

  lemma SoundWork(s: State, w: nat, choice: Choice, n: string)
    requires SoundAt(s, n) && w < |s.workers| && WorkStep(s, w, choice).Some?
    requires Agreement(WorkStep(s, w, choice).value, n) && NotForced(WorkStep(s, w, choice).value, n)
    ensures SoundAt(WorkStep(s, w, choice).value, n)
  {
    var t, p := WorkStep(s, w, choice).value, s.workers[w];
    var marks := WorkSeenFrom(s, w, choice, n);
    if ActsFor(p, n, n in s.activeJobs) {
      SoundOwnStep(Lookup(s.cState, n), p, Lookup(t.cState, n), HolderPhase(t, n), s.history(n), marks, s.now);
    } else {
      assert s.history(n) + [] == s.history(n);
    }
  }

  ghost predicate LimitsWithin(s: State, n: string, r: int) {
    forall w: nat :: w < |s.workers| && !s.workers[w].Idle? && s.workers[w].job.name == n ==>
      1 <= RetryLimit(s.workers[w].job) <= r
  }

  lemma LimitsWork(s: State, w: nat, choice: Choice, n: string, r: int)
    requires w < |s.workers| && WorkStep(s, w, choice).Some?
    requires LimitsWithin(s, n, r) && TakesWithin(Work(w, choice), n, r)
    ensures LimitsWithin(WorkStep(s, w, choice).value, n, r)
  {
    var p := s.workers[w];
    StaysWithJob(p, choice, s.cState, NameOf(p) in s.activeJobs,
                 OnStartAt(s.windows, s.jobs, s.now, JobIDOf(p)), s.now, s.nextCtx);
  }

  lemma RetriesWork(s: State, w: nat, choice: Choice, n: string, r: int)
    requires SoundAt(s, n) && w < |s.workers| && WorkStep(s, w, choice).Some?
    requires Agreement(WorkStep(s, w, choice).value, n) && r >= 1 && WithinRetriesAt(s, n, r)
    requires TakesWithin(Work(w, choice), n, r)
    ensures WithinRetriesAt(WorkStep(s, w, choice).value, n, r)
  {
    var t, p := WorkStep(s, w, choice).value, s.workers[w];
    var marks := WorkSeenFrom(s, w, choice, n);
    LimitsWork(s, w, choice, n, r);
    if ActsFor(p, n, n in s.activeJobs) {
      RetriesOwnStep(Lookup(s.cState, n), p, Lookup(t.cState, n), HolderPhase(t, n), s.history(n), marks, s.now, r);
    } else {
      assert s.history(n) + [] == s.history(n);
    }
  }

  // ---------- Scans and outside changes ----------

  /** Scans and outside changes leave the holder alone, and a reset finds none. */
  lemma HolderStays(s: State, e: Event, n: string)
    requires Agreement(s, n) && !e.Work? && Spares(s, e, n) && Step(s, e).Some?
    ensures Agreement(Step(s, e).value, n) && HolderPhase(Step(s, e).value, n) == HolderPhase(s, n)
    ensures e == ResetCooldown(n) ==> HolderPhase(s, n) == Idle
  {
    OthersLeaveClaims(s, e, n);
    AgreementStep(s, e, n);
  }

  /** Seen from one container, a dispatch, the end of a scan or a reset is a step of its entry. */
  lemma ScanSeenFrom(s: State, e: Event, n: string) returns (marks: seq<Mark>)
    requires !e.Work? && Step(s, e).Some?
    ensures var t := Step(s, e).value;
      && t.history(n) == s.history(n) + marks && s.now <= t.now
      && (t.now > s.now ==> e.Tick? && marks == [])
      && match e
         case CheckDispatchWait | SetDispatchThreshold => DispatchStep(Lookup(s.cState, n), Lookup(t.cState, n), marks, s.now)
         case EndScan(problematic, starting) =>
           var troubled := Troubled(s.cState, problematic, starting, n);
           && Lookup(t.cState, n) == AfterScan(Lookup(s.cState, n), troubled, s.now)
           && marks == ScanMarks(Lookup(s.cState, n), troubled, s.now)
         case ResetCooldown(m) =>
           if m == n then Lookup(t.cState, n) == None && marks == [StateReset]
           else Lookup(t.cState, n) == Lookup(s.cState, n) && marks == []
         case _ => t.cState == s.cState && marks == []
  {
    match e
    case SetDispatchThreshold =>
      marks := if n == s.scanner.name then [ThresholdSet(s.scanner.required)] else [];
    case EndScan(problematic, starting) =>
      marks := ScanMarks(Lookup(s.cState, n), Troubled(s.cState, problematic, starting, n), s.now);
    case ResetCooldown(m) =>
      marks := if m == n then [StateReset] else [];
    case _ =>
      marks := [];
  }

  lemma SoundStep(s: State, e: Event, n: string)
    requires SoundAt(s, n) && Unforced(e, n) && Spares(s, e, n) && Step(s, e).Some?
    ensures SoundAt(Step(s, e).value, n)
  {
    AgreementStep(s, e, n);
    NotForcedStep(s, e, n);
    if e.Work? {
      SoundWork(s, e.w, e.choice, n);
    } else {
      var t := Step(s, e).value;
      var marks := ScanSeenFrom(s, e, n);
      HolderStays(s, e, n);
      var x, p, h := Lookup(s.cState, n), HolderPhase(s, n), s.history(n);
      assert h + [] == h;
      match e
      case CheckDispatchWait | SetDispatchThreshold => SoundDispatch(x, p, Lookup(t.cState, n), h, marks, s.now);
      case EndScan(problematic, starting) =>
        SoundScan(x, p, Troubled(s.cState, problematic, starting, n), h, s.now);
      case ResetCooldown(m) => if m == n { SoundReset(x, h, s.now); }
      case _ =>
    }
  }

  lemma SoundScan(e: Option<Entry>, p: Phase, troubled: bool, h: seq<Mark>, now: int)
    requires Sound(e, p, h, now)
    ensures Sound(AfterScan(e, troubled, now), p, h + ScanMarks(e, troubled, now), now)
  {
    EntryScan(e, troubled, h, now);
    AsideAll(h, ScanMarks(e, troubled, now));
    QuietScan(e, p, troubled, h, h + ScanMarks(e, troubled, now), now);
  }

  lemma RetriesStep(s: State, e: Event, n: string, r: int)
    requires SoundAt(s, n) && Unforced(e, n) && Spares(s, e, n) && Step(s, e).Some?
    requires Agreement(Step(s, e).value, n) && r >= 1 && WithinRetriesAt(s, n, r) && TakesWithin(e, n, r)
    ensures WithinRetriesAt(Step(s, e).value, n, r)
  {
    if e.Work? {
      RetriesWork(s, e.w, e.choice, n, r);
    } else {
      var t := Step(s, e).value;
      var marks := ScanSeenFrom(s, e, n);
      HolderStays(s, e, n);
      var x, p, h := Lookup(s.cState, n), HolderPhase(s, n), s.history(n);
      assert h + [] == h;
      match e
      case CheckDispatchWait | SetDispatchThreshold => RetriesDispatch(x, p, Lookup(t.cState, n), h, marks, s.now, r);
      case EndScan(problematic, starting) =>
        RetriesScan(x, p, Troubled(s.cState, problematic, starting, n), h, s.now, r);
      case ResetCooldown(m) => if m == n { RetriesReset(x, h, r); }
      case _ =>
    }
  }

  /** If the event hands out an action for the container, its retry limit lies in 1..`r`. */
  predicate TakesWithin(e: Event, n: string, r: int) {
    e.Work? && e.choice.Take? && e.choice.job.name == n ==> 1 <= RetryLimit(e.choice.job) <= r
  }

  // ---------- Runs ----------

  /** A possible run that never forces the container and never resets it while it is claimed. */
  ghost predicate Undisturbed(init: State, events: seq<Event>, n: string) {
    Init(init) && Exec(Step, init, events).Some? && Sparing(init, events, n) && NeverForced(events, n)
  }

  lemma UndisturbedBefore(init: State, events: seq<Event>, n: string)
    requires Undisturbed(init, events, n) && events != []
    ensures Undisturbed(init, Front(events), n)
    ensures Unforced(Last(events), n) && Spares(Exec(Step, init, Front(events)).value, Last(events), n)
  {
    assert forall i :: 0 <= i < |Front(events)| ==> Front(events)[i] == events[i];
  }

  lemma {:induction false} SoundAlways(init: State, events: seq<Event>, n: string)
    requires Undisturbed(init, events, n)
    ensures SoundAt(Exec(Step, init, events).value, n)
  {
    if events == [] {
      AgreementInit(init, n);
    } else {
      UndisturbedBefore(init, events, n);
      SoundAlways(init, Front(events), n);
      SoundStep(Exec(Step, init, Front(events)).value, Last(events), n);
    }
  }

  lemma {:induction false} RetriesAlways(init: State, events: seq<Event>, n: string, r: int)
    requires Undisturbed(init, events, n)
    requires r >= 1 && forall i :: 0 <= i < |events| ==> TakesWithin(events[i], n, r)
    ensures SoundAt(Exec(Step, init, events).value, n) && WithinRetriesAt(Exec(Step, init, events).value, n, r)
  {
    SoundAlways(init, events, n);
    if events != [] {
      UndisturbedBefore(init, events, n);
      assert forall i :: 0 <= i < |Front(events)| ==> Front(events)[i] == events[i];
      RetriesAlways(init, Front(events), n, r);
      RetriesStep(Exec(Step, init, Front(events)).value, Last(events), n, r);
    }
  }

  // ---------- Main results ----------

  /** Retry bound: if every retry limit handed out for a container lies in 1..`r`, then its cycle
      counter never exceeds `r`, and no stretch between two deletions of its entry has more than
      `r` starts, however workers and scans interleave. */
  lemma RetryBound(init: State, events: seq<Event>, n: string, r: int)
    requires Undisturbed(init, events, n)
    requires r >= 1 && forall i :: 0 <= i < |events| ==> TakesWithin(events[i], n, r)
    ensures var s := Exec(Step, init, events).value;
      && (n in s.cState ==> s.cState[n].cycle <= r)
      && (forall i: nat :: i <= |s.history(n)| ==> StartsSinceDeletion(s.history(n)[..i]) <= r)
  {
    RetriesAlways(init, events, n, r);
    var h := Exec(Step, init, events).value.history(n);
    forall i: nat | i <= |h| ensures StartsSinceDeletion(h[..i]) <= r {
      PrefixStartsWithin(h, r, i);
    }
  }

  /** The same by positions: between any two points of the history without a deletion of the entry
      in between, at most `r` actions start. */
  lemma RetryStretch(init: State, events: seq<Event>, n: string, r: int, from: nat, k: nat)
    requires Undisturbed(init, events, n)
    requires r >= 1 && forall i :: 0 <= i < |events| ==> TakesWithin(events[i], n, r)
    requires var h := Exec(Step, init, events).value.history(n); from <= k <= |h| && NoDeletion(h, from, k)
    ensures var h := Exec(Step, init, events).value.history(n); StartsIn(h[from..k]) <= r
  {
    RetryBound(init, events, n, r);
    var h := Exec(Step, init, events).value.history(n);
    assert h[..k][from..] == h[from..k] && forall x :: from <= x < k ==> h[..k][x] == h[x];
    StretchCounted(h[..k], from);
  }

  /** No action is at work on a container whose entry still has a wait to run. */
  lemma ActsOutsideWait(init: State, events: seq<Event>, n: string, w: nat)
    requires Undisturbed(init, events, n)
    ensures var s := Exec(Step, init, events).value;
      w < |s.workers| && s.workers[w].Acting() && s.workers[w].job.name == n && n in s.cState
        && s.cState[n].deadline.Some?
      ==> s.cState[n].deadline.value <= s.now
  {
    SoundAlways(init, events, n);
    var s := Exec(Step, init, events).value;
    if w < |s.workers| && s.workers[w].Acting() && s.workers[w].job.name == n {
      assert s.workers[w].HasClaim() && HolderPhase(s, n) == s.workers[w];
    }
  }

  /** Exhaustion is final until the state is reset: after it is logged no action on the container
      starts and nothing is logged again; while the flag is up no worker is between its check and
      its start. */
  lemma ExhaustionIsFinal(init: State, events: seq<Event>, n: string, i: nat, k: nat, w: nat)
    requires Undisturbed(init, events, n)
    ensures var h := Exec(Step, init, events).value.history(n);
      i < k < |h| && h[i].ExhaustionLogged? && NoResetBetween(h, i, k) ==>
        !h[k].ActionStarted? && !h[k].ExhaustionLogged?
    ensures var s := Exec(Step, init, events).value;
      w < |s.workers| && s.workers[w].Acting() && s.workers[w].job.name == n ==> !IsExhausted(s.cState, n)
  {
    SoundAlways(init, events, n);
    var s := Exec(Step, init, events).value;
    var h := s.history(n);
    if i < k < |h| && h[i].ExhaustionLogged? && NoResetBetween(h, i, k) {
      NothingPastExhaustion(h, i, k);
    }
    if w < |s.workers| && s.workers[w].Acting() && s.workers[w].job.name == n {
      assert s.workers[w].HasClaim() && HolderPhase(s, n) == s.workers[w];
    }
  }

  /** Post-action wait: no action starts on a container before the end of any wait set for it
      since its last reset, across all recoveries and scans in between. */
  lemma PostActionWait(init: State, events: seq<Event>, n: string, i: nat, k: nat)
    requires Undisturbed(init, events, n)
    requires var h := Exec(Step, init, events).value.history(n);
      i < k < |h| && h[i].WaitSet? && h[k].ActionStarted? && NoResetBetween(h, i, k)
    ensures var h := Exec(Step, init, events).value.history(n);
      h[i].until <= h[k].at
  {
    SoundAlways(init, events, n);
    NoStartInsideWait(Exec(Step, init, events).value.history(n), i, k);
  }

  /** Recovery gate: a container whose last action failed is declared recovered only at the
      end of a stretch of scans, at least as many as the threshold in force, that all counted
      it stable, with no failure, no problematic scan and no deletion in between; and the
      stored counter is that count. */
  lemma RecoveryGate(init: State, events: seq<Event>, n: string)
    requires Undisturbed(init, events, n)
    ensures var s := Exec(Step, init, events).value; var h := s.history(n);
      && (n in s.cState ==>
            s.cState[n].stableScans == StableRun(h) && s.cState[n].lastFailed == LastActionFailed(h))
      && (forall k: nat :: k < |h| && h[k].ContainerRecovered? && LastActionFailed(h[..k]) ==>
            exists from: nat :: from <= k && EarnedBy(h, from, k))
  {
    SoundAlways(init, events, n);
    var h := Exec(Step, init, events).value.history(n);
    forall k: nat | k < |h| && h[k].ContainerRecovered? && LastActionFailed(h[..k])
      ensures exists from: nat :: from <= k && EarnedBy(h, from, k)
    {
      var from := RecoveryNeedsStableScans(h, k);
    }
  }

  // ---------- Recovery comes ----------

  /** The end of a scan deletes an entry exactly if it is neither exhausted, in trouble, nor waiting,
      and its last action did not fail or enough scans have been stable; the history says which. */
  lemma ScanEnds(s: State, problematic: set<string>, starting: set<string>, n: string)
    requires s.scanner.Scanning?
    ensures Step(s, EndScan(problematic, starting)).Some?
    ensures var t := Step(s, EndScan(problematic, starting)).value;
      && t.scanner == Resting
      && (n !in s.cState ==> n !in t.cState && t.history(n) == s.history(n))
      && (n in s.cState ==>
            var e := s.cState[n];
            var troubled := n in problematic || (n in starting && e.cycle > 0);
            var judged := !e.exhausted && !troubled && (e.deadline.Some? ==> e.deadline.value <= s.now);
            var stable := e.stableScans + 1 >= if e.stableScansRequired > 0 then e.stableScansRequired else 3;
            && (n !in t.cState <==> judged && (e.lastFailed ==> stable))
            && t.history(n) == s.history(n)
                 + (if !e.exhausted && troubled then [ProblemScan] else [])
                 + (if judged && e.lastFailed then [StableScan] else [])
                 + (if n !in t.cState then [ContainerRecovered] else []))
  {
    FinalizedMeans(s.cState, problematic, starting, s.now, n);
  }

  /** What the end of a scan is given. */
  datatype Scan = Scan(problematic: set<string>, starting: set<string>, now: int)

  function AfterScans(s: States, scans: seq<Scan>): States {
    if scans == [] then s
    else Finalized(AfterScans(s, Front(scans)), Last(scans).problematic, Last(scans).starting, Last(scans).now)
  }

  /** The container is well, and its wait is over. */
  predicate Well(scan: Scan, n: string, e: Entry) {
    n !in scan.problematic && n !in scan.starting && (e.deadline.Some? ==> e.deadline.value <= scan.now)
  }

  /** The gate opens: over any number of scans in a row that find a container well, its entry is
      deleted exactly when as many as required have been stable, or at once if its last action did
      not fail; and it stays deleted. */
  lemma {:induction false} RecoversExactlyAfter(s: States, scans: seq<Scan>, n: string)
    requires n in s && !s[n].exhausted && forall i :: 0 <= i < |scans| ==> Well(scans[i], n, s[n])
    ensures var required := if s[n].stableScansRequired > 0 then s[n].stableScansRequired else 3;
      n in AfterScans(s, scans) <==> scans == [] || (s[n].lastFailed && s[n].stableScans + |scans| < required)
    ensures n in AfterScans(s, scans) ==> AfterScans(s, scans)[n] == s[n].(stableScans := s[n].stableScans + |scans|)
  {
    if scans != [] {
      RecoversExactlyAfter(s, Front(scans), n);
      var l := Last(scans);
      assert Well(scans[|scans| - 1], n, s[n]);
      FinalizedMeans(AfterScans(s, Front(scans)), l.problematic, l.starting, l.now, n);
    }
  }
}
