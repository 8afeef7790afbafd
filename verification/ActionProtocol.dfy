/** The action protocol as a transition system: any number of workers running
    `actionJob.Run` (cmd/server/action.go), one scanner (`scanOnce` in
    cmd/server/monitor.go), a clock, and outside changes, interleaved in every order.

    Each step is one locked section of the source.  Every container has a history of what
    happened to it, kept only to state properties: no step reads it. */
module ActionProtocol {
  import opened Common
  import opened ContainerState
  import opened Jobs
  import opened Pause
  import opened Schedule
  import opened Transitions

  datatype ActionJob = ActionJob(
    name: string,
    jobID: string,
    force: bool,
    retryCount: int,
    postActionWait: int)

  /** `resolveJobSettings`: an action without a job gets a single attempt; 0 is no limit. */
  function RetryLimit(j: ActionJob): int {
    if j.jobID == "" then 1 else j.retryCount
  }

  datatype Mark =
    | ActionStarted(at: int)
    | ActionSucceeded
    | ActionFailed
    | WaitSet(until: int)
    | ExhaustionLogged
    | ThresholdSet(required: int)
    | ProblemScan
    | StableScan
    | ContainerRecovered
    | StateReset

  /** Where a worker is inside `Run`. */
  datatype Phase =
    | Idle
    | Entered(job: ActionJob)
    | Claimed(job: ActionJob)
    | Registered(job: ActionJob, ctx: nat)
    | PastExhausted(job: ActionJob, ctx: nat)
    | PastWait(job: ActionJob, ctx: nat)
    | PastMaintenance(job: ActionJob, ctx: nat)
    | Executing(job: ActionJob, ctx: nat, cycle: nat)
    | Succeeded(job: ActionJob, ctx: nat, cycle: nat)
    | Recording(job: ActionJob, ctx: nat, cycle: nat, failed: bool)
    | Recorded(job: ActionJob, ctx: nat, cycle: nat)
    | ExhaustionSet(job: ActionJob, ctx: nat)
    | Leaving(job: ActionJob, ctx: nat)
    | Unregistering(job: ActionJob, ctx: nat)
    | Releasing(job: ActionJob)
  {
    /** Between claim and release; a forced action makes no claim. */
    predicate HasClaim() {
      !Idle? && !Entered? && !job.force
    }

    /** Between registering and unregistering the cancel function. */
    predicate HasRegistration() {
      HasClaim() && !Claimed? && !Releasing?
    }

    /** Past every check, up to the end of the action. */
    predicate Acting() {
      PastMaintenance? || Executing?
    }
  }

  /** Forced actions run in the background context, which nothing cancels. */
  const BACKGROUND: nat := 0

  datatype Scanner =
    | Resting
    | Snapshotted(pause: Snapshot, jobsSeen: seq<Job>)
    | Cancelling(pause: Snapshot, jobsSeen: seq<Job>)
    | Firing(pause: Snapshot, todo: set<nat>)
    | Scanning
    | CheckingWait(name: string, required: int)
    | SettingThreshold(name: string, required: int)

  /** `holder` and `passes` are kept only to state properties: who made a claim, and how many
      force-cancel passes have run to their end. */
  datatype State = State(
    now: int,
    windows: seq<Window>,
    jobs: seq<Job>,
    cState: States,
    activeJobs: set<string>,
    cancels: map<string, Registration>,
    cancelled: set<nat>,
    nextCtx: nat,
    activeIDs: set<string>,
    scanner: Scanner,
    passes: nat,
    workers: seq<Phase>,
    holder: map<string, nat>,
    history: string -> seq<Mark>)

  datatype Choice = Take(job: ActionJob) | Go | Succeed | Fail

  datatype Event =
    | Work(w: nat, choice: Choice)
    | BeginScan(pause: Snapshot)
    | DetectEdges
    | CollectCancels
    | Fire(ctx: nat)
    | EndFiring
    | Dispatch(name: string, stableScansRequired: int)
    | CheckDispatchWait
    | SetDispatchThreshold
    | EndScan(problematic: set<string>, starting: set<string>)
    | Tick(to: int)
    | SetWindows(windows: seq<Window>)
    | SetJobs(jobs: seq<Job>)
    | ResetCooldown(name: string)

  // ---------- Worker steps ----------

  datatype Change = Keep | Add | Drop

  /** What one step of a worker does: where it goes next, and what it changes for its own
      container. */
  datatype Effect = Effect(
    next: Phase,
    cState: States,
    claim: Change,
    registration: Change,
    cancelled: set<nat>,
    marks: seq<Mark>)

  /** One step of `Run`, given what the step reads.  `governed` is the behaviour of the windows
      that pause the job now; which way the action itself goes is a free choice. */
  function WorkEffect(p: Phase, choice: Choice, cs: States, claimed: bool, governed: Option<OnStart>,
                      now: int, nextCtx: nat): Option<Effect>
  {
    match (p, choice)
    case (Idle, Take(j)) => Some(Effect(Entered(j), cs, Keep, Keep, {}, []))
    case (Entered(j), Go) =>
      if j.force then
        Some(Effect(PastMaintenance(j, BACKGROUND), cs - {j.name}, Drop, Keep, {}, [StateReset]))
      else if claimed then Some(Effect(Idle, cs, Keep, Keep, {}, []))
      else Some(Effect(Claimed(j), cs, Add, Keep, {}, []))
    case (Claimed(j), Go) => Some(Effect(Registered(j, nextCtx), cs, Keep, Add, {}, []))
    case (Registered(j, c), Go) =>
      Some(Effect(if IsExhausted(cs, j.name) then Leaving(j, c) else PastExhausted(j, c), cs, Keep, Keep, {}, []))
    case (PastExhausted(j, c), Go) =>
      Some(Effect(if WaitRemaining(cs, j.name, now) > 0 then Leaving(j, c) else PastWait(j, c),
                  WithWaitChecked(cs, j.name, now), Keep, Keep, {}, []))
    case (PastWait(j, c), Go) =>
      Some(Effect(if governed.Some? then Leaving(j, c) else PastMaintenance(j, c), cs, Keep, Keep, {}, []))
    case (PastMaintenance(j, c), Go) =>
      Some(Effect(Executing(j, c, Ensured(cs, j.name).cycle + 1), WithCycleIncremented(cs, j.name),
                  Keep, Keep, {}, [ActionStarted(now)]))
    case (Executing(j, c, k), Succeed) => Some(Effect(Succeeded(j, c, k), cs, Keep, Keep, {}, []))
    case (Executing(j, c, k), Fail) =>
      Some(Effect(if j.force then Idle else Recording(j, c, k, true), cs, Keep, Keep, {}, []))
    case (Succeeded(j, c, k), Go) =>
      if j.postActionWait > 0 then
        Some(Effect(Recording(j, c, k, false), WithDeadline(cs, j.name, now + j.postActionWait),
                    Keep, Keep, {}, [WaitSet(now + j.postActionWait)]))
      else Some(Effect(Recording(j, c, k, false), cs, Keep, Keep, {}, []))
    case (Recording(j, c, k, failed), Go) =>
      Some(Effect(Recorded(j, c, k), WithLastFailed(cs, j.name, failed),
                  Keep, Keep, {}, [if failed then ActionFailed else ActionSucceeded]))
    case (Recorded(j, c, k), Go) =>
      if j.force then Some(Effect(Idle, cs - {j.name}, Drop, Keep, {}, [StateReset]))
      else if 0 < RetryLimit(j) <= k then
        Some(Effect(ExhaustionSet(j, c), WithExhausted(cs, j.name, true), Keep, Keep, {}, []))
      else Some(Effect(Leaving(j, c), cs, Keep, Keep, {}, []))
    case (ExhaustionSet(j, c), Go) => Some(Effect(Leaving(j, c), cs, Keep, Keep, {}, [ExhaustionLogged]))
    case (Leaving(j, c), Go) => Some(Effect(Unregistering(j, c), cs, Keep, Keep, {c}, []))
    case (Unregistering(j, c), Go) => Some(Effect(Releasing(j), cs, Keep, Drop, {}, []))
    case (Releasing(j), Go) => Some(Effect(Idle, cs, Drop, Keep, {}, []))
    case _ => None
  }

  ghost function Noted(h: string -> seq<Mark>, n: string, marks: seq<Mark>): string -> seq<Mark> {
    (x: string) => if x == n then h(x) + marks else h(x)
  }

  ghost function Apply(s: State, w: nat, n: string, f: Effect): State
    requires w < |s.workers|
  {
    s.(workers := s.workers[w := f.next],
       cState := f.cState,
       activeJobs := match f.claim case Keep => s.activeJobs case Add => s.activeJobs + {n} case Drop => s.activeJobs - {n},
       holder := match f.claim case Keep => s.holder case Add => s.holder[n := w] case Drop => s.holder - {n},
       cancels := match f.registration
         case Keep => s.cancels
         case Add => if f.next.Registered? then s.cancels[n := Registration(f.next.job.jobID, s.nextCtx)] else s.cancels
         case Drop => s.cancels - {n},
       nextCtx := if f.registration.Add? then s.nextCtx + 1 else s.nextCtx,
       cancelled := s.cancelled + f.cancelled,
       history := Noted(s.history, n, f.marks))
  }

  function NameOf(p: Phase): string {
    if p.Idle? then "" else p.job.name
  }

  function JobIDOf(p: Phase): string {
    if p.Idle? then "" else p.job.jobID
  }

  ghost function EffectOf(s: State, w: nat, choice: Choice): Option<Effect>
    requires w < |s.workers|
  {
    var p := s.workers[w];
    WorkEffect(p, choice, s.cState, NameOf(p) in s.activeJobs,
               OnStartAt(s.windows, s.jobs, s.now, JobIDOf(p)), s.now, s.nextCtx)
  }

  ghost function WorkStep(s: State, w: nat, choice: Choice): Option<State>
    requires w < |s.workers|
  {
    var f := EffectOf(s, w, choice);
    if f.None? then None else Some(Apply(s, w, NameOf(s.workers[w]), f.value))
  }

  ghost function Reset(s: State, n: string): State {
    s.(cState := s.cState - {n}, activeJobs := s.activeJobs - {n}, holder := s.holder - {n},
       history := Noted(s.history, n, [StateReset]))
  }

  // ---------- Scanner steps ----------

  /** Some force-cancel window has become active since the scan before. */
  ghost predicate ForceCancelStarted(active: seq<Window>, previous: set<string>) {
    exists w: Window :: OpensWithForce(w, ByID(active), previous)
  }

  function AfterCancelling(p: Snapshot): Scanner {
    if p.skipEntireScan then Resting else Scanning
  }

  /** What the end of a scan adds to the history of one container. */
  function ScanMarks(e: Option<Entry>, troubled: bool, now: int): seq<Mark> {
    if e.None? || e.value.exhausted then []
    else if troubled then [ProblemScan]
    else if InWait(e.value, now) then []
    else if e.value.lastFailed then
      [StableScan] + if Judge(e.value, troubled, now).Recovered? then [ContainerRecovered] else []
    else [ContainerRecovered]
  }

  ghost function ScanStep(s: State, e: Event): Option<State>
  {
    match e
    case BeginScan(p) =>
      if s.scanner.Resting? && p.active == ActiveOnes(s.windows, s.now) && IsJoin(p, p.active, s.jobs)
      then Some(s.(scanner := Snapshotted(p, s.jobs))) else None
    case DetectEdges =>
      if s.scanner.Snapshotted? then
        var p := s.scanner.pause;
        var next := if ForceCancelStarted(p.active, s.activeIDs) then Cancelling(p, s.scanner.jobsSeen) else AfterCancelling(p);
        Some(s.(activeIDs := ByID(p.active).Keys, scanner := next))
      else None
    case CollectCancels =>
      if s.scanner.Cancelling?
      then Some(s.(scanner := Firing(s.scanner.pause, GovernedContexts(s.cancels, s.scanner.pause)))) else None
    case Fire(ctx) =>
      if s.scanner.Firing? && ctx in s.scanner.todo
      then Some(s.(cancelled := s.cancelled + {ctx}, scanner := s.scanner.(todo := s.scanner.todo - {ctx}))) else None
    case EndFiring =>
      if s.scanner.Firing? && s.scanner.todo == {}
      then Some(s.(scanner := AfterCancelling(s.scanner.pause), passes := s.passes + 1)) else None
    case Dispatch(n, required) =>
      if !s.scanner.Scanning? then None
      else if IsExhausted(s.cState, n) then Some(s)
      else Some(s.(scanner := CheckingWait(n, required)))
    case CheckDispatchWait =>
      if s.scanner.CheckingWait? then
        var n, required := s.scanner.name, s.scanner.required;
        var go := WaitRemaining(s.cState, n, s.now) == 0 && required > 0;
        Some(s.(cState := WithWaitChecked(s.cState, n, s.now),
                scanner := if go then SettingThreshold(n, required) else Scanning))
      else None
    case SetDispatchThreshold =>
      if s.scanner.SettingThreshold? then
        var n, required := s.scanner.name, s.scanner.required;
        Some(s.(cState := WithStableScansRequired(s.cState, n, required),
                history := Noted(s.history, n, [ThresholdSet(required)]),
                scanner := Scanning))
      else None
    case EndScan(problematic, starting) =>
      if s.scanner.Scanning? then
        Some(s.(
          scanner := Resting,
          cState := Finalized(s.cState, problematic, starting, s.now),
          history := (n: string) => s.history(n)
            + ScanMarks(Lookup(s.cState, n), Troubled(s.cState, problematic, starting, n), s.now)))
      else None
    case _ => None
  }

  ghost function OutsideStep(s: State, e: Event): Option<State>
  {
    match e
    case Tick(to) => if s.now <= to then Some(s.(now := to)) else None
    case SetWindows(ws) => Some(s.(windows := ws))
    case SetJobs(js) => Some(s.(jobs := js))
    case ResetCooldown(n) => Some(Reset(s, n))
    case _ => None
  }

  ghost function Step(s: State, e: Event): Option<State>
  {
    match e
    case Work(w, choice) => if w < |s.workers| then WorkStep(s, w, choice) else None
    case Tick(_) | SetWindows(_) | SetJobs(_) | ResetCooldown(_) => OutsideStep(s, e)
    case _ => ScanStep(s, e)
  }

  // ---------- Runs ----------

  ghost predicate Init(s: State) {
    && s.now >= 0
    && s.cState == map[] && s.activeJobs == {} && s.cancels == map[] && s.cancelled == {}
    && s.nextCtx == 1 && s.activeIDs == {} && s.scanner == Resting && s.passes == 0
    && (forall w: nat :: w < |s.workers| ==> s.workers[w] == Idle)
    && s.holder == map[]
    && (forall n: string :: s.history(n) == [])
  }

  // ---------- Runs that spare a container ----------

  /** The event resets the cooldown of the container: on request, or as a forced action begins or
      has succeeded. */
  ghost predicate Resets(s: State, e: Event, n: string) {
    || e == ResetCooldown(n)
    || (e.Work? && e.choice.Go? && e.w < |s.workers| && ForcedReset(s.workers[e.w], n))
  }

  predicate ForcedReset(p: Phase, n: string) {
    (p.Entered? || p.Recorded?) && p.job.force && p.job.name == n
  }

  /** The event does not take a claim on the container away from its holder. */
  ghost predicate Spares(s: State, e: Event, n: string) {
    Resets(s, e, n) ==> n !in s.activeJobs
  }

  /** The run is possible, and whenever it resets the container's cooldown the container is not
      claimed.  Other containers may be forced and reset at any time. */
  ghost predicate Sparing(s: State, events: seq<Event>, n: string) {
    events != [] ==>
      && Sparing(s, Front(events), n)
      && Exec(Step, s, Front(events)).Some?
      && Spares(Exec(Step, s, Front(events)).value, Last(events), n)
  }

  /** The event does not hand out a forced action on the container. */
  predicate Unforced(e: Event, n: string) {
    e.Work? && e.choice.Take? && e.choice.job.name == n ==> !e.choice.job.force
  }

  predicate NeverForced(events: seq<Event>, n: string) {
    forall i :: 0 <= i < |events| ==> Unforced(events[i], n)
  }
}
