/** Per-container action state (cmd/server/state.go), the pass that ends a scan
    (`finalizeState` in cmd/server/monitor.go) and the force-cancel pass
    (cmd/server/maintenance.go).

    The functions give the effect of each locked section on the state it touches; the class
    `App` holds the fields the sections update in place. */
module ContainerState {
  import opened Common
  import opened Pause
  import opened Schedule

  /** `deadline` has no value where the source has the zero time. */
  datatype Entry = Entry(
    cycle: nat,
    exhausted: bool,
    deadline: Option<int>,
    lastFailed: bool,
    stableScans: nat,
    stableScansRequired: int)

  const FRESH := Entry(0, false, None, false, 0, 0)

  type States = map<string, Entry>

  /** The job a running action belongs to, and the context its cancel function cancels. */
  datatype Registration = Registration(jobID: string, ctx: nat)

  function Ensured(s: States, n: string): Entry {
    if n in s then s[n] else FRESH
  }

  function Lookup(s: States, n: string): Option<Entry> {
    if n in s then Some(s[n]) else None
  }

  function WithCycleIncremented(s: States, n: string): States {
    s[n := Ensured(s, n).(cycle := Ensured(s, n).cycle + 1)]
  }

  function WithExhausted(s: States, n: string, v: bool): States {
    s[n := Ensured(s, n).(exhausted := v)]
  }

  function WithLastFailed(s: States, n: string, failed: bool): States {
    var e := Ensured(s, n);
    s[n := e.(lastFailed := failed, stableScans := if failed then 0 else e.stableScans)]
  }

  function WithDeadline(s: States, n: string, deadline: int): States {
    s[n := Ensured(s, n).(deadline := Some(deadline))]
  }

  function WithStableScansRequired(s: States, n: string, required: int): States {
    s[n := Ensured(s, n).(stableScansRequired := required)]
  }

  predicate IsExhausted(s: States, n: string) {
    n in s && s[n].exhausted
  }

  function WaitRemaining(s: States, n: string, now: int): (r: int)
    ensures r >= 0
  {
    if n in s && s[n].deadline.Some? && s[n].deadline.value > now then s[n].deadline.value - now else 0
  }

  /** Asking about a wait that is over forgets it. */
  function WithWaitChecked(s: States, n: string, now: int): States {
    if n in s && s[n].deadline.Some? && s[n].deadline.value <= now
    then s[n := s[n].(deadline := None)]
    else s
  }

  const DEFAULT_STABLE_SCANS_REQUIRED := 3

  function Required(e: Entry): int {
    if e.stableScansRequired <= 0 then DEFAULT_STABLE_SCANS_REQUIRED else e.stableScansRequired
  }

  datatype Verdict = Kept(entry: Entry) | Recovered

  predicate InWait(e: Entry, now: int) {
    e.deadline.Some? && e.deadline.value > now
  }

  /** What the end of a scan does to one container. */
  function Judge(e: Entry, problematic: bool, now: int): Verdict {
    if e.exhausted then Kept(e)
    else if problematic then Kept(e.(stableScans := 0))
    else if InWait(e, now) then Kept(e)
    else if e.lastFailed && e.stableScans + 1 < Required(e) then Kept(e.(stableScans := e.stableScans + 1))
    else Recovered
  }

  /** A container that is still starting counts as problematic while it is in a cycle. */
  predicate Troubled(s: States, problematic: set<string>, starting: set<string>, n: string) {
    n in problematic || (n in starting && n in s && s[n].cycle > 0)
  }

  function Finalized(s: States, problematic: set<string>, starting: set<string>, now: int): States {
    map n | n in s && Judge(s[n], Troubled(s, problematic, starting, n), now).Kept? ::
      Judge(s[n], Troubled(s, problematic, starting, n), now).entry
  }

  /** What the end of a scan does to a container, by the fields of its entry.  A container is in
      trouble if it is reported problematic, or is still starting after at least one attempt. */
  lemma FinalizedMeans(s: States, problematic: set<string>, starting: set<string>, now: int, n: string)
    ensures var t := Finalized(s, problematic, starting, now);
      if n !in s then n !in t
      else if s[n].exhausted then n in t && t[n] == s[n]
      else if n in problematic || (n in starting && s[n].cycle > 0) then
        n in t && t[n] == s[n].(stableScans := 0)
      else if s[n].deadline.Some? && s[n].deadline.value > now then n in t && t[n] == s[n]
      else if s[n].lastFailed && s[n].stableScans + 1 < (if s[n].stableScansRequired > 0 then s[n].stableScansRequired else 3)
      then n in t && t[n] == s[n].(stableScans := s[n].stableScans + 1)
      else n !in t
  {}

  /** The containers with registered actions that a snapshot wants force-cancelled. */
  function GovernedNames(cancels: map<string, Registration>, p: Snapshot): (names: set<string>)
    ensures names <= cancels.Keys
  {
    set n | n in cancels && p.OnStartFor(cancels[n].jobID) == Some(ForceCancel)
  }

  function ContextsOf(cancels: map<string, Registration>, names: set<string>): set<nat>
    requires names <= cancels.Keys
  {
    set n | n in names :: cancels[n].ctx
  }

  /** The contexts of the names, one for each. */
  ghost predicate Listed(cancels: map<string, Registration>, names: set<string>, contexts: seq<nat>) {
    names <= cancels.Keys && |contexts| == |names| && forall c :: c in contexts <==> c in ContextsOf(cancels, names)
  }

  lemma ListedNext(cancels: map<string, Registration>, names: set<string>, contexts: seq<nat>, n: string)
    requires Listed(cancels, names, contexts) && n in cancels && n !in names
    ensures Listed(cancels, names + {n}, contexts + [cancels[n].ctx])
  {
    assert ContextsOf(cancels, names + {n}) == ContextsOf(cancels, names) + {cancels[n].ctx};
  }

  /** And their contexts. */
  function GovernedContexts(cancels: map<string, Registration>, p: Snapshot): set<nat> {
    ContextsOf(cancels, GovernedNames(cancels, p))
  }

  ghost predicate OthersKept(before: States, after: States, n: string) {
    forall m: string :: m != n ==> (m in after <==> m in before) && (m in before ==> after[m] == before[m])
  }

  lemma GovernedMeans(cancels: map<string, Registration>, p: Snapshot)
    ensures GovernedNames(cancels, p) == set n | n in cancels && p.OnStartFor(cancels[n].jobID) == Some(ForceCancel)
    ensures forall c: nat :: c in GovernedContexts(cancels, p) <==>
      exists n: string :: n in cancels && cancels[n].ctx == c && p.OnStartFor(cancels[n].jobID) == Some(ForceCancel)
  {}

  class App {
    var cState: States
    var activeJobs: set<string>
    var activeJobCancels: map<string, Registration>
    var cancelledContexts: set<nat>

    constructor ()
      ensures cState == map[] && activeJobs == {} && activeJobCancels == map[] && cancelledContexts == {}
    {
      cState, activeJobs, activeJobCancels, cancelledContexts := map[], {}, map[], {};
    }

    method EnsureContainerState(n: string)
      modifies this`cState
      ensures cState == old(cState)[n := Ensured(old(cState), n)]
    {
      if n !in cState { cState := cState[n := FRESH]; }
    }

    method IncrementActionCycle(n: string) returns (cycle: nat)
      modifies this`cState
      ensures cState == WithCycleIncremented(old(cState), n) && cycle == cState[n].cycle
      ensures cycle == Ensured(old(cState), n).cycle + 1
    {
      EnsureContainerState(n);
      cState := cState[n := cState[n].(cycle := cState[n].cycle + 1)];
      cycle := cState[n].cycle;
    }

    method IsRetriesExhausted(n: string) returns (b: bool)
      ensures b <==> IsExhausted(cState, n)
      ensures b <==> n in cState && cState[n].exhausted
    {
      b := n in cState && cState[n].exhausted;
    }

    method SetRetriesExhausted(n: string, v: bool)
      modifies this`cState
      ensures cState == WithExhausted(old(cState), n, v)
      ensures n in cState && cState[n].exhausted == v && OthersKept(old(cState), cState, n)
    {
      EnsureContainerState(n);
      cState := cState[n := cState[n].(exhausted := v)];
    }

    /** Succeeds for exactly one of two claims without a release in between. */
    method ClaimActiveJob(n: string) returns (claimed: bool)
      modifies this`activeJobs
      ensures claimed <==> n !in old(activeJobs)
      ensures activeJobs == old(activeJobs) + {n}
    {
      if n in activeJobs { return false; }
      activeJobs := activeJobs + {n};
      claimed := true;
    }

    method ReleaseActiveJob(n: string)
      modifies this`activeJobs
      ensures activeJobs == old(activeJobs) - {n}
    {
      activeJobs := activeJobs - {n};
    }

    method RegisterActiveJobCancel(n: string, jobID: string, ctx: nat)
      modifies this`activeJobCancels
      ensures activeJobCancels == old(activeJobCancels)[n := Registration(jobID, ctx)]
    {
      activeJobCancels := activeJobCancels[n := Registration(jobID, ctx)];
    }

    method UnregisterActiveJobCancel(n: string)
      modifies this`activeJobCancels
      ensures activeJobCancels == old(activeJobCancels) - {n}
    {
      activeJobCancels := activeJobCancels - {n};
    }

    method SetLastActionFailed(n: string, failed: bool)
      modifies this`cState
      ensures cState == WithLastFailed(old(cState), n, failed)
      ensures n in cState && cState[n].lastFailed == failed && (failed ==> cState[n].stableScans == 0)
      ensures OthersKept(old(cState), cState, n)
    {
      EnsureContainerState(n);
      cState := cState[n := cState[n].(lastFailed := failed)];
      if failed { cState := cState[n := cState[n].(stableScans := 0)]; }
    }

    method SetPostActionDeadline(n: string, deadline: int)
      modifies this`cState
      ensures cState == WithDeadline(old(cState), n, deadline)
      ensures n in cState && cState[n].deadline == Some(deadline) && OthersKept(old(cState), cState, n)
    {
      EnsureContainerState(n);
      cState := cState[n := cState[n].(deadline := Some(deadline))];
    }

    method PostActionWaitRemaining(n: string, now: int) returns (remaining: int)
      modifies this`cState
      ensures remaining == WaitRemaining(old(cState), n, now)
      ensures remaining > 0 <==> n in cState && cState[n].deadline.Some? && now < cState[n].deadline.value
      ensures remaining > 0 ==> remaining == cState[n].deadline.value - now && cState == old(cState)
      ensures remaining == 0 && n in cState ==> cState[n].deadline == None
      ensures cState == WithWaitChecked(old(cState), n, now)
    {
      if n !in cState || cState[n].deadline.None? { return 0; }
      remaining := cState[n].deadline.value - now;
      if remaining <= 0 {
        cState := cState[n := cState[n].(deadline := None)];
        remaining := 0;
      }
    }

    /** Deletes the entry and the claim, even while the holder of the claim is running. */
    method ResetActionCooldown(n: string)
      modifies this`cState, this`activeJobs
      ensures cState == old(cState) - {n} && activeJobs == old(activeJobs) - {n}
    {
      cState := cState - {n};
      activeJobs := activeJobs - {n};
    }

    method SetStableScansRequired(n: string, required: int)
      modifies this`cState
      ensures cState == WithStableScansRequired(old(cState), n, required)
      ensures n in cState && cState[n].stableScansRequired == required && OthersKept(old(cState), cState, n)
    {
      EnsureContainerState(n);
      cState := cState[n := cState[n].(stableScansRequired := required)];
    }

    /** The end of a scan, entry by entry in whatever order the map yields them. */
    method FinalizeState(problematic: set<string>, starting: set<string>, now: int)
      returns (justRecovered: seq<string>)
      modifies this`cState
      ensures cState == Finalized(old(cState), problematic, starting, now)
      ensures forall n: string :: n in old(cState) ==>
        var e := old(cState)[n];
        if e.exhausted then n in cState && cState[n] == e
        else if n in problematic || (n in starting && e.cycle > 0) then n in cState && cState[n] == e.(stableScans := 0)
        else if e.deadline.Some? && e.deadline.value > now then n in cState && cState[n] == e
        else if e.lastFailed && e.stableScans + 1 < (if e.stableScansRequired > 0 then e.stableScansRequired else 3)
        then n in cState && cState[n] == e.(stableScans := e.stableScans + 1)
        else n !in cState
      ensures cState.Keys <= old(cState).Keys
      ensures forall n: string :: n in justRecovered <==> n in old(cState) && n !in cState
      ensures forall i, j :: 0 <= i < j < |justRecovered| ==> justRecovered[i] != justRecovered[j]
    {
      var troubled := problematic + set n | n in starting && n in cState && cState[n].cycle > 0;
      ghost var before := cState;
      var todo := cState.Keys;
      justRecovered := [];
      while todo != {}
        invariant todo <= before.Keys && cState.Keys <= before.Keys
        invariant forall n: string :: n in todo ==> n in cState && cState[n] == before[n]
        invariant forall n: string :: n in before && n !in todo ==>
          match Judge(before[n], n in troubled, now)
          case Kept(e) => n in cState && cState[n] == e
          case Recovered => n !in cState
        invariant forall n: string :: n in justRecovered <==> n in before && n !in cState
        invariant forall i, j :: 0 <= i < j < |justRecovered| ==> justRecovered[i] != justRecovered[j]
        decreases todo
      {
        var n :| n in todo;
        todo := todo - {n};
        var e := cState[n];
        if e.exhausted { continue; }
        if n in troubled {
          cState := cState[n := e.(stableScans := 0)];
          continue;
        }
        if e.deadline.Some? && e.deadline.value > now { continue; }
        if e.lastFailed {
          var required := e.stableScansRequired;
          if required <= 0 { required := DEFAULT_STABLE_SCANS_REQUIRED; }
          cState := cState[n := e.(stableScans := e.stableScans + 1)];
          if cState[n].stableScans < required { continue; }
        }
        justRecovered := justRecovered + [n];
        cState := cState - {n};
      }
      assert forall n: string :: n in before ==> (n in troubled <==> Troubled(before, problematic, starting, n));
      assert cState == Finalized(before, problematic, starting, now);
      forall n: string { FinalizedMeans(before, problematic, starting, now, n); }
    }

    /** Collects the governed cancel functions in one locked section and then calls them. */
    method CancelForceCancelledJobs(p: Snapshot) returns (count: nat)
      modifies this`cancelledContexts
      ensures cancelledContexts == old(cancelledContexts) + GovernedContexts(activeJobCancels, p)
      ensures forall c: nat :: c in cancelledContexts <==>
        c in old(cancelledContexts)
        || exists n: string :: n in activeJobCancels && activeJobCancels[n].ctx == c
             && p.OnStartFor(activeJobCancels[n].jobID) == Some(ForceCancel)
      ensures count == |set n | n in activeJobCancels && p.OnStartFor(activeJobCancels[n].jobID) == Some(ForceCancel)|
    {
      var cancels := CollectGoverned(p);
      for i := 0 to |cancels|
        invariant cancelledContexts == old(cancelledContexts) + (set c | c in cancels[..i])
      {
        assert forall c :: c in cancels[..i + 1] <==> c in cancels[..i] || c == cancels[i];
        cancelledContexts := cancelledContexts + {cancels[i]};
      }
      assert cancels[..|cancels|] == cancels;
      assert (set c | c in cancels) == GovernedContexts(activeJobCancels, p);
      count := |cancels|;
      GovernedMeans(activeJobCancels, p);
    }

    method CollectGoverned(p: Snapshot) returns (cancels: seq<nat>)
      ensures forall c :: c in cancels <==> c in GovernedContexts(activeJobCancels, p)
      ensures |cancels| == |GovernedNames(activeJobCancels, p)|
    {
      cancels := [];
      var regs := activeJobCancels;
      ghost var all, governed: set<string> := GovernedNames(regs, p), {};
      var todo := regs.Keys;
      while todo != {}
        invariant todo <= regs.Keys && governed == all - todo
        invariant Listed(regs, governed, cancels)
        decreases todo
      {
        var n :| n in todo;
        todo := todo - {n};
        if p.OnStartFor(regs[n].jobID) == Some(ForceCancel) {
          ListedNext(regs, governed, cancels, n);
          cancels := cancels + [regs[n].ctx];
          governed := governed + {n};
        }
      }
      assert governed == all;
    }
  }
}
