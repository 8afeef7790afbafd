/** The worker pool (internal/worker/pool.go): a bounded channel drained by a fixed number of
    workers, as a transition system. */
module Pool {
  import opened Common

  /** A queued action, told apart by the order in which it was made. */
  datatype Job = Job(number: nat)

  datatype Worker = Waiting | Running(job: Job) | Stopped

  /** `accepted` and `started` list the jobs in the order in which the channel took them and
      handed them out; `finished` has those whose `Run` has returned. */
  datatype State = State(
    size: nat,
    queue: seq<Job>,
    closed: bool,
    workers: seq<Worker>,
    accepted: seq<Job>,
    started: seq<Job>,
    finished: seq<Job>)

  /** A send blocks on a full channel; on an unbuffered one, or whenever the queue is empty, it
      can meet a waiting worker directly. */
  datatype Event =
    | Enqueue(job: Job)
    | Handoff(job: Job, w: nat)
    | Take(w: nat)
    | Finish(w: nat)
    | Close
    | Exit(w: nat)

  function Init(workerCount: nat, queueSize: nat): State {
    State(queueSize, [], false, seq(workerCount, _ => Waiting), [], [], [])
  }

  /** Sending on a closed channel panics and is not a step. */
  function Step(s: State, e: Event): Option<State> {
    match e
    case Enqueue(j) =>
      if !s.closed && |s.queue| < s.size
      then Some(s.(queue := s.queue + [j], accepted := s.accepted + [j])) else None
    case Handoff(j, w) =>
      if !s.closed && s.queue == [] && w < |s.workers| && s.workers[w].Waiting?
      then Some(s.(workers := s.workers[w := Running(j)], accepted := s.accepted + [j], started := s.started + [j]))
      else None
    case Take(w) =>
      if s.queue != [] && w < |s.workers| && s.workers[w].Waiting?
      then Some(s.(workers := s.workers[w := Running(s.queue[0])], queue := s.queue[1..],
                   started := s.started + [s.queue[0]]))
      else None
    case Finish(w) =>
      if w < |s.workers| && s.workers[w].Running?
      then Some(s.(workers := s.workers[w := Waiting], finished := s.finished + [s.workers[w].job]))
      else None
    case Close => if !s.closed then Some(s.(closed := true)) else None
    case Exit(w) =>
      if s.closed && s.queue == [] && w < |s.workers| && s.workers[w].Waiting?
      then Some(s.(workers := s.workers[w := Stopped])) else None
  }

  function Held(w: Worker, j: Job): nat {
    if w == Running(j) then 1 else 0
  }

  /** How many workers are running `j`. */
  function InHand(workers: seq<Worker>, j: Job): nat {
    if workers == [] then 0
    else InHand(Front(workers), j) + Held(Last(workers), j)
  }

  lemma {:induction false} InHandUpdate(workers: seq<Worker>, w: nat, x: Worker, j: Job)
    requires w < |workers|
    ensures InHand(workers[w := x], j) + Held(workers[w], j) == InHand(workers, j) + Held(x, j)
  {
    var n := |workers| - 1;
    if w < n {
      assert workers[w := x][..n] == workers[..n][w := x];
      InHandUpdate(workers[..n], w, x, j);
    } else {
      assert workers[w := x][..n] == workers[..n];
    }
  }

  /** How often `j` is in a list. */
  function Times(s: seq<Job>, j: Job): nat {
    if s == [] then 0 else Times(Front(s), j) + if Last(s) == j then 1 else 0
  }

  lemma TimesNext(s: seq<Job>, x: Job, j: Job)
    ensures Times(s + [x], j) == Times(s, j) + if x == j then 1 else 0
  {
    SplitLast(s, x);
  }

  lemma {:induction false} TimesOfBoth(s: seq<Job>, t: seq<Job>, j: Job)
    ensures Times(s + t, j) == Times(s, j) + Times(t, j)
  {
    if t == [] {
      assert s + t == s;
    } else {
      FrontOfSum(s, t);
      TimesOfBoth(s, Front(t), j);
    }
  }

  /** `j` has been handed out once for every worker running it and every time it finished. */
  ghost predicate Balanced(s: State, j: Job) {
    Times(s.started, j) == InHand(s.workers, j) + Times(s.finished, j)
  }

  /** The channel hands jobs out in the order it took them and never holds more than its size;
      no worker leaves before the channel is closed and empty. */
  ghost predicate Ordered(s: State) {
    && s.accepted == s.started + s.queue
    && |s.queue| <= s.size
    && (forall w: nat :: w < |s.workers| && s.workers[w].Stopped? ==> s.closed && s.queue == [])
  }

  lemma OrderedStep(s: State, e: Event)
    requires Ordered(s) && Step(s, e).Some?
    ensures Ordered(Step(s, e).value)
  {
    match e
    case Handoff(j, w) => assert s.started + [j] + s.queue == s.started + s.queue + [j];
    case Take(w) => assert s.started + s.queue == s.started + [s.queue[0]] + s.queue[1..];
    case _ =>
  }

  lemma StartBalances(s: State, w: nat, k: Job, j: Job)
    requires Balanced(s, j) && w < |s.workers| && s.workers[w].Waiting?
    ensures Times(s.started + [k], j) == InHand(s.workers[w := Running(k)], j) + Times(s.finished, j)
  {
    TimesNext(s.started, k, j);
    InHandUpdate(s.workers, w, Running(k), j);
  }

  lemma EndBalances(s: State, w: nat, j: Job)
    requires Balanced(s, j) && w < |s.workers| && s.workers[w].Running?
    ensures Times(s.started, j) == InHand(s.workers[w := Waiting], j) + Times(s.finished + [s.workers[w].job], j)
  {
    TimesNext(s.finished, s.workers[w].job, j);
    InHandUpdate(s.workers, w, Waiting, j);
  }

  lemma BalancedStep(s: State, e: Event, j: Job)
    requires Balanced(s, j) && Step(s, e).Some?
    ensures Balanced(Step(s, e).value, j)
  {
    match e
    case Handoff(k, w) => StartBalances(s, w, k, j);
    case Take(w) => StartBalances(s, w, s.queue[0], j);
    case Finish(w) => EndBalances(s, w, j);
    case Exit(w) => InHandUpdate(s.workers, w, Stopped, j);
    case _ =>
  }

  lemma {:induction false} NobodyInHand(workers: seq<Worker>, j: Job)
    requires forall w: nat :: w < |workers| ==> !workers[w].Running?
    ensures InHand(workers, j) == 0
  {
    if workers != [] {
      NobodyInHand(Front(workers), j);
    }
  }

  lemma {:induction false} OrderedAlways(workerCount: nat, queueSize: nat, events: seq<Event>)
    requires Exec(Step, Init(workerCount, queueSize), events).Some?
    ensures var s := Exec(Step, Init(workerCount, queueSize), events).value;
      Ordered(s) && |s.workers| == workerCount && s.size == queueSize
  {
    if events != [] {
      var before := Front(events);
      OrderedAlways(workerCount, queueSize, before);
      OrderedStep(Exec(Step, Init(workerCount, queueSize), before).value, Last(events));
    }
  }

  lemma {:induction false} BalancedAlways(workerCount: nat, queueSize: nat, events: seq<Event>, j: Job)
    requires Exec(Step, Init(workerCount, queueSize), events).Some?
    ensures Balanced(Exec(Step, Init(workerCount, queueSize), events).value, j)
  {
    if events == [] {
      NobodyInHand(Init(workerCount, queueSize).workers, j);
    } else {
      var before := Front(events);
      BalancedAlways(workerCount, queueSize, before, j);
      BalancedStep(Exec(Step, Init(workerCount, queueSize), before).value, Last(events), j);
    }
  }

  /** Conservation in every run: a job has been accepted as often as it is queued, being run or
      has been run; and the queue is what was accepted and not yet handed out, in order. */
  lemma Conservation(workerCount: nat, queueSize: nat, events: seq<Event>, j: Job)
    requires Exec(Step, Init(workerCount, queueSize), events).Some?
    ensures var s := Exec(Step, Init(workerCount, queueSize), events).value;
      && Times(s.accepted, j) == Times(s.queue, j) + InHand(s.workers, j) + Times(s.finished, j)
      && s.started <= s.accepted && s.queue == s.accepted[|s.started|..]
      && |s.queue| <= queueSize
  {
    BalancedAlways(workerCount, queueSize, events, j);
    OrderedAlways(workerCount, queueSize, events);
    var s := Exec(Step, Init(workerCount, queueSize), events).value;
    TimesOfBoth(s.started, s.queue, j);
  }

  // ---------- Sending ----------

  /** A send of `j` can go through now, into the channel or to a waiting worker. */
  ghost predicate CanSend(s: State, j: Job) {
    Step(s, Enqueue(j)).Some? || exists w: nat :: Step(s, Handoff(j, w)).Some?
  }

  /** A send blocks exactly if the channel is full, and not even a worker waits on an empty one; and
      a send that goes through adds its job at the end of what was accepted. */
  lemma SendBlocksIff(s: State, j: Job)
    requires !s.closed && |s.queue| <= s.size
    ensures !CanSend(s, j) <==> |s.queue| == s.size && (s.queue == [] ==> forall w: nat :: w < |s.workers| ==> !s.workers[w].Waiting?)
    ensures forall e: Event :: (e == Enqueue(j) || (e.Handoff? && e.job == j)) && Step(s, e).Some? ==>
              Step(s, e).value.accepted == s.accepted + [j]
  {
    forall w: nat | s.queue == [] && w < |s.workers| && s.workers[w].Waiting? ensures CanSend(s, j) {
      assert Step(s, Handoff(j, w)).Some?;
    }
  }

  /** No send blocks for good: in every open pool that has a worker, at most two steps of a worker
      let it through. */
  lemma SendGetsThrough(workerCount: nat, queueSize: nat, events: seq<Event>, j: Job) returns (more: seq<Event>)
    requires Exec(Step, Init(workerCount, queueSize), events).Some? && workerCount > 0
    requires !Exec(Step, Init(workerCount, queueSize), events).value.closed
    ensures |more| <= 2 && forall e :: e in more ==> e.Finish? || e.Take?
    ensures Exec(Step, Exec(Step, Init(workerCount, queueSize), events).value, more).Some?
    ensures CanSend(Exec(Step, Exec(Step, Init(workerCount, queueSize), events).value, more).value, j)
  {
    OrderedAlways(workerCount, queueSize, events);
    var s := Exec(Step, Init(workerCount, queueSize), events).value;
    more := [];
    var t := s;
    if s.workers[0].Running? {
      more := [Finish(0)];
      t := Step(s, Finish(0)).value;
      assert Front(more) == [];
    }
    assert Exec(Step, s, more) == Some(t) && t.workers[0].Waiting?;
    if |t.queue| == t.size > 0 {
      ExecAppend(Step, s, more, [Take(0)]);
      assert Front([Take(0)]) == [];
      more, t := more + [Take(0)], Step(t, Take(0)).value;
    }
    SendBlocksIff(t, j);
  }

  // ---------- Stop drains ----------

  function Weight(w: Worker): nat {
    match w
    case Waiting => 1
    case Running(_) => 3
    case Stopped => 0
  }

  function TotalWeight(workers: seq<Worker>): nat {
    if workers == [] then 0 else TotalWeight(Front(workers)) + Weight(Last(workers))
  }

  lemma {:induction false} WeightUpdate(workers: seq<Worker>, w: nat, x: Worker)
    requires w < |workers|
    ensures TotalWeight(workers[w := x]) + Weight(workers[w]) == TotalWeight(workers) + Weight(x)
  {
    var n := |workers| - 1;
    if w < n {
      assert workers[w := x][..n] == workers[..n][w := x];
      WeightUpdate(workers[..n], w, x);
    } else {
      assert workers[w := x][..n] == workers[..n];
    }
  }

  function Remaining(s: State): nat {
    3 * |s.queue| + TotalWeight(s.workers)
  }

  lemma DrainStep(s: State, e: Event)
    requires s.closed && Step(s, e).Some?
    ensures Step(s, e).value.closed && Remaining(Step(s, e).value) < Remaining(s)
  {
    match e
    case Take(w) => WeightUpdate(s.workers, w, Running(s.queue[0]));
    case Finish(w) => WeightUpdate(s.workers, w, Waiting);
    case Exit(w) => WeightUpdate(s.workers, w, Stopped);
    case _ =>
  }

  /** After the channel is closed no run is longer than the remaining work. */
  lemma {:induction false} DrainIsBounded(s: State, events: seq<Event>)
    requires s.closed && Exec(Step, s, events).Some?
    ensures Exec(Step, s, events).value.closed && |events| + Remaining(Exec(Step, s, events).value) <= Remaining(s)
  {
    if events != [] {
      var before := Front(events);
      DrainIsBounded(s, before);
      DrainStep(Exec(Step, s, before).value, Last(events));
    }
  }

  ghost predicate Stuck(s: State) {
    forall e: Event :: Step(s, e).None?
  }

  /** When a closed pool can do nothing more, all its workers have stopped; and then, unless it
      never had a worker, every job it accepted has been run, exactly as often as accepted. */
  lemma DrainEndsWithAllRun(workerCount: nat, queueSize: nat, events: seq<Event>)
    requires Exec(Step, Init(workerCount, queueSize), events).Some?
    requires var s := Exec(Step, Init(workerCount, queueSize), events).value; s.closed && Stuck(s)
    ensures var s := Exec(Step, Init(workerCount, queueSize), events).value;
      && (forall w: nat :: w < |s.workers| ==> s.workers[w].Stopped?)
      && (workerCount > 0 ==> s.queue == [] && forall j :: Times(s.finished, j) == Times(s.accepted, j))
  {
    OrderedAlways(workerCount, queueSize, events);
    var s := Exec(Step, Init(workerCount, queueSize), events).value;
    forall w: nat | w < |s.workers| ensures s.workers[w].Stopped? {
      assert Step(s, Finish(w)).None? && Step(s, Take(w)).None? && Step(s, Exit(w)).None?;
    }
    if workerCount > 0 {
      assert s.workers[0].Stopped?;
      forall j: Job ensures Times(s.finished, j) == Times(s.accepted, j) {
        Conservation(workerCount, queueSize, events, j);
        NobodyInHand(s.workers, j);
      }
    }
  }
}
