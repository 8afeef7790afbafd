/** Shared by all modules. */
module Common {

  datatype Option<+T> = None | Some(value: T)

  /** Times and durations are integers, in nanoseconds. */
  const SECOND := 1_000_000_000
  const MINUTE := 60_000_000_000
  const DAY := 86_400_000_000_000

  function Front<T>(s: seq<T>): seq<T>
    requires s != []
  {
    s[..|s| - 1]
  }

  function Last<T>(s: seq<T>): T
    requires s != []
  {
    s[|s| - 1]
  }

  lemma SplitLast<T>(s: seq<T>, x: T)
    ensures Front(s + [x]) == s && Last(s + [x]) == x
  {}

  lemma FrontOfSum<T>(s: seq<T>, t: seq<T>)
    requires t != []
    ensures Front(s + t) == s + Front(t) && Last(s + t) == Last(t)
  {}

  // ---------- Runs of a transition system ----------

  /** The state after the events, if each of them is possible in its turn. */
  ghost function Exec<S, E>(step: (S, E) -> Option<S>, s: S, events: seq<E>): Option<S> {
    if events == [] then Some(s)
    else
      var t := Exec(step, s, Front(events));
      if t.None? then None else step(t.value, Last(events))
  }

  lemma ExecSnoc<S, E>(step: (S, E) -> Option<S>, s: S, events: seq<E>, e: E)
    ensures Exec(step, s, events + [e]) ==
            if Exec(step, s, events).None? then None else step(Exec(step, s, events).value, e)
  {
    SplitLast(events, e);
  }

  lemma {:induction false} ExecAppend<S, E>(step: (S, E) -> Option<S>, s: S, events: seq<E>, more: seq<E>)
    requires Exec(step, s, events).Some?
    ensures Exec(step, s, events + more) == Exec(step, Exec(step, s, events).value, more)
  {
    if more == [] {
      assert events + more == events;
    } else {
      ExecAppend(step, s, events, Front(more));
      FrontOfSum(events, more);
    }
  }
}
