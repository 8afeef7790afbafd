/** The log of maintenance windows starting and ending (`checkMaintenanceTransitions` in
    cmd/server/maintenance.go). */
module Transitions {
  import opened Common
  import opened Schedule

  datatype Kind = Started | Ended

  datatype Edge = Edge(windowID: string, title: string, kind: Kind, at: int)

  const RETENTION := DAY

  // ---------- What a log of edges says ----------

  /** The edges of one window, in order. */
  function EdgesOf(log: seq<Edge>, id: string): seq<Edge> {
    if log == [] then []
    else
      var last := log[|log| - 1];
      EdgesOf(log[..|log| - 1], id) + if last.windowID == id then [last] else []
  }

  /** Started, ended, started, ... */
  predicate Alternates(edges: seq<Edge>) {
    forall i :: 0 <= i < |edges| ==> edges[i].kind == if i % 2 == 0 then Started else Ended
  }

  /** The windows that are active after the edges, with the titles they started under. */
  function Replay(log: seq<Edge>): map<string, string> {
    if log == [] then map[]
    else
      var before, last := Replay(log[..|log| - 1]), log[|log| - 1];
      match last.kind
      case Started => before[last.windowID := last.title]
      case Ended => before - {last.windowID}
  }

  /** The edges younger than `cutoff`, in order. */
  function After(log: seq<Edge>, cutoff: int): seq<Edge> {
    if log == [] then []
    else
      var last := log[|log| - 1];
      After(log[..|log| - 1], cutoff) + if last.at > cutoff then [last] else []
  }

  lemma {:induction false} AfterAppend(a: seq<Edge>, b: seq<Edge>, cutoff: int)
    ensures After(a + b, cutoff) == After(a, cutoff) + After(b, cutoff)
  {
    if b == [] {
      assert a + b == a;
    } else {
      var init, last := b[..|b| - 1], b[|b| - 1];
      assert a + b == (a + init) + [last];
      SplitLast(a + init, last);
      AfterAppend(a, init, cutoff);
    }
  }

  lemma {:induction false} AfterAll(a: seq<Edge>, cutoff: int)
    requires forall i :: 0 <= i < |a| ==> a[i].at > cutoff
    ensures After(a, cutoff) == a
  {
    if a != [] {
      AfterAll(a[..|a| - 1], cutoff);
    }
  }

  /** Pruning twice with cutoffs that do not go back prunes like the later one. */
  lemma {:induction false} AfterAfter(a: seq<Edge>, cutoff: int, later: int)
    requires cutoff <= later
    ensures After(After(a, cutoff), later) == After(a, later)
  {
    if a != [] {
      AfterAfter(a[..|a| - 1], cutoff, later);
      AfterAppend(After(a[..|a| - 1], cutoff), if a[|a| - 1].at > cutoff then [a[|a| - 1]] else [], later);
    }
  }

  // ---------- One scan ----------

  predicate SoundFor(log: seq<Edge>, active: set<string>, id: string) {
    Alternates(EdgesOf(log, id)) && (id in active <==> |EdgesOf(log, id)| % 2 == 1)
  }

  /** The log is sound for a set of active windows: the edges of each window alternate,
      beginning with a start; the last one is a start for exactly the active windows; and
      replaying the log gives the active windows. */
  ghost predicate Sound(log: seq<Edge>, active: set<string>) {
    && (forall id: string :: SoundFor(log, active, id))
    && Replay(log).Keys == active
  }

  lemma EdgesOfNext(log: seq<Edge>, edge: Edge, id: string)
    ensures EdgesOf(log + [edge], id) == EdgesOf(log, id) + if edge.windowID == id then [edge] else []
  {
    SplitLast(log, edge);
  }

  lemma SoundStart(log: seq<Edge>, active: set<string>, edge: Edge)
    requires Sound(log, active) && edge.kind == Started && edge.windowID !in active
    ensures Sound(log + [edge], active + {edge.windowID})
  {
    SplitLast(log, edge);
    forall x: string ensures SoundFor(log + [edge], active + {edge.windowID}, x) {
      EdgesOfNext(log, edge, x);
      assert SoundFor(log, active, x);
    }
  }

  lemma SoundEnd(log: seq<Edge>, active: set<string>, edge: Edge)
    requires Sound(log, active) && edge.kind == Ended && edge.windowID in active
    ensures Sound(log + [edge], active - {edge.windowID})
  {
    SplitLast(log, edge);
    forall x: string ensures SoundFor(log + [edge], active - {edge.windowID}, x) {
      EdgesOfNext(log, edge, x);
      assert SoundFor(log, active, x);
    }
  }

  /** IDs to titles; of windows sharing an ID the last one counts. */
  function ByID(active: seq<Window>): (m: map<string, Window>)
    ensures forall id: string :: id in m <==> exists w: Window :: w in active && w.id == id
    ensures forall id: string :: id in m ==> m[id] in active && m[id].id == id
  {
    if active == [] then map[]
    else
      var init, last := active[..|active| - 1], active[|active| - 1];
      assert active == init + [last];
      ByID(init)[last.id := last]
  }

  /** The title the window had in the scan before, for the edge that says it ended. */
  function EndEdge(prev: map<string, string>, id: string, now: int): Edge
    requires id in prev
  {
    Edge(id, prev[id], Ended, now)
  }

  function StartEdge(byID: map<string, Window>, id: string, now: int): Edge
    requires id in byID
  {
    Edge(id, byID[id].title, Started, now)
  }

  /** The edges that a scan finding the windows `byID` adds for one ID. */
  function NewEdges(prev: map<string, string>, byID: map<string, Window>, id: string, now: int): seq<Edge> {
    if id in byID && id !in prev then [StartEdge(byID, id, now)]
    else if id in prev && id !in byID then [EndEdge(prev, id, now)]
    else []
  }

  /** Pruning the stored log and adding the new edges leaves the whole log cut off a day
      before the new edges. */
  lemma PrunedLog(before: seq<Edge>, edges: seq<Edge>, stored: seq<Edge>, last: int, now: int)
    requires if before == [] then stored == [] else last <= now && stored == After(before, last - RETENTION)
    requires forall i :: 0 <= i < |edges| ==> edges[i].at == now
    ensures After(stored, now - RETENTION) + edges == After(before + edges, now - RETENTION)
  {
    if before != [] {
      AfterAfter(before, last - RETENTION, now - RETENTION);
    }
    AfterAppend(before, edges, now - RETENTION);
    AfterAll(edges, now - RETENTION);
  }

  function Titles(byID: map<string, Window>): (m: map<string, string>)
    ensures m.Keys == byID.Keys
  {
    map id | id in byID :: byID[id].title
  }

  /** The windows whose opening calls for cancelling what is in flight. */
  predicate OpensWithForce(w: Window, byID: map<string, Window>, prev: set<string>) {
    w.id in byID && byID[w.id] == w && w.id !in prev && w.onStart == ForceCancel
  }

  class Tracker {
    /** As of the scan before: window ID to title. */
    var activeIDs: map<string, string>
    var transitions: seq<Edge>
    /** Every edge there ever was, the time of the last one, and whether the clock never went
        back between them. */
    ghost var full: seq<Edge>
    ghost var lastEdge: int
    ghost var ordered: bool

    ghost predicate Valid()
      reads this
    {
      && Sound(full, activeIDs.Keys)
      && (ordered ==> transitions == After(full, lastEdge - RETENTION))
      && (full == [] ==> transitions == [])
    }

    constructor ()
      ensures Valid() && activeIDs == map[] && transitions == [] && full == [] && ordered
    {
      activeIDs, transitions, full, lastEdge, ordered := map[], [], [], 0, true;
    }

    /** Compares the active windows with those of the scan before and logs the difference, in
        whatever order the maps yield it.  Returned are the force-cancel windows that have just
        started. */
    method CheckMaintenanceTransitions(active: seq<Window>, now: int) returns (started: set<Window>)
      requires Valid()
      modifies this
      ensures Valid() && old(full) <= full
      ensures activeIDs == Titles(ByID(active))
      ensures forall id: string :: Added(old(full), full, NewEdges(old(activeIDs), ByID(active), id, now), id)
      ensures full != old(full) ==> lastEdge == now
      ensures full == old(full) ==> lastEdge == old(lastEdge) && transitions == old(transitions)
      ensures ordered <==> old(ordered) && (full != old(full) && old(full) != [] ==> old(lastEdge) <= now)
      ensures forall w: Window :: w in started <==> OpensWithForce(w, ByID(active), old(activeIDs).Keys)
    {
      var byID := ByID(active);
      var current := Titles(byID);
      var prev := activeIDs;
      ghost var before := full;
      var edges, forceCancelStarted := LogStarted(before, prev, byID, now);
      started := forceCancelStarted;
      edges := LogEnded(before, edges, prev, byID, now);
      EndingDone(before, before + edges, prev, byID, now);
      activeIDs := current;
      StoreEdges(edges, now);
    }

    method StoreEdges(edges: seq<Edge>, now: int)
      requires full == [] ==> transitions == []
      requires ordered ==> transitions == After(full, lastEdge - RETENTION)
      requires forall i :: 0 <= i < |edges| ==> edges[i].at == now
      modifies this`transitions, this`full, this`lastEdge, this`ordered
      ensures full == old(full) + edges
      ensures edges == [] ==> lastEdge == old(lastEdge) && ordered == old(ordered) && transitions == old(transitions)
      ensures edges != [] ==> lastEdge == now && ordered == (old(ordered) && (old(full) != [] ==> old(lastEdge) <= now))
      ensures ordered ==> transitions == After(full, lastEdge - RETENTION)
      ensures full == [] ==> transitions == []
    {
      ghost var whole, cutoff := full + edges, now - RETENTION;
      if edges == [] {
        assert whole == full;
        return;
      }
      var kept := Prune(transitions, now - RETENTION);
      var stored := kept + edges;
      ghost var stillOrdered := ordered && (full != [] ==> lastEdge <= now);
      assert stillOrdered ==> stored == After(whole, cutoff) by {
        if stillOrdered { PrunedLog(full, edges, transitions, lastEdge, now); }
      }
      assert |whole| > 0;
      transitions, full, lastEdge, ordered := stored, whole, now, stillOrdered;
    }
  }

  /** The edges logged so far for one ID, while the starts of `starting` and the ends of
      `ending` are still to come. */
  function EdgesSoFar(prev: map<string, string>, byID: map<string, Window>, starting: set<string>, ending: set<string>,
                      id: string, now: int): seq<Edge>
  {
    if id in starting || id in ending then [] else NewEdges(prev, byID, id, now)
  }

  ghost predicate LoggedSoFar(before: seq<Edge>, log: seq<Edge>, prev: map<string, string>, byID: map<string, Window>,
                              starting: set<string>, ending: set<string>, now: int)
  {
    forall id: string :: Added(before, log, EdgesSoFar(prev, byID, starting, ending, id, now), id)
  }

  /** The log has grown by these edges of one ID. */
  predicate Added(before: seq<Edge>, log: seq<Edge>, edges: seq<Edge>, id: string) {
    EdgesOf(log, id) == EdgesOf(before, id) + edges
  }

  /** Logging the edge of an ID that was still to come. */
  lemma LogNext(before: seq<Edge>, log: seq<Edge>, prev: map<string, string>, byID: map<string, Window>,
                starting: set<string>, ending: set<string>, now: int, id: string, edge: Edge)
    requires LoggedSoFar(before, log, prev, byID, starting, ending, now)
    requires id in starting || id in ending
    requires NewEdges(prev, byID, id, now) == [edge] && edge.windowID == id
    ensures LoggedSoFar(before, log + [edge], prev, byID, starting - {id}, ending - {id}, now)
  {
    forall x: string
      ensures Added(before, log + [edge], EdgesSoFar(prev, byID, starting - {id}, ending - {id}, x, now), x)
    {
      EdgesOfNext(log, edge, x);
      assert Added(before, log, EdgesSoFar(prev, byID, starting, ending, x, now), x);
    }
  }

  /** Passing over an ID that has no edge. */
  lemma LogNothing(before: seq<Edge>, log: seq<Edge>, prev: map<string, string>, byID: map<string, Window>,
                   starting: set<string>, ending: set<string>, now: int, id: string)
    requires LoggedSoFar(before, log, prev, byID, starting, ending, now)
    requires NewEdges(prev, byID, id, now) == []
    ensures LoggedSoFar(before, log, prev, byID, starting - {id}, ending - {id}, now)
  {
    forall x: string
      ensures Added(before, log, EdgesSoFar(prev, byID, starting - {id}, ending - {id}, x, now), x)
    {
      assert Added(before, log, EdgesSoFar(prev, byID, starting, ending, x, now), x);
    }
  }

  /** The log while the starts of `todo` are still to come, and all ends. */
  ghost predicate Starting(before: seq<Edge>, log: seq<Edge>, prev: map<string, string>, byID: map<string, Window>,
                           todo: set<string>, now: int)
  {
    Sound(log, prev.Keys + (byID.Keys - todo)) && LoggedSoFar(before, log, prev, byID, todo, prev.Keys, now)
  }

  /** The log while only the ends of `todo` are still to come. */
  ghost predicate Ending(before: seq<Edge>, log: seq<Edge>, prev: map<string, string>, byID: map<string, Window>,
                         todo: set<string>, now: int)
  {
    Sound(log, todo + byID.Keys) && LoggedSoFar(before, log, prev, byID, {}, todo, now)
  }

  lemma StartingNext(before: seq<Edge>, log: seq<Edge>, prev: map<string, string>, byID: map<string, Window>,
                     todo: set<string>, now: int, id: string)
    requires Starting(before, log, prev, byID, todo, now) && id in todo && todo <= byID.Keys
    ensures Starting(before, if id in prev then log else log + [StartEdge(byID, id, now)], prev, byID, todo - {id}, now)
  {
    var known := prev.Keys + (byID.Keys - todo);
    assert prev.Keys + (byID.Keys - (todo - {id})) == known + {id};
    if id in prev {
      assert known + {id} == known;
      forall x: string ensures Added(before, log, EdgesSoFar(prev, byID, todo - {id}, prev.Keys, x, now), x) {
        assert Added(before, log, EdgesSoFar(prev, byID, todo, prev.Keys, x, now), x);
      }
    } else {
      SoundStart(log, known, StartEdge(byID, id, now));
      LogNext(before, log, prev, byID, todo, prev.Keys, now, id, StartEdge(byID, id, now));
      assert prev.Keys - {id} == prev.Keys;
    }
  }

  lemma EndingNext(before: seq<Edge>, log: seq<Edge>, prev: map<string, string>, byID: map<string, Window>,
                   todo: set<string>, now: int, id: string)
    requires Ending(before, log, prev, byID, todo, now) && id in todo && todo <= prev.Keys
    ensures Ending(before, if id in byID then log else log + [EndEdge(prev, id, now)], prev, byID, todo - {id}, now)
  {
    var none: set<string> := {};
    assert none - {id} == none;
    var known := todo + byID.Keys;
    if id in byID {
      assert todo - {id} + byID.Keys == known;
      LogNothing(before, log, prev, byID, none, todo, now, id);
    } else {
      assert todo - {id} + byID.Keys == known - {id};
      SoundEnd(log, known, EndEdge(prev, id, now));
      LogNext(before, log, prev, byID, none, todo, now, id, EndEdge(prev, id, now));
    }
  }

  lemma StartingInit(before: seq<Edge>, prev: map<string, string>, byID: map<string, Window>, now: int)
    requires Sound(before, prev.Keys)
    ensures Starting(before, before + [], prev, byID, byID.Keys, now)
  {
    assert before + [] == before && prev.Keys + (byID.Keys - byID.Keys) == prev.Keys;
  }

  lemma StartingDone(before: seq<Edge>, log: seq<Edge>, prev: map<string, string>, byID: map<string, Window>, now: int)
    requires Starting(before, log, prev, byID, {}, now)
    ensures Ending(before, log, prev, byID, prev.Keys, now)
  {
    var none: set<string> := {};
    assert prev.Keys + (byID.Keys - none) == prev.Keys + byID.Keys;
  }

  lemma EndingDone(before: seq<Edge>, log: seq<Edge>, prev: map<string, string>, byID: map<string, Window>, now: int)
    requires Ending(before, log, prev, byID, {}, now)
    ensures Sound(log, byID.Keys)
    ensures forall id: string :: Added(before, log, NewEdges(prev, byID, id, now), id)
  {
    var none: set<string> := {};
    assert none + byID.Keys == byID.Keys;
    forall id: string ensures Added(before, log, NewEdges(prev, byID, id, now), id) {
      assert Added(before, log, EdgesSoFar(prev, byID, none, none, id, now), id);
    }
  }

  method LogStarted(ghost before: seq<Edge>, prev: map<string, string>, byID: map<string, Window>, now: int)
    returns (edges: seq<Edge>, forceCancelStarted: set<Window>)
    requires Sound(before, prev.Keys) && forall id: string :: id in byID ==> byID[id].id == id
    ensures Ending(before, before + edges, prev, byID, prev.Keys, now)
    ensures forall i :: 0 <= i < |edges| ==> edges[i].at == now
    ensures forall w: Window :: w in forceCancelStarted <==> OpensWithForce(w, byID, prev.Keys)
  {
    edges, forceCancelStarted := [], {};
    var todo := byID.Keys;
    StartingInit(before, prev, byID, now);
    while todo != {}
      invariant todo <= byID.Keys && Starting(before, before + edges, prev, byID, todo, now)
      invariant forall i :: 0 <= i < |edges| ==> edges[i].at == now
      invariant forall w: Window :: w in forceCancelStarted <==>
        w.id in byID && byID[w.id] == w && w.id !in prev && w.id !in todo && w.onStart == ForceCancel
      decreases todo
    {
      var id :| id in todo;
      StartingNext(before, before + edges, prev, byID, todo, now, id);
      todo := todo - {id};
      if id !in prev {
        assert before + (edges + [StartEdge(byID, id, now)]) == before + edges + [StartEdge(byID, id, now)];
        edges := edges + [StartEdge(byID, id, now)];
        if byID[id].onStart == ForceCancel { forceCancelStarted := forceCancelStarted + {byID[id]}; }
      }
    }
    StartingDone(before, before + edges, prev, byID, now);
  }

  method LogEnded(ghost before: seq<Edge>, edges0: seq<Edge>, prev: map<string, string>, byID: map<string, Window>,
                  now: int)
    returns (edges: seq<Edge>)
    requires Ending(before, before + edges0, prev, byID, prev.Keys, now)
    requires forall i :: 0 <= i < |edges0| ==> edges0[i].at == now
    ensures Ending(before, before + edges, prev, byID, {}, now)
    ensures forall i :: 0 <= i < |edges| ==> edges[i].at == now
  {
    edges := edges0;
    var todo := prev.Keys;
    while todo != {}
      invariant todo <= prev.Keys && Ending(before, before + edges, prev, byID, todo, now)
      invariant forall i :: 0 <= i < |edges| ==> edges[i].at == now
      decreases todo
    {
      var id :| id in todo;
      EndingNext(before, before + edges, prev, byID, todo, now, id);
      todo := todo - {id};
      if id !in byID {
        assert before + (edges + [EndEdge(prev, id, now)]) == before + edges + [EndEdge(prev, id, now)];
        edges := edges + [EndEdge(prev, id, now)];
      }
    }
  }

  method Prune(transitions: seq<Edge>, cutoff: int) returns (kept: seq<Edge>)
    ensures kept == After(transitions, cutoff)
  {
    var buffer := new Edge[|transitions|](i requires 0 <= i < |transitions| => transitions[i]);
    assert buffer[..] == transitions;
    var n := CompactInPlace(buffer, cutoff);
    kept := buffer[..n];
  }

  /** Moves the edges after the cutoff to the front of the array that holds them, in order. */
  method CompactInPlace(a: array<Edge>, cutoff: int) returns (n: nat)
    modifies a
    ensures n <= a.Length && a[..n] == After(old(a[..]), cutoff)
  {
    ghost var was := a[..];
    n := 0;
    for i := 0 to a.Length
      invariant n <= i && a[..n] == After(was[..i], cutoff)
      invariant forall k :: i <= k < a.Length ==> a[k] == was[k]
    {
      assert was[..i + 1][..i] == was[..i];
      if a[i].at > cutoff {
        a[n] := a[i];
        n := n + 1;
        assert a[..n] == a[..n - 1] + [was[i]];
      }
    }
    assert was[..a.Length] == was;
  }

  // ---------- Edge by edge ----------

  predicate LastAt(active: seq<Window>, w: Window, i: nat) {
    i < |active| && active[i] == w && forall k :: i < k < |active| ==> active[k].id != w.id
  }

  /** The last active window with its ID. */
  ghost predicate LastWithID(active: seq<Window>, w: Window) {
    exists i: nat :: LastAt(active, w, i)
  }

  lemma LastWithIDNext(active: seq<Window>, w: Window)
    requires active != []
    ensures LastWithID(active, w) <==> w == Last(active) || (w.id != Last(active).id && LastWithID(Front(active), w))
  {
    var n := |active| - 1;
    if i: nat :| LastAt(active, w, i) {
      if i < n { assert LastAt(Front(active), w, i); }
    }
    if w == Last(active) {
      assert LastAt(active, w, n);
    } else if w.id != Last(active).id && LastWithID(Front(active), w) {
      var i: nat :| LastAt(Front(active), w, i);
      assert forall k :: i < k < n ==> Front(active)[k] == active[k];
      assert LastAt(active, w, i);
    }
  }

  lemma {:induction false} ByIDMeans(active: seq<Window>, w: Window)
    ensures w.id in ByID(active) && ByID(active)[w.id] == w <==> LastWithID(active, w)
  {
    if active != [] {
      LastWithIDNext(active, w);
      ByIDMeans(Front(active), w);
      assert ByID(active) == ByID(Front(active))[Last(active).id := Last(active)];
    }
  }

  /** The windows whose opening cancels what is in flight: active now, not in the scan before, and
      set to force-cancel. */
  lemma OpensMeans(active: seq<Window>, prev: set<string>, w: Window)
    ensures OpensWithForce(w, ByID(active), prev) <==>
            LastWithID(active, w) && w.id !in prev && w.onStart == ForceCancel
  {
    ByIDMeans(active, w);
  }

  /** What a scan logs for one ID, and what it stores for the next. */
  lemma NewEdgesMean(prev: map<string, string>, active: seq<Window>, id: string, now: int)
    ensures var started := exists w: Window :: w in active && w.id == id;
      && (started && id !in prev ==>
            exists w: Window :: LastWithID(active, w) && w.id == id
              && NewEdges(prev, ByID(active), id, now) == [Edge(id, w.title, Started, now)])
      && (!started && id in prev ==> NewEdges(prev, ByID(active), id, now) == [Edge(id, prev[id], Ended, now)])
      && ((started <==> id in prev) ==> NewEdges(prev, ByID(active), id, now) == [])
    ensures id in ByID(active) ==>
      exists w: Window :: LastWithID(active, w) && w.id == id && Titles(ByID(active))[id] == w.title
  {
    if id in ByID(active) { ByIDMeans(active, ByID(active)[id]); }
  }

  /** The stored log has the edges of the 24 hours before the last one. */
  lemma {:induction false} RetainedMeans(log: seq<Edge>, last: int, e: Edge)
    ensures e in After(log, last - RETENTION) <==> e in log && last - e.at < 24 * 3_600_000_000_000
  {
    if log != [] {
      RetainedMeans(log[..|log| - 1], last, e);
      assert log == log[..|log| - 1] + [log[|log| - 1]];
    }
  }
}
