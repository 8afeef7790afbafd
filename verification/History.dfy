/** The action-history log (internal/history/store.go): an append-only file of lines, listed
    page by page newest first, and pruned by age. */
module History {
  import opened Common

  datatype Entry = Entry(timestamp: int, containerID: string, containerName: string, status: string, rest: string)

  /** A line of the file: blank, not an entry, or an entry. */
  datatype Line = Blank | Garbage(text: string) | Written(entry: Entry)

  datatype ListOptions = ListOptions(
    limit: int,
    offset: int,
    service: string,
    excludeStatus: string,
    onlyStatuses: seq<string>)

  const DEFAULT_LIMIT := 50

  predicate Matches(e: Entry, o: ListOptions) {
    && (o.service == "" || e.containerName == o.service || e.containerID == o.service)
    && (o.excludeStatus == "" || e.status != o.excludeStatus)
    && (o.onlyStatuses == [] || e.status in o.onlyStatuses)
  }

  /** The matching entries, oldest first. */
  function Matching(lines: seq<Line>, o: ListOptions): seq<Entry> {
    if lines == [] then []
    else
      var last := lines[|lines| - 1];
      Matching(lines[..|lines| - 1], o) + if last.Written? && Matches(last.entry, o) then [last.entry] else []
  }

  function Reversed<T>(s: seq<T>): (r: seq<T>)
    ensures |r| == |s|
  {
    if s == [] then [] else [s[|s| - 1]] + Reversed(s[..|s| - 1])
  }

  lemma {:induction false} ReversedAt<T>(s: seq<T>, i: nat)
    requires i < |s|
    ensures Reversed(s)[i] == s[|s| - 1 - i]
  {
    if i > 0 {
      ReversedAt(s[..|s| - 1], i - 1);
    }
  }

  /** What a listing shows before paging. */
  function Listing(lines: seq<Line>, o: ListOptions): seq<Entry> {
    Reversed(Matching(lines, o))
  }

  function Page(all: seq<Entry>, offset: nat, limit: nat): seq<Entry> {
    if offset >= |all| then []
    else if limit < |all| - offset then all[offset..offset + limit]
    else all[offset..]
  }

  /** The entries not older than the cutoff, in order. */
  function NotBefore(entries: seq<Entry>, cutoff: int): seq<Entry> {
    if entries == [] then []
    else
      var last := entries[|entries| - 1];
      NotBefore(entries[..|entries| - 1], cutoff) + if last.timestamp >= cutoff then [last] else []
  }

  predicate Stale(line: Line, cutoff: int) {
    line.Written? && line.entry.timestamp < cutoff
  }

  /** The lines a prune writes back. */
  function KeptLines(lines: seq<Line>, cutoff: int): seq<Line> {
    if lines == [] then []
    else
      var last := lines[|lines| - 1];
      KeptLines(lines[..|lines| - 1], cutoff) + if last.Blank? || Stale(last, cutoff) then [] else [last]
  }

  function StaleCount(lines: seq<Line>, cutoff: int): nat {
    if lines == [] then 0
    else StaleCount(lines[..|lines| - 1], cutoff) + if Stale(lines[|lines| - 1], cutoff) then 1 else 0
  }

  class Store {
    /** No value while the file does not exist. */
    var file: Option<seq<Line>>

    function Lines(): seq<Line>
      reads this
    {
      if file.Some? then file.value else []
    }

    constructor ()
      ensures file == None
    {
      file := None;
    }

    method Append(e: Entry, hasTimestamp: bool, now: int)
      modifies this
      ensures file.Some?
      ensures Lines() == old(Lines()) + [Written(if hasTimestamp then e else e.(timestamp := now))]
    {
      var stamped := if hasTimestamp then e else e.(timestamp := now);
      file := Some(Lines() + [Written(stamped)]);
    }

    /** Slicing at a negative offset panics, if there is a file at all. */
    method ListPage(o: ListOptions) returns (page: seq<Entry>, total: nat, panics: bool)
      ensures panics <==> file.Some? && o.offset < 0
      ensures !panics ==> total == |Listing(Lines(), o)|
      ensures !panics && o.offset >= 0 ==>
        page == Page(Listing(Lines(), o), o.offset, if o.limit <= 0 then 50 else o.limit)
      ensures !panics && o.offset < 0 ==> page == []
    {
      var limit := if o.limit <= 0 then DEFAULT_LIMIT else o.limit;
      if file.None? {
        return [], 0, false;
      }
      var found := Collect(file.value, o);
      if o.offset < 0 {
        return [], 0, true;
      }
      page := NewestFirst(found, o.offset, limit);
      total, panics := |found|, false;
    }

    method Clear()
      modifies this
      ensures Lines() == []
    {
      file := None;
    }

    /** Nothing is written unless some entry is stale. */
    method Prune(retentionDays: int, now: int) returns (removed: nat)
      modifies this
      ensures var cutoff := now - retentionDays * 86_400_000_000_000;
        && removed == (if retentionDays <= 0 then 0 else StaleCount(old(Lines()), cutoff))
        && (removed == 0 ==> file == old(file))
        && (removed > 0 ==> Lines() == KeptLines(old(Lines()), cutoff))
    {
      if retentionDays <= 0 || file.None? {
        return 0;
      }
      var cutoff := now - retentionDays * DAY;
      var lines := file.value;
      var kept: seq<Line> := [];
      removed := 0;
      for i := 0 to |lines|
        invariant kept == KeptLines(lines[..i], cutoff) && removed == StaleCount(lines[..i], cutoff)
      {
        assert lines[..i + 1][..i] == lines[..i];
        match lines[i]
        case Blank =>
        case Garbage(_) => kept := kept + [lines[i]];
        case Written(e) =>
          if e.timestamp < cutoff {
            removed := removed + 1;
          } else {
            kept := kept + [lines[i]];
          }
      }
      assert lines[..|lines|] == lines;
      if removed == 0 {
        return;
      }
      file := Some(kept);
    }
  }

  method Collect(lines: seq<Line>, o: ListOptions) returns (all: seq<Entry>)
    ensures all == Matching(lines, o)
  {
    all := [];
    for i := 0 to |lines|
      invariant all == Matching(lines[..i], o)
    {
      assert lines[..i + 1][..i] == lines[..i];
      if !lines[i].Written? { continue; }
      var e := lines[i].entry;
      if o.service != "" && e.containerName != o.service && e.containerID != o.service { continue; }
      if o.excludeStatus != "" && e.status == o.excludeStatus { continue; }
      if |o.onlyStatuses| > 0 {
        var match' := false;
        for k := 0 to |o.onlyStatuses|
          invariant !match' && e.status !in o.onlyStatuses[..k]
        {
          if e.status == o.onlyStatuses[k] {
            match' := true;
            break;
          }
        }
        if !match' { continue; }
      }
      all := all + [e];
    }
    assert lines[..|lines|] == lines;
  }

  /** Turns the entries round and cuts out a page. */
  method NewestFirst(found: seq<Entry>, offset: nat, limit: nat) returns (page: seq<Entry>)
    ensures page == Page(Reversed(found), offset, limit)
  {
    var all := new Entry[|found|](i requires 0 <= i < |found| => found[i]);
    assert all[..] == found;
    ReverseInPlace(all);
    if offset >= all.Length {
      return [];
    }
    page := all[..][offset..];
    if limit < |page| { page := page[..limit]; }
  }

  method ReverseInPlace<T>(a: array<T>)
    modifies a
    ensures a[..] == Reversed(old(a[..]))
  {
    var i, j := 0, a.Length - 1;
    while i < j
      invariant 0 <= i <= j + 1 <= a.Length && i + j == a.Length - 1
      invariant forall k :: 0 <= k < i || j < k < a.Length ==> a[k] == old(a[a.Length - 1 - k])
      invariant forall k :: i <= k <= j ==> a[k] == old(a[k])
    {
      a[i], a[j] := a[j], a[i];
      i, j := i + 1, j - 1;
    }
    forall k | 0 <= k < a.Length ensures a[k] == Reversed(old(a[..]))[k] {
      ReversedAt(old(a[..]), k);
    }
  }

  // ---------- Paging ----------

  /** The pages at offsets `from`, `from + limit`, ... joined together. */
  function Pages(all: seq<Entry>, from: nat, limit: nat): seq<Entry>
    requires limit > 0
    decreases |all| - from
  {
    if from >= |all| then [] else Page(all, from, limit) + Pages(all, from + limit, limit)
  }

  /** Reading page after page gives the whole listing, each entry once and in order. */
  lemma {:induction false} PagesGiveAll(all: seq<Entry>, from: nat, limit: nat)
    requires limit > 0
    ensures Pages(all, from, limit) == if from <= |all| then all[from..] else []
    decreases |all| - from
  {
    if from < |all| {
      PagesGiveAll(all, from + limit, limit);
    }
  }

  // ---------- Pruning ----------

  lemma {:induction false} MatchingAppend(a: seq<Line>, b: seq<Line>, o: ListOptions)
    ensures Matching(a + b, o) == Matching(a, o) + Matching(b, o)
  {
    if b == [] {
      assert a + b == a;
    } else {
      assert (a + b)[..|a + b| - 1] == a + b[..|b| - 1];
      MatchingAppend(a, b[..|b| - 1], o);
    }
  }

  /** What one line contributes to a listing. */
  function LineMatching(line: Line, o: ListOptions): seq<Entry> {
    if line.Written? && Matches(line.entry, o) then [line.entry] else []
  }

  /** What one line contributes to the pruned file. */
  function LineKept(line: Line, cutoff: int): seq<Line> {
    if line.Blank? || Stale(line, cutoff) then [] else [line]
  }

  lemma OneLine(line: Line, o: ListOptions, cutoff: int)
    ensures Matching(LineKept(line, cutoff), o) == NotBefore(LineMatching(line, o), cutoff)
  {
    assert [line][..0] == [];
    if line.Written? {
      assert [line.entry][..0] == [];
    }
  }

  lemma {:induction false} MatchingKept(lines: seq<Line>, o: ListOptions, cutoff: int)
    ensures Matching(KeptLines(lines, cutoff), o) == NotBefore(Matching(lines, o), cutoff)
  {
    if lines != [] {
      var init, last := lines[..|lines| - 1], lines[|lines| - 1];
      MatchingKept(init, o, cutoff);
      OneLine(last, o, cutoff);
      MatchingAppend(KeptLines(init, cutoff), LineKept(last, cutoff), o);
      NotBeforeAppend(Matching(init, o), LineMatching(last, o), cutoff);
    }
  }

  lemma {:induction false} ReversedNotBefore(entries: seq<Entry>, cutoff: int)
    ensures Reversed(NotBefore(entries, cutoff)) == NotBefore(Reversed(entries), cutoff)
  {
    if entries != [] {
      var init, last := entries[..|entries| - 1], entries[|entries| - 1];
      ReversedNotBefore(init, cutoff);
      NotBeforeAppend([last], Reversed(init), cutoff);
      assert [last][..0] == [];
      SplitLast(NotBefore(init, cutoff), last);
      assert NotBefore([last], cutoff) == if last.timestamp >= cutoff then [last] else [];
      if last.timestamp < cutoff {
        assert NotBefore(entries, cutoff) == NotBefore(init, cutoff);
      }
    }
  }

  lemma {:induction false} NotBeforeAppend(a: seq<Entry>, b: seq<Entry>, cutoff: int)
    ensures NotBefore(a + b, cutoff) == NotBefore(a, cutoff) + NotBefore(b, cutoff)
  {
    if b == [] {
      assert a + b == a;
    } else {
      assert (a + b)[..|a + b| - 1] == a + b[..|b| - 1];
      NotBeforeAppend(a, b[..|b| - 1], cutoff);
    }
  }

  /** After a prune a listing shows what it showed before, less the entries older than the
      cutoff, in the same order, whatever filter is applied. */
  lemma ListingAfterPrune(before: seq<Line>, after: seq<Line>, o: ListOptions, cutoff: int)
    requires after == if StaleCount(before, cutoff) == 0 then before else KeptLines(before, cutoff)
    ensures Listing(after, o) == NotBefore(Listing(before, o), cutoff)
  {
    if StaleCount(before, cutoff) == 0 {
      NothingStale(before, o, cutoff);
    } else {
      MatchingKept(before, o, cutoff);
    }
    ReversedNotBefore(Matching(before, o), cutoff);
  }

  lemma {:induction false} NothingStale(lines: seq<Line>, o: ListOptions, cutoff: int)
    requires StaleCount(lines, cutoff) == 0
    ensures NotBefore(Matching(lines, o), cutoff) == Matching(lines, o)
  {
    if lines != [] {
      var init, last := lines[..|lines| - 1], lines[|lines| - 1];
      NothingStale(init, o, cutoff);
      NotBeforeAppend(Matching(init, o), LineMatching(last, o), cutoff);
      if last.Written? {
        assert [last.entry][..0] == [];
      }
    }
  }

  // ---------- Entry by entry ----------

  /** An entry is listed exactly if it is in the file, is of the service asked for by name or by ID,
      does not have the status left out, and has one of the statuses asked for, where a filter that
      is empty lets everything through. */
  lemma {:induction false} MatchingMembers(lines: seq<Line>, o: ListOptions, e: Entry)
    ensures e in Matching(lines, o) <==>
            && Written(e) in lines
            && (o.service != "" ==> o.service == e.containerName || o.service == e.containerID)
            && (o.excludeStatus != "" ==> o.excludeStatus != e.status)
            && (|o.onlyStatuses| > 0 ==> exists k :: 0 <= k < |o.onlyStatuses| && o.onlyStatuses[k] == e.status)
  {
    if lines != [] {
      MatchingMembers(lines[..|lines| - 1], o, e);
      assert lines == lines[..|lines| - 1] + [lines[|lines| - 1]];
    }
  }

  /** What a prune writes back: every line that is not blank, except the entries older than the
      cutoff. */
  lemma {:induction false} KeptMembers(lines: seq<Line>, cutoff: int, line: Line)
    ensures line in KeptLines(lines, cutoff) <==>
            line in lines && !line.Blank? && (line.Written? ==> cutoff <= line.entry.timestamp)
  {
    if lines != [] {
      KeptMembers(lines[..|lines| - 1], cutoff, line);
      assert lines == lines[..|lines| - 1] + [lines[|lines| - 1]];
    }
  }

  /** Each line is judged on its own, and the order is kept. */
  lemma {:induction false} KeptInOrder(a: seq<Line>, b: seq<Line>, cutoff: int)
    ensures KeptLines(a + b, cutoff) == KeptLines(a, cutoff) + KeptLines(b, cutoff)
    ensures StaleCount(a + b, cutoff) == StaleCount(a, cutoff) + StaleCount(b, cutoff)
  {
    if b == [] {
      assert a + b == a;
    } else {
      assert (a + b)[..|a + b| - 1] == a + b[..|b| - 1];
      KeptInOrder(a, b[..|b| - 1], cutoff);
    }
  }

  lemma {:induction false} NotBeforeMembers(entries: seq<Entry>, cutoff: int, e: Entry)
    ensures e in NotBefore(entries, cutoff) <==> e in entries && cutoff <= e.timestamp
  {
    if entries != [] {
      NotBeforeMembers(entries[..|entries| - 1], cutoff, e);
      assert entries == entries[..|entries| - 1] + [entries[|entries| - 1]];
    }
  }

  /** Something is removed exactly if some entry is older than the cutoff. */
  lemma {:induction false} StaleMeans(lines: seq<Line>, cutoff: int)
    ensures StaleCount(lines, cutoff) > 0 <==>
            exists i :: 0 <= i < |lines| && lines[i].Written? && lines[i].entry.timestamp < cutoff
  {
    if lines != [] {
      var init := lines[..|lines| - 1];
      StaleMeans(init, cutoff);
      assert forall i :: 0 <= i < |init| ==> init[i] == lines[i];
    }
  }
}
