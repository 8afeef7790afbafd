/** ID migrations: notification profiles and everything that refers to them
    (internal/config/notifications.go, internal/config/notification_templates_store.go), and jobs
    (internal/config/jobs.go). */
module Migration {
  import opened Common
  import opened Jobs

  /** A profile; `details` stands for everything but its ID. */
  datatype Profile = Profile(id: string, details: string)

  const PROFILE_PREFIX := "profile-"
  const UI_PREFIX := "p-ui-"
  const AGENT_PREFIX := "notification-agent-"
  const RULE_PREFIX := "rule-"
  const JOB_PREFIX := "job-"

  predicate IsLegacy(id: string) {
    PROFILE_PREFIX <= id || UI_PREFIX <= id
  }

  function NewID(id: string): string
    requires IsLegacy(id)
  {
    if PROFILE_PREFIX <= id then AGENT_PREFIX + id[|PROFILE_PREFIX|..]
    else AGENT_PREFIX + id[|UI_PREFIX|..]
  }

  lemma NewIDIsNotLegacy(id: string)
    requires IsLegacy(id)
    ensures !IsLegacy(NewID(id))
  {
    assert NewID(id)[0] == 'n' && PROFILE_PREFIX[0] == 'p' && UI_PREFIX[0] == 'p';
  }

  /** What an ID becomes under a mapping; an ID the mapping does not have stays. */
  function Target(m: map<string, string>, id: string): string {
    if id in m then m[id] else id
  }

  function RenamedProfile(p: Profile): Profile {
    if IsLegacy(p.id) then p.(id := NewID(p.id)) else p
  }

  function Renamed(fileVersion: int, profiles: seq<Profile>): seq<Profile> {
    if fileVersion < 1 then seq(|profiles|, i requires 0 <= i < |profiles| => RenamedProfile(profiles[i]))
    else profiles
  }

  function MappingOf(profiles: seq<Profile>): map<string, string> {
    if profiles == [] then map[]
    else
      var m := MappingOf(profiles[..|profiles| - 1]);
      var id := profiles[|profiles| - 1].id;
      if IsLegacy(id) then m[id := NewID(id)] else m
  }

  function Mapping(fileVersion: int, profiles: seq<Profile>): map<string, string> {
    if fileVersion < 1 then MappingOf(profiles) else map[]
  }

  predicate HasID(profiles: seq<Profile>, id: string) {
    exists i :: 0 <= i < |profiles| && profiles[i].id == id
  }

  lemma {:induction false} InMapping(profiles: seq<Profile>, id: string)
    ensures id in MappingOf(profiles) <==> IsLegacy(id) && HasID(profiles, id)
    ensures id in MappingOf(profiles) ==> MappingOf(profiles)[id] == NewID(id)
  {
    if profiles != [] {
      var n := |profiles| - 1;
      InMapping(profiles[..n], id);
      assert HasID(profiles, id) <==> profiles[n].id == id || HasID(profiles[..n], id) by {
        if HasID(profiles, id) {
          var i :| 0 <= i < |profiles| && profiles[i].id == id;
          assert i < n ==> profiles[..n][i].id == id;
        }
        if HasID(profiles[..n], id) {
          var i :| 0 <= i < n && profiles[..n][i].id == id;
          assert profiles[i].id == id;
        }
      }
    }
  }

  method MigrateNotificationProfiles(fileVersion: int, profiles: array<Profile>)
    returns (migrated: bool, idMapping: map<string, string>)
    modifies profiles
    ensures profiles[..] == Renamed(fileVersion, old(profiles[..]))
    ensures idMapping == Mapping(fileVersion, old(profiles[..]))
    ensures migrated <==> idMapping != map[]
  {
    migrated, idMapping := false, map[];
    if fileVersion < 1 {
      ghost var was := profiles[..];
      for i := 0 to profiles.Length
        invariant forall k :: 0 <= k < i ==> profiles[k] == RenamedProfile(was[k])
        invariant forall k :: i <= k < profiles.Length ==> profiles[k] == was[k]
        invariant idMapping == MappingOf(was[..i])
        invariant migrated <==> idMapping != map[]
      {
        assert was[..i + 1][..i] == was[..i];
        var p := profiles[i];
        if IsLegacy(p.id) {
          var newID := NewID(p.id);
          idMapping := idMapping[p.id := newID];
          assert p.id in idMapping;
          profiles[i] := profiles[i].(id := newID);
          migrated := true;
        }
      }
      assert was[..profiles.Length] == was;
    }
  }

  // ---------- references from jobs ----------

  function Retargeted(m: map<string, string>, ids: seq<string>): seq<string> {
    seq(|ids|, k requires 0 <= k < |ids| => Target(m, ids[k]))
  }

  function RetargetedJob(m: map<string, string>, j: Job): Job {
    j.(notifications := Retargeted(m, j.notifications))
  }

  predicate Mentions(m: map<string, string>, ids: seq<string>) {
    exists k :: 0 <= k < |ids| && ids[k] in m
  }

  method ApplyNotificationIDMappingToJobs(jobs: array<Job>, idMapping: map<string, string>) returns (changed: bool)
    modifies jobs
    ensures forall i :: 0 <= i < jobs.Length ==> jobs[i] == RetargetedJob(idMapping, old(jobs[i]))
    ensures changed <==> exists i :: 0 <= i < jobs.Length && Mentions(idMapping, old(jobs[i].notifications))
  {
    changed := false;
    for i := 0 to jobs.Length
      invariant forall x :: 0 <= x < i ==> jobs[x] == RetargetedJob(idMapping, old(jobs[x]))
      invariant forall x :: i <= x < jobs.Length ==> jobs[x] == old(jobs[x])
      invariant changed <==> exists x :: 0 <= x < i && Mentions(idMapping, old(jobs[x].notifications))
    {
      var before := jobs[i].notifications;
      var now := before;
      var hit := false;
      for k := 0 to |before|
        invariant |now| == |before|
        invariant forall x :: 0 <= x < k ==> now[x] == Target(idMapping, before[x])
        invariant forall x :: k <= x < |before| ==> now[x] == before[x]
        invariant hit <==> exists x :: 0 <= x < k && before[x] in idMapping
      {
        if before[k] in idMapping {
          now := now[k := idMapping[before[k]]];
          hit := true;
        }
      }
      assert now == Retargeted(idMapping, before);
      assert hit <==> Mentions(idMapping, old(jobs[i].notifications));
      jobs[i] := jobs[i].(notifications := now);
      changed := changed || hit;
    }
  }

  /** The profile a reference means: the senders index profiles by ID, so a later profile with
      the same ID hides an earlier one. */
  function Resolve(profiles: seq<Profile>, id: string): Option<nat> {
    if profiles == [] then None
    else if profiles[|profiles| - 1].id == id then Some(|profiles| - 1)
    else Resolve(profiles[..|profiles| - 1], id)
  }

  lemma {:induction false} ResolveFindsLast(profiles: seq<Profile>, id: string, i: nat)
    requires i < |profiles|
    ensures Resolve(profiles, id) == Some(i)
            <==> profiles[i].id == id && forall k :: i < k < |profiles| ==> profiles[k].id != id
  {
    var n := |profiles| - 1;
    if profiles[n].id != id && i < n {
      ResolveFindsLast(profiles[..n], id, i);
      assert forall k :: i < k < n ==> profiles[..n][k] == profiles[k];
    } else if i == n {
      ResolveBelow(profiles[..n], id);
    }
  }

  lemma {:induction false} ResolveBelow(profiles: seq<Profile>, id: string)
    ensures Resolve(profiles, id).Some? ==> Resolve(profiles, id).value < |profiles|
    ensures Resolve(profiles, id).Some? <==> HasID(profiles, id)
  {
    if profiles != [] {
      var n := |profiles| - 1;
      ResolveBelow(profiles[..n], id);
      if HasID(profiles, id) && profiles[n].id != id {
        var i :| 0 <= i < |profiles| && profiles[i].id == id;
        assert profiles[..n][i].id == id;
      }
      if HasID(profiles[..n], id) {
        var i :| 0 <= i < n && profiles[..n][i].id == id;
        assert profiles[i].id == id;
      }
    }
  }

  /** The profile at `i` has another ID than `ref` but gets the ID that `ref` turns into. */
  predicate Captures(profiles: seq<Profile>, m: map<string, string>, ref: string, i: nat)
    requires i < |profiles|
  {
    profiles[i].id != ref && Target(m, profiles[i].id) == Target(m, ref)
  }

  function RenamedBy(profiles: seq<Profile>, m: map<string, string>): seq<Profile> {
    seq(|profiles|, i requires 0 <= i < |profiles| => profiles[i].(id := Target(m, profiles[i].id)))
  }

  lemma RenamingIsByMapping(fileVersion: int, profiles: seq<Profile>)
    ensures Renamed(fileVersion, profiles) == RenamedBy(profiles, Mapping(fileVersion, profiles))
  {
    forall i | 0 <= i < |profiles|
      ensures Renamed(fileVersion, profiles)[i] == RenamedBy(profiles, Mapping(fileVersion, profiles))[i]
    {
      assert HasID(profiles, profiles[i].id);
      InMapping(profiles, profiles[i].id);
    }
  }

  /** Under any mapping, a rewritten reference means the same profile as before exactly when no
      profile behind the one it meant has another ID that becomes the same as the reference. */
  lemma {:induction false} ReferenceKept(profiles: seq<Profile>, m: map<string, string>, ref: string)
    ensures Resolve(RenamedBy(profiles, m), Target(m, ref)) == Resolve(profiles, ref)
            <==> forall i: nat :: i < |profiles| && Captures(profiles, m, ref, i) ==>
                   Resolve(profiles, ref).Some? && i < Resolve(profiles, ref).value
  {
    ResolveBelow(profiles, ref);
    if profiles != [] {
      var n := |profiles| - 1;
      var init := profiles[..n];
      assert RenamedBy(profiles, m)[..n] == RenamedBy(init, m);
      ReferenceKept(init, m, ref);
      ResolveBelow(init, ref);
      ResolveBelow(RenamedBy(init, m), Target(m, ref));
      assert forall i: nat :: i < n ==> (Captures(init, m, ref, i) <==> Captures(profiles, m, ref, i));
      if profiles[n].id != ref && Captures(profiles, m, ref, n) {
        assert Resolve(RenamedBy(profiles, m), Target(m, ref)) == Some(n);
      }
    }
  }

  /** No profile's new ID is in use: not by another profile, and not in `others`. */
  ghost predicate Fresh(profiles: seq<Profile>, others: iset<string>) {
    forall p: Profile :: p in profiles && IsLegacy(p.id) ==>
      && NewID(p.id) !in others
      && (forall q: Profile :: q in profiles ==>
            && q.id != NewID(p.id)
            && (IsLegacy(q.id) && NewID(q.id) == NewID(p.id) ==> q.id == p.id))
  }

  /** When new IDs are not in use, every job's notification list means, position by position, the
      same profiles after both rewrites. */
  lemma ReferencesSurvive(fileVersion: int, profiles: seq<Profile>, ids: seq<string>, k: nat)
    requires Fresh(profiles, iset id | id in ids)
    requires k < |ids|
    ensures var m := Mapping(fileVersion, profiles);
      && |Retargeted(m, ids)| == |ids|
      && Resolve(Renamed(fileVersion, profiles), Retargeted(m, ids)[k]) == Resolve(profiles, ids[k])
  {
    var m := Mapping(fileVersion, profiles);
    RenamingIsByMapping(fileVersion, profiles);
    ReferenceKept(profiles, m, ids[k]);
    forall i: nat | i < |profiles| ensures !Captures(profiles, m, ids[k], i) {
      assert HasID(profiles, profiles[i].id) && profiles[i] in profiles;
      InMapping(profiles, profiles[i].id);
      InMapping(profiles, ids[k]);
      if ids[k] in m {
        var x :| 0 <= x < |profiles| && profiles[x].id == ids[k];
        assert profiles[x] in profiles;
      }
    }
  }

  /** Migrating again changes nothing, even if the file still claimed to be old. */
  lemma ProfilesMigrateOnce(fileVersion: int, again: int, profiles: seq<Profile>)
    requires fileVersion < 1 || fileVersion <= again
    ensures var once := Renamed(fileVersion, profiles);
      Renamed(again, once) == once && Mapping(again, once) == map[]
  {
    var once := Renamed(fileVersion, profiles);
    if again < 1 {
      forall i | 0 <= i < |once| ensures !IsLegacy(once[i].id) {
        if IsLegacy(profiles[i].id) { NewIDIsNotLegacy(profiles[i].id); }
      }
      assert Renamed(again, once) == once;
      forall id: string ensures id !in Mapping(again, once) {
        InMapping(once, id);
      }
      assert Mapping(again, once) == map[];
    }
  }

  // ---------- stored templates ----------

  function Move(templates: map<string, string>, oldID: string, newID: string): map<string, string> {
    if oldID in templates then templates[newID := templates[oldID]] - {oldID} else templates
  }

  /** The loop's effect when it meets the keys of `m` in the given order. */
  function MoveAll(templates: map<string, string>, m: map<string, string>, order: seq<string>): map<string, string>
    requires forall id :: id in order ==> id in m
  {
    if order == [] then templates
    else
      var last := order[|order| - 1];
      Move(MoveAll(templates, m, order[..|order| - 1]), last, m[last])
  }

  predicate Distinct(order: seq<string>) {
    forall i, k :: 0 <= i < k < |order| ==> order[i] != order[k]
  }

  ghost predicate IsOrderOf(order: seq<string>, m: map<string, string>) {
    Distinct(order) && forall id :: id in order <==> id in m
  }

  method MigrateAgentTemplateIDs(templates: map<string, string>, idMapping: map<string, string>)
    returns (out: map<string, string>, changed: bool, ghost order: seq<string>)
    ensures IsOrderOf(order, idMapping) && out == MoveAll(templates, idMapping, order)
    ensures changed <==> exists id :: id in idMapping && id in templates
  {
    out, changed, order := templates, false, [];
    var rest := idMapping.Keys;
    while rest != {}
      invariant rest <= idMapping.Keys && Distinct(order)
      invariant forall id :: id in order <==> id in idMapping && id !in rest
      invariant out == MoveAll(templates, idMapping, order)
      invariant changed <==> exists id :: id in order && id in templates
      invariant forall id :: id in rest && id in templates ==> id in out
      invariant !changed ==> out == templates
      decreases |rest|
    {
      var oldID :| oldID in rest;
      rest := rest - {oldID};
      if oldID in out {
        out := out[idMapping[oldID] := out[oldID]];
        out := out - {oldID};
        changed := true;
      }
      ghost var was := order;
      order := order + [oldID];
      assert order[..|order| - 1] == was;
    }
  }

  function Stored(templates: map<string, string>, id: string): Option<string> {
    if id in templates then Some(templates[id]) else None
  }

  /** Two IDs with different stored templates are given the same new ID. */
  ghost predicate Clash(templates: map<string, string>, m: map<string, string>) {
    exists a, b :: a in m && b in m && a in templates && b in templates && m[a] == m[b] && templates[a] != templates[b]
  }

  lemma {:induction false} Untouched(templates: map<string, string>, m: map<string, string>, order: seq<string>, id: string)
    requires forall x :: x in order ==> x in m && m[x] != id && x != id
    ensures Stored(MoveAll(templates, m, order), id) == Stored(templates, id)
  {
    if order != [] {
      Untouched(templates, m, order[..|order| - 1], id);
    }
  }

  /** What `id` finds once the IDs in `order` have been moved. */
  lemma {:induction false} AfterMoves(templates: map<string, string>, m: map<string, string>, order: seq<string>, id: string)
    requires Distinct(order) && forall x :: x in order ==> x in m
    requires forall x :: x in m ==> m[x] !in m
    requires !Clash(templates, m)
    ensures id in order ==> id !in MoveAll(templates, m, order)
    ensures forall a :: a in order && m[a] == id && a in templates ==>
              id in MoveAll(templates, m, order) && MoveAll(templates, m, order)[id] == templates[a]
    ensures id !in order && (forall a :: a in order && m[a] == id ==> a !in templates) ==>
              && (id in MoveAll(templates, m, order) <==> id in templates)
              && (id in templates ==> MoveAll(templates, m, order)[id] == templates[id])
  {
    if order != [] {
      var before := order[..|order| - 1];
      var last := order[|order| - 1];
      assert last !in before;
      assert order == before + [last];
      AfterMoves(templates, m, before, id);
      AfterMoves(templates, m, before, last);
      assert forall a :: a in before ==> m[a] != last;
    }
  }

  /** The result does not depend on map order exactly when no two IDs with different stored
      templates are given the same new one. */
  lemma TemplateOrderIrrelevant(templates: map<string, string>, m: map<string, string>)
    requires forall x :: x in m ==> m[x] !in m
    ensures !Clash(templates, m) <==>
            (forall o1, o2 :: IsOrderOf(o1, m) && IsOrderOf(o2, m) ==> MoveAll(templates, m, o1) == MoveAll(templates, m, o2))
  {
    if Clash(templates, m) {
      var o1, o2 := ClashMatters(templates, m);
    } else {
      forall o1, o2 | IsOrderOf(o1, m) && IsOrderOf(o2, m)
        ensures MoveAll(templates, m, o1) == MoveAll(templates, m, o2)
      {
        SameMoves(templates, m, o1, o2);
      }
    }
  }

  /** Such IDs exist: the two legacy forms of one number are given the same new ID, so of two
      templates one is lost, and map order decides which. */
  lemma LegacyFormsClash(a: string, b: string) returns (profiles: seq<Profile>, templates: map<string, string>)
    requires a != b
    ensures profiles == [Profile("profile-1", a), Profile("p-ui-1", b)]
    ensures templates == map["profile-1" := a, "p-ui-1" := b]
    ensures Clash(templates, Mapping(0, profiles))
    ensures exists o1, o2 :: IsOrderOf(o1, Mapping(0, profiles)) && IsOrderOf(o2, Mapping(0, profiles))
              && MoveAll(templates, Mapping(0, profiles), o1) != MoveAll(templates, Mapping(0, profiles), o2)
  {
    profiles := [Profile("profile-1", a), Profile("p-ui-1", b)];
    templates := map["profile-1" := a, "p-ui-1" := b];
    var m := Mapping(0, profiles);
    assert HasID(profiles, profiles[0].id) && HasID(profiles, profiles[1].id);
    LegacyFormsMeet();
    forall x | x in m ensures m[x] !in m {
      InMapping(profiles, x);
      NewIDIsNotLegacy(x);
      InMapping(profiles, NewID(x));
    }
    InMapping(profiles, "profile-1");
    InMapping(profiles, "p-ui-1");
    assert templates["profile-1"] != templates["p-ui-1"];
    TemplateOrderIrrelevant(templates, m);
  }

  lemma LegacyFormsMeet()
    ensures IsLegacy("profile-1") && IsLegacy("p-ui-1") && NewID("profile-1") == NewID("p-ui-1")
  {
    assert "profile-1"[|PROFILE_PREFIX|..] == "1" && "p-ui-1"[|UI_PREFIX|..] == "1";
  }

  /** And a reference can come to mean another profile: "profile-1" then means what was "p-ui-1". */
  lemma LegacyReferenceMoves(a: string, b: string)
    ensures var profiles := [Profile("profile-1", a), Profile("p-ui-1", b)];
      && Resolve(profiles, "profile-1") == Some(0)
      && Resolve(Renamed(0, profiles), Target(Mapping(0, profiles), "profile-1")) == Some(1)
  {
    var profiles := [Profile("profile-1", a), Profile("p-ui-1", b)];
    var m := Mapping(0, profiles);
    LegacyFormsMeet();
    assert HasID(profiles, profiles[0].id) && HasID(profiles, profiles[1].id);
    InMapping(profiles, "profile-1");
    InMapping(profiles, "p-ui-1");
    assert profiles[0].id != profiles[1].id;
    ResolveFindsLast(profiles, "profile-1", 0);
    ResolveFindsLast(Renamed(0, profiles), Target(m, "profile-1"), 1);
  }

  lemma SameMoves(templates: map<string, string>, m: map<string, string>, o1: seq<string>, o2: seq<string>)
    requires forall x :: x in m ==> m[x] !in m
    requires !Clash(templates, m)
    requires IsOrderOf(o1, m) && IsOrderOf(o2, m)
    ensures MoveAll(templates, m, o1) == MoveAll(templates, m, o2)
  {
    var r1, r2 := MoveAll(templates, m, o1), MoveAll(templates, m, o2);
    forall id: string ensures (id in r1 <==> id in r2) && (id in r1 && id in r2 ==> r1[id] == r2[id]) {
      AfterMoves(templates, m, o1, id);
      AfterMoves(templates, m, o2, id);
    }
  }

  lemma ClashMatters(templates: map<string, string>, m: map<string, string>) returns (o1: seq<string>, o2: seq<string>)
    requires Clash(templates, m) && forall x :: x in m ==> m[x] !in m
    ensures IsOrderOf(o1, m) && IsOrderOf(o2, m) && MoveAll(templates, m, o1) != MoveAll(templates, m, o2)
  {
    var a, b :| a in m && b in m && a in templates && b in templates && m[a] == m[b] && templates[a] != templates[b];
    var rest := SomeOrder(m.Keys - {a, b});
    o1, o2 := rest + [a, b], rest + [b, a];
    assert IsOrderOf(o1, m) && IsOrderOf(o2, m);
    LastMoveWins(templates, m, rest, a, b);
    LastMoveWins(templates, m, rest, b, a);
  }

  lemma LastMoveWins(
      templates: map<string, string>, m: map<string, string>, rest: seq<string>, a: string, b: string)
    requires forall x :: x in m ==> m[x] !in m
    requires a in m && b in m && a != b && m[a] == m[b] && a in templates && b in templates
    requires forall x :: x in rest ==> x in m && x != a && x != b
    ensures Stored(MoveAll(templates, m, rest + [a, b]), m[a]) == Some(templates[b])
  {
    Untouched(templates, m, rest, b);
    assert rest + [a, b] == rest + [a] + [b];
    MoveNext(templates, m, rest, a);
    MoveNext(templates, m, rest + [a], b);
  }

  lemma MoveNext(templates: map<string, string>, m: map<string, string>, order: seq<string>, id: string)
    requires id in m && forall x :: x in order ==> x in m
    ensures MoveAll(templates, m, order + [id]) == Move(MoveAll(templates, m, order), id, m[id])
  {
    assert (order + [id])[..|order|] == order;
  }

  lemma SomeOrder(s: set<string>) returns (order: seq<string>)
    ensures Distinct(order) && forall x :: x in order <==> x in s
  {
    order := [];
    var rest := s;
    while rest != {}
      invariant rest <= s && Distinct(order) && forall x :: x in order <==> x in s && x !in rest
      decreases |rest|
    {
      var x :| x in rest;
      order := order + [x];
      rest := rest - {x};
    }
  }

  /** Every profile finds under its new ID the template it had under the old one, whatever the
      order, when no new ID is in use by a profile or a stored template. */
  lemma TemplatesStayWithProfiles(
      fileVersion: int, profiles: seq<Profile>, templates: map<string, string>, order: seq<string>, i: nat)
    requires Fresh(profiles, iset id | id in templates)
    requires IsOrderOf(order, Mapping(fileVersion, profiles))
    requires i < |profiles|
    ensures Stored(MoveAll(templates, Mapping(fileVersion, profiles), order), Renamed(fileVersion, profiles)[i].id)
            == Stored(templates, profiles[i].id)
  {
    var m := Mapping(fileVersion, profiles);
    forall x | x in m ensures IsLegacy(x) && m[x] == NewID(x) && m[x] !in m && HasID(profiles, x) {
      InMapping(profiles, x);
      NewIDIsNotLegacy(x);
      InMapping(profiles, NewID(x));
    }
    assert HasID(profiles, profiles[i].id) && profiles[i] in profiles;
    InMapping(profiles, profiles[i].id);
    forall a, b | a in m && b in m && m[a] == m[b] ensures a == b {
      var x :| 0 <= x < |profiles| && profiles[x].id == a;
      var y :| 0 <= y < |profiles| && profiles[y].id == b;
      assert profiles[x] in profiles && profiles[y] in profiles;
    }
    forall a | a in m ensures m[a] != profiles[i].id && m[a] !in templates {
      var x :| 0 <= x < |profiles| && profiles[x].id == a;
      assert profiles[x] in profiles;
    }
    AfterMoves(templates, m, order, Target(m, profiles[i].id));
  }

  // ---------- jobs ----------

  /** The hosts a stored job was meant for: before version 2 a single host ID counted when there
      was no list. */
  function HostsMeant(fileVersion: int, j: Job): seq<string> {
    if fileVersion < 2 && j.dockerHostIDs == [] && j.dockerHostID != "" then [j.dockerHostID]
    else j.dockerHostIDs
  }

  function MigratedID(fileVersion: int, id: string): string {
    if fileVersion < 1 && RULE_PREFIX <= id then JOB_PREFIX + id[|RULE_PREFIX|..] else id
  }

  function MigratedJob(fileVersion: int, j: Job): Job {
    var k := j.(id := MigratedID(fileVersion, j.id), dockerHostIDs := HostsMeant(fileVersion, j));
    if fileVersion < 2 then k.(dockerHostID := "") else k
  }

  predicate NeedsMigration(fileVersion: int, j: Job) {
    MigratedID(fileVersion, j.id) != j.id || HostsMeant(fileVersion, j) != j.dockerHostIDs
  }

  lemma RulePrefixChanges(id: string)
    requires RULE_PREFIX <= id
    ensures JOB_PREFIX + id[|RULE_PREFIX|..] != id
    ensures !(RULE_PREFIX <= JOB_PREFIX + id[|RULE_PREFIX|..])
  {
    assert (JOB_PREFIX + id[|RULE_PREFIX|..])[0] == 'j' && id[0] == RULE_PREFIX[0] == 'r';
  }

  method MigrateJobs(fileVersion: int, jobs: array<Job>) returns (migrated: bool)
    modifies jobs
    ensures forall i :: 0 <= i < jobs.Length ==> jobs[i] == MigratedJob(fileVersion, old(jobs[i]))
    ensures migrated <==> exists i :: 0 <= i < jobs.Length && NeedsMigration(fileVersion, old(jobs[i]))
  {
    migrated := false;
    if fileVersion < 1 {
      for i := 0 to jobs.Length
        invariant forall x :: 0 <= x < i ==> jobs[x] == old(jobs[x]).(id := MigratedID(0, old(jobs[x].id)))
        invariant forall x :: i <= x < jobs.Length ==> jobs[x] == old(jobs[x])
        invariant migrated <==> exists x :: 0 <= x < i && MigratedID(0, old(jobs[x].id)) != old(jobs[x].id)
      {
        if RULE_PREFIX <= jobs[i].id {
          RulePrefixChanges(jobs[i].id);
          jobs[i] := jobs[i].(id := JOB_PREFIX + jobs[i].id[|RULE_PREFIX|..]);
          migrated := true;
        }
      }
    }
    ghost var renamed := migrated;
    assert renamed <==> exists x :: 0 <= x < jobs.Length && MigratedID(fileVersion, old(jobs[x].id)) != old(jobs[x].id);
    if fileVersion < 2 {
      for i := 0 to jobs.Length
        invariant forall x :: 0 <= x < i ==> jobs[x] == MigratedJob(fileVersion, old(jobs[x]))
        invariant forall x :: i <= x < jobs.Length ==>
                    jobs[x] == old(jobs[x]).(id := MigratedID(fileVersion, old(jobs[x].id)))
        invariant migrated <==>
                    (renamed ||
                     exists x :: 0 <= x < i && HostsMeant(fileVersion, old(jobs[x])) != old(jobs[x].dockerHostIDs))
      {
        var j := jobs[i];
        if j.dockerHostID != "" && j.dockerHostIDs == [] {
          jobs[i] := jobs[i].(dockerHostIDs := [j.dockerHostID]);
          migrated := true;
        }
        jobs[i] := jobs[i].(dockerHostID := "");
      }
    }
  }

  /** Which hosts a stored job was for: its list if it has one, else, before version 2, its single
      host if it has one, else all. */
  predicate WasFor(fileVersion: int, j: Job, hostID: string) {
    if j.dockerHostIDs != [] then exists k :: 0 <= k < |j.dockerHostIDs| && j.dockerHostIDs[k] == hostID
    else fileVersion < 2 && j.dockerHostID != "" ==> hostID == j.dockerHostID
  }

  /** After migration a host gets exactly the jobs that were for it, with nothing else about them
      changed but a legacy ID and the field given up. */
  lemma MigrationKeepsHosts(fileVersion: int, j: Job, hostID: string)
    ensures var k := MigratedJob(fileVersion, j);
      && (AppliesTo(k, hostID) <==> WasFor(fileVersion, j, hostID))
      && k.notifications == j.notifications && k.enabled == j.enabled
      && k.monitorIntervalSeconds == j.monitorIntervalSeconds
  {
    if hostID in j.dockerHostIDs {
      var k :| 0 <= k < |j.dockerHostIDs| && j.dockerHostIDs[k] == hostID;
    }
  }

  /** Migrating again changes nothing and asks for no write, at any file version: and a job that
      asked for none in the first place has at most lost a host ID that nothing read. */
  lemma JobsMigrateOnce(fileVersion: int, again: int, j: Job)
    requires fileVersion <= 0 || fileVersion <= again
    ensures var once := MigratedJob(fileVersion, j);
      && !NeedsMigration(again, once)
      && (fileVersion < 2 ==> MigratedJob(again, once) == once)
    ensures !NeedsMigration(fileVersion, j) ==> MigratedJob(fileVersion, j).(dockerHostID := j.dockerHostID) == j
  {
    if RULE_PREFIX <= j.id { RulePrefixChanges(j.id); }
  }

  // ---------- in terms of the text of an ID ----------

  /** Legacy IDs are those of the two old forms. */
  lemma LegacyMeans(id: string)
    ensures IsLegacy(id) <==> exists x: string :: id == "profile-" + x || id == "p-ui-" + x
  {
    if PROFILE_PREFIX <= id {
      assert id == "profile-" + id[|PROFILE_PREFIX|..];
    } else if UI_PREFIX <= id {
      assert id == "p-ui-" + id[|UI_PREFIX|..];
    }
  }

  /** A renamed profile keeps what follows the prefix, whichever form it had, so different numbers
      keep different IDs. */
  lemma NewIDMeans(x: string, y: string)
    ensures IsLegacy("profile-" + x) && NewID("profile-" + x) == "notification-agent-" + x
    ensures IsLegacy("p-ui-" + x) && NewID("p-ui-" + x) == "notification-agent-" + x
    ensures NewID("profile-" + x) == NewID("p-ui-" + y) ==> x == y
  {
    assert ("profile-" + x)[|PROFILE_PREFIX|..] == x && PROFILE_PREFIX <= "profile-" + x;
    assert ("p-ui-" + x)[|UI_PREFIX|..] == x && UI_PREFIX <= "p-ui-" + x;
    assert ("p-ui-" + y)[|UI_PREFIX|..] == y && UI_PREFIX <= "p-ui-" + y;
    assert ("p-ui-" + x)[1] == '-' && ("profile-" + x)[1] == 'r' && ("p-ui-" + y)[1] == '-';
    assert ("notification-agent-" + x)[|AGENT_PREFIX|..] == x && ("notification-agent-" + y)[|AGENT_PREFIX|..] == y;
  }

  /** What becomes of each profile: in an old file a legacy ID is renamed and everything else stays. */
  lemma RenamedMeans(fileVersion: int, profiles: seq<Profile>, i: nat)
    requires i < |profiles|
    ensures var p, q := profiles[i], Renamed(fileVersion, profiles);
      && |q| == |profiles| && q[i].details == p.details
      && q[i].id == if fileVersion <= 0 && IsLegacy(p.id) then NewID(p.id) else p.id
  {}

  /** What becomes of each job: an old rule ID keeps its number, and a later file keeps IDs and host
      lists as they are. */
  lemma MigratedJobMeans(fileVersion: int, j: Job, x: string)
    ensures fileVersion <= 0 && j.id == "rule-" + x ==> MigratedJob(fileVersion, j).id == "job-" + x
    ensures fileVersion > 0 || !("rule-" <= j.id) ==> MigratedJob(fileVersion, j).id == j.id
    ensures fileVersion > 1 ==> MigratedJob(fileVersion, j) == j
    ensures fileVersion <= 1 ==> MigratedJob(fileVersion, j).dockerHostID == ""
  {
    assert ("rule-" + x)[|RULE_PREFIX|..] == x;
  }
}
