/** Monitoring jobs (internal/config/jobs.go) and the hosts they apply to
    (cmd/server/monitor.go). */
module Jobs {

  datatype Job = Job(
    id: string,
    enabled: bool,
    monitorIntervalSeconds: int,
    notifications: seq<string>,
    dockerHostID: string,
    dockerHostIDs: seq<string>)

  /** A job without host IDs applies to every host. */
  predicate AppliesTo(j: Job, hostID: string) {
    j.dockerHostIDs == [] || hostID in j.dockerHostIDs
  }

  /** The jobs that apply to a host, in their order. */
  function ForHost(jobs: seq<Job>, hostID: string): seq<Job> {
    if jobs == [] then []
    else ForHost(jobs[..|jobs| - 1], hostID)
         + if AppliesTo(jobs[|jobs| - 1], hostID) then [jobs[|jobs| - 1]] else []
  }

  lemma {:induction false} ForHostMembers(jobs: seq<Job>, hostID: string)
    ensures forall j: Job :: j in ForHost(jobs, hostID) <==> j in jobs && AppliesTo(j, hostID)
  {
    if jobs != [] {
      ForHostMembers(jobs[..|jobs| - 1], hostID);
      assert jobs == jobs[..|jobs| - 1] + [jobs[|jobs| - 1]];
    }
  }

  method JobsForHost(jobs: seq<Job>, hostID: string) returns (out: seq<Job>)
    ensures out == ForHost(jobs, hostID)
    ensures forall j: Job :: j in out <==> j in jobs && (|j.dockerHostIDs| > 0 ==> hostID in j.dockerHostIDs)
  {
    out := [];
    for i := 0 to |jobs|
      invariant out == ForHost(jobs[..i], hostID)
    {
      assert jobs[..i + 1][..i] == jobs[..i];
      if AppliesTo(jobs[i], hostID) { out := out + [jobs[i]]; }
    }
    assert jobs[..|jobs|] == jobs;
    ForHostMembers(jobs, hostID);
  }

  /** Each job is judged on its own, and the order is kept. */
  lemma {:induction false} ForHostInOrder(a: seq<Job>, b: seq<Job>, hostID: string)
    ensures ForHost(a + b, hostID) == ForHost(a, hostID) + ForHost(b, hostID)
  {
    if b == [] {
      assert a + b == a;
    } else {
      assert (a + b)[..|a + b| - 1] == a + b[..|b| - 1];
      ForHostInOrder(a, b[..|b| - 1], hostID);
    }
  }
}
