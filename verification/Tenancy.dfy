/** Tenant isolation: a call made for a tenant sees and changes that tenant's rows only. */
module Tenancy {
  import opened Options
  import opened Domain
  import opened ClusterModel
  import opened Invariant
  import opened Steps

  /** The rows of one tenant. */
  ghost function Restrict(s: Cluster, t: Tenant): Cluster {
    Cluster(
      map j | j in s.jobs && s.jobs[j].tenant == t :: s.jobs[j],
      map w | w in s.workers && s.workers[w].tenant == t :: s.workers[w],
      map n | n in s.nodes && s.nodes[n].tenant == t :: s.nodes[n],
      map j | j in s.leases && s.leases[j].tenant == t :: s.leases[j],
      IssuedTo(s.jobs, s.issued, t))
  }

  ghost function IssuedTo(jobs: map<JobId, Job>, issued: map<LeaseId, JobId>, t: Tenant): map<LeaseId, JobId> {
    map l | l in issued && issued[l] in jobs && jobs[issued[l]].tenant == t :: issued[l]
  }

  lemma RestrictInv(s: Cluster, t: Tenant)
    requires Inv(s)
    ensures Inv(Restrict(s, t))
  {
    var s' := Restrict(s, t);
    forall j | j in s'.leases ensures LeaseOk(s', j) {
      assert LeaseOk(s, j);
    }
    forall w | w in s'.workers && s'.workers[w].runningJob.Some?
      ensures s'.workers[w].runningJob.value in s'.leases && s'.leases[s'.workers[w].runningJob.value].worker == w
    {
      assert LeaseOk(s, s.workers[w].runningJob.value);
    }
    RestrictJobs(s, t);
    RestrictResources(s, t);
  }

  lemma RestrictJobs(s: Cluster, t: Tenant)
    requires Inv(s)
    ensures JobsOk(Restrict(s, t))
  {
    var s' := Restrict(s, t);
    forall j | j in s'.jobs ensures JobOk(s', j) {
      assert JobOk(s, j);
      assert LeaseIdsOf(s'.issued, j) == LeaseIdsOf(s.issued, j);
      if j in s.leases { assert LeaseOk(s, j); }
    }
  }

  lemma RestrictResources(s: Cluster, t: Tenant)
    requires Inv(s)
    ensures ResourcesOk(Restrict(s, t))
  {
    var s' := Restrict(s, t);
    forall n | n in s'.nodes && Vacant(s'.workers, n) ensures s'.nodes[n].available == s'.nodes[n].capacity {
      forall w | w in s.workers && s.workers[w].node == n ensures s.workers[w].runningJob.None? {
        assert w in s'.workers && s'.workers[w].node == n;
      }
      assert Vacant(s.workers, n);
    }
    forall w | w in s'.workers && s'.workers[w].runningJob.Some? ensures Covers(s', w) {
      assert Covers(s, w);
      assert LeaseOk(s, s.workers[w].runningJob.value);
    }
  }

  //
  // Reads
  //

  lemma ReadsRestrict(s: Cluster, t: Tenant)
    requires Inv(s)
    ensures forall j :: GetJob(Restrict(s, t), j, t) == GetJob(s, j, t)
    ensures forall n :: GetNode(Restrict(s, t), n, t) == GetNode(s, n, t)
    ensures forall j :: LeaseOfJob(Restrict(s, t), j, t) == LeaseOfJob(s, j, t)
    ensures forall w :: GetWorker(Restrict(s, t), w, t) == GetWorker(s, w, t)
  {
    forall w ensures GetWorker(Restrict(s, t), w, t) == GetWorker(s, w, t) {
      if w in s.workers && s.workers[w].runningJob.Some? {
        assert LeaseOk(s, s.workers[w].runningJob.value);
      }
    }
  }

  lemma LeaseOfWorkerRestricts(s: Cluster, w: WorkerId, t: Tenant)
    requires Inv(s)
    ensures LeaseOfWorker(Restrict(s, t), w, t) == LeaseOfWorker(s, w, t)
  {
    RestrictInv(s, t);
    LeaseOfWorkerIs(s, w, t);
    LeaseOfWorkerIs(Restrict(s, t), w, t);
    forall j ensures IsLeaseOf(Restrict(s, t), j, w, t) <==> IsLeaseOf(s, j, w, t) {
    }
  }

  lemma WorkerOfNodeRestricts(s: Cluster, n: NodeId, t: Tenant)
    requires Inv(s)
    ensures WorkerOfNode(Restrict(s, t), n, t) == WorkerOfNode(s, n, t)
  {
    var here, there := WorkerOfNode(s, n, t), WorkerOfNode(Restrict(s, t), n, t);
    forall w ensures IsWorkerOf(Restrict(s, t), w, n, t) <==> IsWorkerOf(s, w, n, t) {
    }
    if here.Some? && there.Some? {
      assert IsWorkerOf(s, there.value, n, t);
    }
  }

  //
  // Writes: a write to a row of tenant t shows in the view of t and in no other
  //

  lemma SaveJobRestricts(s: Cluster, job: Job, u: Tenant)
    requires job.id in s.jobs && s.jobs[job.id].tenant == job.tenant
    ensures Restrict(SaveJob(s, job), u)
            == if u == job.tenant then SaveJob(Restrict(s, u), job) else Restrict(s, u)
  {
    var a := Restrict(SaveJob(s, job), u);
    var b := if u == job.tenant then SaveJob(Restrict(s, u), job) else Restrict(s, u);
    assert a.jobs == b.jobs;
    assert a.issued == b.issued;
  }

  lemma SaveWorkerRestricts(s: Cluster, row: Worker, u: Tenant)
    requires row.id in s.workers ==> s.workers[row.id].tenant == row.tenant
    ensures Restrict(SaveWorker(s, row), u)
            == if u == row.tenant then SaveWorker(Restrict(s, u), row) else Restrict(s, u)
  {
    var a := Restrict(SaveWorker(s, row), u);
    var b := if u == row.tenant then SaveWorker(Restrict(s, u), row) else Restrict(s, u);
    assert a.workers == b.workers;
  }

  lemma SaveNodeRestricts(s: Cluster, node: Node, u: Tenant)
    requires node.id in s.nodes ==> s.nodes[node.id].tenant == node.tenant
    ensures Restrict(SaveNode(s, node), u)
            == if u == node.tenant then SaveNode(Restrict(s, u), node) else Restrict(s, u)
  {
    var a := Restrict(SaveNode(s, node), u);
    var b := if u == node.tenant then SaveNode(Restrict(s, u), node) else Restrict(s, u);
    assert a.nodes == b.nodes;
  }

  lemma SaveLeaseRestricts(s: Cluster, lease: Lease, u: Tenant)
    requires lease.job in s.leases ==> s.leases[lease.job].tenant == lease.tenant
    ensures Restrict(SaveLease(s, lease), u)
            == if u == lease.tenant then SaveLease(Restrict(s, u), lease) else Restrict(s, u)
  {
    var a := Restrict(SaveLease(s, lease), u);
    var b := if u == lease.tenant then SaveLease(Restrict(s, u), lease) else Restrict(s, u);
    assert a.leases == b.leases;
  }

  lemma IssueRestricts(s: Cluster, lid: LeaseId, j: JobId, u: Tenant)
    requires lid !in s.issued && j in s.jobs
    ensures Restrict(Issue(s, lid, j), u)
            == if u == s.jobs[j].tenant then Issue(Restrict(s, u), lid, j) else Restrict(s, u)
  {
    var before, after := IssuedTo(s.jobs, s.issued, u), IssuedTo(s.jobs, s.issued[lid := j], u);
    assert after == if u == s.jobs[j].tenant then before[lid := j] else before;
  }

  lemma DeleteLeaseRestricts(s: Cluster, j: JobId, t: Tenant, u: Tenant)
    ensures Restrict(DeleteLease(s, j, t), u)
            == if u == t then DeleteLease(Restrict(s, u), j, t) else Restrict(s, u)
  {
    var a := Restrict(DeleteLease(s, j, t), u);
    var b := if u == t then DeleteLease(Restrict(s, u), j, t) else Restrict(s, u);
    assert a.leases == b.leases;
  }

  //
  // Calls
  //

  /** The calls a tenant makes. */
  datatype Call =
    | Cancel(j: JobId)
    | Retry(j: JobId)
    | BeatNode(n: NodeId)
    | Drain(n: NodeId)
    | Create(node: Node, managedBy: ManagedBy, newId: WorkerId)
    | Ready(worker: Worker)
    | Beat(w: WorkerId)
    | Start(w: WorkerId, j: JobId)
    | Renew(w: WorkerId, lid: LeaseId, duration: Time)
    | Report(outcome: Outcome, w: WorkerId, j: JobId, lid: LeaseId, exit: Option<int>)

  ghost function Do(s: Cluster, call: Call, t: Tenant, now: Time): Step {
    match call
    case Cancel(j) => CancelJob(s, j, t, now)
    case Retry(j) => RetryJob(s, j, t)
    case BeatNode(n) => HeartbeatNode(s, n, t, now)
    case Drain(n) => DrainNode(s, n, t)
    case Create(node, managedBy, newId) => CreateWorker(s, node, managedBy, newId, now)
    case Ready(worker) => ReadyWorker(s, worker)
    case Beat(w) => WorkerHeartbeat(s, w, t, now)
    case Start(w, j) => StartJob(s, w, j, t, now)
    case Renew(w, lid, duration) => RenewLease(s, w, lid, t, duration, now)
    case Report(outcome, w, j, lid, exit) => ReportOutcome(s, outcome, w, j, t, lid, exit, now)
  }

  /** The two later calls of a registration work on what the earlier ones returned to the tenant. */
  ghost predicate OnCopies(s: Cluster, call: Call, t: Tenant) {
    match call
    case Create(node, _, newId) => node.tenant == t && NodeCopy(s, node) && newId !in s.workers
    case Ready(worker) => worker.tenant == t && WorkerCopy(s, worker)
    case _ => true
  }

  /** A call of tenant t answers as on t's rows alone, leaves t as on t's rows alone, and leaves
      every other tenant u as it was. */
  ghost predicate Isolated(s: Cluster, restricted: Step, full: Step, t: Tenant, u: Tenant) {
    && full.answer == restricted.answer
    && Restrict(full.state, t) == restricted.state
    && (u != t ==> Restrict(full.state, u) == Restrict(s, u))
  }

  lemma CancelIsolated(s: Cluster, j: JobId, t: Tenant, now: Time, u: Tenant)
    requires Inv(s)
    ensures Isolated(s, CancelJob(Restrict(s, t), j, t, now), CancelJob(s, j, t, now), t, u)
  {
    ReadsRestrict(s, t);
    var r := CancelJob(s, j, t, now);
    if r.answer.AJob? && r.answer.job.Some? {
      SaveJobRestricts(s, r.answer.job.value, t);
      SaveJobRestricts(s, r.answer.job.value, u);
    }
  }

  lemma RetryIsolated(s: Cluster, j: JobId, t: Tenant, u: Tenant)
    requires Inv(s)
    ensures Isolated(s, RetryJob(Restrict(s, t), j, t), RetryJob(s, j, t), t, u)
  {
    ReadsRestrict(s, t);
    var r := RetryJob(s, j, t);
    if r.answer.AJob? && r.answer.job.Some? {
      SaveJobRestricts(s, r.answer.job.value, t);
      SaveJobRestricts(s, r.answer.job.value, u);
    }
  }

  lemma NodeCallsIsolated(s: Cluster, n: NodeId, t: Tenant, now: Time, u: Tenant)
    requires Inv(s)
    ensures Isolated(s, HeartbeatNode(Restrict(s, t), n, t, now), HeartbeatNode(s, n, t, now), t, u)
    ensures Isolated(s, DrainNode(Restrict(s, t), n, t), DrainNode(s, n, t), t, u)
  {
    ReadsRestrict(s, t);
    if GetNode(s, n, t).Some? {
      SaveNodeRestricts(s, s.nodes[n].Heartbeat(now), t);
      SaveNodeRestricts(s, s.nodes[n].Heartbeat(now), u);
      SaveNodeRestricts(s, s.nodes[n].Drain(), t);
      SaveNodeRestricts(s, s.nodes[n].Drain(), u);
    }
  }

  lemma BeatIsolated(s: Cluster, w: WorkerId, t: Tenant, now: Time, u: Tenant)
    requires Inv(s)
    ensures Isolated(s, WorkerHeartbeat(Restrict(s, t), w, t, now), WorkerHeartbeat(s, w, t, now), t, u)
  {
    ReadsRestrict(s, t);
    var r := WorkerHeartbeat(s, w, t, now);
    if r.answer.AWorker? {
      SaveWorkerRestricts(s, r.answer.worker, t);
      SaveWorkerRestricts(s, r.answer.worker, u);
    }
  }

  lemma StartIsolated(s: Cluster, w: WorkerId, j: JobId, t: Tenant, now: Time, u: Tenant)
    requires Inv(s)
    ensures Isolated(s, StartJob(Restrict(s, t), w, j, t, now), StartJob(s, w, j, t, now), t, u)
  {
    ReadsRestrict(s, t);
    var r := StartJob(s, w, j, t, now);
    if r.answer.AWorker? {
      var row := s.workers[w];
      assert LeaseOk(s, row.runningJob.value);
      var s1 := SaveWorker(s, row);
      var job := s.jobs[row.runningJob.value].Start(now).value;
      SaveWorkerRestricts(s, row, t);
      SaveWorkerRestricts(s, row, u);
      SaveJobRestricts(s1, job, t);
      SaveJobRestricts(s1, job, u);
    }
  }

  lemma RenewIsolated(s: Cluster, w: WorkerId, lid: LeaseId, t: Tenant, duration: Time, now: Time, u: Tenant)
    requires Inv(s)
    ensures Isolated(s, RenewLease(Restrict(s, t), w, lid, t, duration, now), RenewLease(s, w, lid, t, duration, now), t, u)
  {
    LeaseOfWorkerRestricts(s, w, t);
    LeaseOfWorkerIs(s, w, t);
    var lease := LeaseOfWorker(s, w, t);
    if lease.Some? {
      assert LeaseOk(s, lease.value.job);
      SaveLeaseRestricts(s, lease.value.Renew(now, duration), t);
      SaveLeaseRestricts(s, lease.value.Renew(now, duration), u);
    }
  }

  lemma ReleaseIsolated(s: Cluster, w: WorkerId, lid: LeaseId, t: Tenant, u: Tenant)
    requires Inv(s)
    ensures Isolated(s, ReleaseLease(Restrict(s, t), w, lid, t), ReleaseLease(s, w, lid, t), t, u)
  {
    ReadsRestrict(s, t);
    LeaseOfWorkerRestricts(s, w, t);
    var lease := LeaseOfWorker(s, w, t);
    if lease.Some? {
      DeleteLeaseRestricts(s, lease.value.job, t, t);
      DeleteLeaseRestricts(s, lease.value.job, t, u);
    }
  }

  /** A settled state splits like the rows it writes. */
  lemma SettledRestricts(s: Cluster, row: Worker, node: Node, job: Job, u: Tenant)
    requires Inv(s) && row.id in s.workers && s.workers[row.id].runningJob == Some(job.id)
    requires row.tenant == s.workers[row.id].tenant && node.id in s.nodes && node.tenant == s.nodes[node.id].tenant == row.tenant
    requires job.id in s.jobs && job.tenant == s.jobs[job.id].tenant
    ensures Restrict(Settled(s, row, node, job), u)
            == if u == row.tenant then Settled(Restrict(s, u), row, node, job) else Restrict(s, u)
  {
    assert LeaseOk(s, job.id);
    var s1 := DeleteLease(s, job.id, row.tenant);
    var s2 := SaveWorker(s1, row);
    var s3 := SaveNode(s2, node);
    assert SaveJob(s3, job) == Settled(s, row, node, job);
    DeleteLeaseRestricts(s, job.id, row.tenant, u);
    SaveWorkerRestricts(s1, row, u);
    SaveNodeRestricts(s2, node, u);
    SaveJobRestricts(s3, job, u);
  }

  lemma ReportIsolated(s: Cluster, outcome: Outcome, w: WorkerId, j: JobId, t: Tenant, lid: LeaseId,
                       exit: Option<int>, now: Time, u: Tenant)
    requires Inv(s)
    ensures Isolated(s, ReportOutcome(Restrict(s, t), outcome, w, j, t, lid, exit, now),
                     ReportOutcome(s, outcome, w, j, t, lid, exit, now), t, u)
  {
    ReadsRestrict(s, t);
    var view := GetWorker(s, w, t);
    if view.Some? && view.value.job.Some? {
      var job := view.value.job.value.Conclude(outcome, exit, now);
      if job.Ok? {
        assert LeaseOk(s, view.value.row.runningJob.value);
        FinishIsolated(s, view.value.row, job.value, lid, u);
      }
    }
  }

  lemma FinishIsolated(s: Cluster, row: Worker, job: Job, lid: LeaseId, u: Tenant)
    requires Inv(s)
    requires row.id in s.workers && s.workers[row.id] == row
    requires job.id in s.jobs && s.jobs[job.id].tenant == job.tenant == row.tenant
    ensures Isolated(s, Finish(Restrict(s, row.tenant), row, job, lid, row.tenant, false),
                     Finish(s, row, job, lid, row.tenant, false), row.tenant, u)
  {
    var t := row.tenant;
    ReleaseIsolated(s, row.id, lid, t, u);
    var r := ReleaseLease(s, row.id, lid, t);
    if !r.answer.Raised? {
      FinishWritesIsolated(r.state, row, job, t);
      FinishWritesIsolated(r.state, row, job, u);
    }
  }

  function FinishWrites(s: Cluster, row: Worker, job: Job, t: Tenant): Cluster {
    var s1 := SaveWorker(s, row.Freed());
    var node := if job.node.Some? then GetNode(s1, job.node.value, t) else None;
    var s2 := if node.Some? then SaveNode(s1, node.value.Release(job.resources)) else s1;
    SaveJob(s2, job)
  }

  lemma FinishWritesIsolated(s: Cluster, row: Worker, job: Job, u: Tenant)
    requires KeysOk(s)
    requires row.id in s.workers && s.workers[row.id].tenant == row.tenant
    requires job.id in s.jobs && s.jobs[job.id].tenant == job.tenant == row.tenant
    ensures Restrict(FinishWrites(s, row, job, row.tenant), u)
            == if u == row.tenant then FinishWrites(Restrict(s, u), row, job, u) else Restrict(s, u)
  {
    var s1 := SaveWorker(s, row.Freed());
    SaveWorkerRestricts(s, row.Freed(), u);
    var node := if job.node.Some? then GetNode(s1, job.node.value, row.tenant) else None;
    if node.Some? {
      SaveNodeRestricts(s1, node.value.Release(job.resources), u);
      SaveJobRestricts(SaveNode(s1, node.value.Release(job.resources)), job, u);
    } else {
      SaveJobRestricts(s1, job, u);
    }
  }

  lemma CreateIsolated(s: Cluster, node: Node, managedBy: ManagedBy, newId: WorkerId, now: Time, u: Tenant)
    requires Inv(s) && newId !in s.workers && NodeCopy(s, node)
    ensures Isolated(s, CreateWorker(Restrict(s, node.tenant), node, managedBy, newId, now),
                     CreateWorker(s, node, managedBy, newId, now), node.tenant, u)
  {
    WorkerOfNodeRestricts(s, node.id, node.tenant);
    var existing := WorkerOfNode(s, node.id, node.tenant);
    if existing.None? {
      var row := NewWorker(newId, node, managedBy, now);
      SaveWorkerRestricts(s, row, node.tenant);
      SaveWorkerRestricts(s, row, u);
    } else {
      CreateAgainIsolated(s, existing.value, node, managedBy, newId, now, u);
    }
  }

  /** What creating again writes, seen by tenant u, whatever the copy of the node says. */
  lemma CreatedRestricts(s: Cluster, w: WorkerId, node: Node, managedBy: ManagedBy, now: Time, u: Tenant)
    requires Inv(s) && NodeCopy(s, node) && IsWorkerOf(s, w, node.id, node.tenant) && s.workers[w].runningJob.Some?
    ensures s.workers[w].runningJob.value in s.jobs
    ensures var job := s.jobs[s.workers[w].runningJob.value];
            var row, freed := s.workers[w].Freed().(managedBy := managedBy), node.Release(job.resources);
            Restrict(Settled(s, row, freed, Reclaimed(job, now)), u)
            == if u == node.tenant then Settled(Restrict(s, u), row, freed, Reclaimed(job, now)) else Restrict(s, u)
  {
    var j := s.workers[w].runningJob.value;
    assert LeaseOk(s, j);
    SettledRestricts(s, s.workers[w].Freed().(managedBy := managedBy), node.Release(s.jobs[j].resources),
                     Reclaimed(s.jobs[j], now), u);
  }

  lemma CreateAgainIsolated(s: Cluster, w: WorkerId, node: Node, managedBy: ManagedBy, newId: WorkerId, now: Time, u: Tenant)
    requires Inv(s) && NodeCopy(s, node) && WorkerOfNode(s, node.id, node.tenant) == Some(w)
    ensures Isolated(s, CreateWorker(Restrict(s, node.tenant), node, managedBy, newId, now),
                     CreateWorker(s, node, managedBy, newId, now), node.tenant, u)
  {
    var t := node.tenant;
    RestrictInv(s, t);
    ReadsRestrict(s, t);
    WorkerOfNodeRestricts(s, node.id, t);
    CreateAgainSettles(s, w, node, managedBy, newId, now);
    CreateAgainSettles(Restrict(s, t), w, node, managedBy, newId, now);
    if s.workers[w].runningJob.None? {
      var row := s.workers[w].Freed().(managedBy := managedBy);
      SaveWorkerRestricts(s, row, t);
      SaveWorkerRestricts(s, row, u);
    } else {
      CreatedRestricts(s, w, node, managedBy, now, t);
      CreatedRestricts(s, w, node, managedBy, now, u);
    }
  }

  lemma ReadyIsolated(s: Cluster, row: Worker, u: Tenant)
    requires Inv(s) && WorkerCopy(s, row)
    ensures Isolated(s, ReadyWorker(Restrict(s, row.tenant), row), ReadyWorker(s, row), row.tenant, u)
  {
    SaveWorkerRestricts(s, row.(status := Idle), row.tenant);
    SaveWorkerRestricts(s, row.(status := Idle), u);
  }

  /** Every tenant-scoped call depends on and changes its own tenant's rows only. */
  lemma CallsAreIsolated(s: Cluster, call: Call, t: Tenant, now: Time, u: Tenant)
    requires Inv(s)
    requires OnCopies(s, call, t)
    ensures Isolated(s, Do(Restrict(s, t), call, t, now), Do(s, call, t, now), t, u)
  {
    match call
    case Cancel(j) => CancelIsolated(s, j, t, now, u);
    case Retry(j) => RetryIsolated(s, j, t, u);
    case BeatNode(n) => NodeCallsIsolated(s, n, t, now, u);
    case Drain(n) => NodeCallsIsolated(s, n, t, now, u);
    case Create(node, managedBy, newId) => CreateIsolated(s, node, managedBy, newId, now, u);
    case Ready(worker) => ReadyIsolated(s, worker, u);
    case Beat(w) => BeatIsolated(s, w, t, now, u);
    case Start(w, j) => StartIsolated(s, w, j, t, now, u);
    case Renew(w, lid, duration) => RenewIsolated(s, w, lid, t, duration, now, u);
    case Report(outcome, w, j, lid, exit) => ReportIsolated(s, outcome, w, j, t, lid, exit, now, u);
  }

  /** Two clusters that agree on tenant t give the same answer to every call of t, still agree on
      t afterwards, and keep every other tenant's rows. */
  lemma TenantsDoNotInterfere(a: Cluster, b: Cluster, call: Call, t: Tenant, now: Time, u: Tenant)
    requires Inv(a) && Inv(b) && Restrict(a, t) == Restrict(b, t)
    requires OnCopies(a, call, t) && OnCopies(b, call, t)
    ensures Do(a, call, t, now).answer == Do(b, call, t, now).answer
    ensures Restrict(Do(a, call, t, now).state, t) == Restrict(Do(b, call, t, now).state, t)
    ensures u != t ==> Restrict(Do(a, call, t, now).state, u) == Restrict(a, u)
  {
    CallsAreIsolated(a, call, t, now, u);
    CallsAreIsolated(b, call, t, now, u);
  }
}
