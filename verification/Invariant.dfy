/** The one inductive invariant behind exclusive ownership, resource accounting, fencing and
bounded retries, and its preservation by the six shapes every service step takes. */
module Invariant {
  import opened Options
  import opened Domain
  import opened Scheduling
  import opened ClusterModel

  ghost predicate KeysOk(s: Cluster) {
    && (forall j :: j in s.jobs ==> s.jobs[j].id == j)
    && (forall w :: w in s.workers ==> s.workers[w].id == w)
    && (forall n :: n in s.nodes ==> s.nodes[n].id == n)
    && (forall j :: j in s.leases ==> s.leases[j].job == j)
  }

  /** A worker belongs to its node's tenant, a node has at most one worker, and a worker that
      carries a job is not idle. */
  ghost predicate WorkersOk(s: Cluster) {
    && (forall w :: w in s.workers ==>
          && s.workers[w].node in s.nodes
          && s.nodes[s.workers[w].node].tenant == s.workers[w].tenant
          && (s.workers[w].runningJob.Some? ==> s.workers[w].status in {Busy, Offline}))
    && (forall v, w :: v in s.workers && w in s.workers && s.workers[v].node == s.workers[w].node ==> v == w)
  }

  /** The lease of j: who holds it, where, for which tenant, and in which states of the job. */
  ghost predicate LeaseOk(s: Cluster, j: JobId)
    requires j in s.leases
  {
    var lease := s.leases[j];
    && lease.worker in s.workers
    && j in s.jobs
    && s.workers[lease.worker].runningJob == Some(j)
    && lease.tenant == s.workers[lease.worker].tenant == s.jobs[j].tenant
    && s.jobs[j].node == Some(s.workers[lease.worker].node)
    && (IsActive(s.jobs[j].status) || s.jobs[j].status == Cancelled)
    && lease.id in s.issued && s.issued[lease.id] == j
  }

  ghost predicate LinksOk(s: Cluster) {
    && (forall j :: j in s.leases ==> LeaseOk(s, j))
    && (forall w :: w in s.workers && s.workers[w].runningJob.Some? ==>
          && s.workers[w].runningJob.value in s.leases
          && s.leases[s.workers[w].runningJob.value].worker == w)
  }

  ghost function LeaseIdsOf(issued: map<LeaseId, JobId>, j: JobId): set<LeaseId> {
    set l | l in issued && issued[l] == j
  }

  /** Grants so far against retries used. */
  predicate GrantsOk(job: Job, grants: nat) {
    match job.status
    case Submitted => grants == job.retryCount
    case Queued => grants == job.retryCount
    case Cancelled => job.retryCount <= grants <= job.retryCount + 1
    case _ => grants == job.retryCount + 1
  }

  predicate RetriesOk(job: Job) {
    0 <= job.retryCount && (job.retryCount > 0 ==> job.retryCount <= job.maxRetries)
  }

  /** The timestamps and the exit code a job has in each state. */
  predicate Stamped(job: Job) {
    && (job.status in {Submitted, Queued, Scheduled} ==> job.startedAt.None?)
    && (job.status in {Submitted, Queued, Scheduled, Running} ==> job.cancelRequestedAt.None?)
    && (job.status in {Submitted, Queued, Scheduled, Running, Cancelling} ==> job.completedAt.None? && job.exitCode.None?)
    && (job.status in {Running, Cancelling, Completed} ==> job.startedAt.Some?)
    && (job.status == Cancelling ==> job.cancelRequestedAt.Some?)
    && (job.status in {Completed, Failed} ==> job.completedAt.Some?)
  }

  ghost predicate JobOk(s: Cluster, j: JobId)
    requires j in s.jobs
  {
    && (IsActive(s.jobs[j].status) ==> j in s.leases)
    && (s.jobs[j].status in {Submitted, Queued} ==> s.jobs[j].node.None?)
    && RetriesOk(s.jobs[j])
    && Stamped(s.jobs[j])
    && GrantsOk(s.jobs[j], |LeaseIdsOf(s.issued, j)|)
  }

  ghost predicate JobsOk(s: Cluster) {
    && (forall j :: j in s.jobs ==> JobOk(s, j))
    && (forall l :: l in s.issued ==> s.issued[l] in s.jobs)
  }

  ghost predicate Vacant(workers: map<WorkerId, Worker>, n: NodeId) {
    forall w :: w in workers && workers[w].node == n ==> workers[w].runningJob.None?
  }

  /** A node is fully free, or its worker's job is exactly what it is missing. */
  ghost predicate ResourcesOk(s: Cluster) {
    && (forall n :: n in s.nodes && Vacant(s.workers, n) ==> s.nodes[n].available == s.nodes[n].capacity)
    && (forall w :: w in s.workers && s.workers[w].runningJob.Some? ==> Covers(s, w))
  }

  ghost predicate Covers(s: Cluster, w: WorkerId)
    requires w in s.workers && s.workers[w].runningJob.Some?
  {
    && s.workers[w].runningJob.value in s.jobs
    && s.workers[w].node in s.nodes
    && var node := s.nodes[s.workers[w].node];
       node.available.Plus(s.jobs[s.workers[w].runningJob.value].resources) == node.capacity
  }

  ghost predicate Inv(s: Cluster) {
    && KeysOk(s)
    && WorkersOk(s)
    && LinksOk(s)
    && JobsOk(s)
    && ResourcesOk(s)
  }

  lemma InvSound(s: Cluster)
    requires Inv(s)
    ensures NodesSound(s)
  {
    forall n | n in s.nodes ensures Sound(s.nodes[n]) {
      if !Vacant(s.workers, n) {
        var w :| w in s.workers && s.workers[w].node == n && s.workers[w].runningJob.Some?;
        assert Covers(s, w);
      }
    }
  }

  /** Under the invariant a worker has the lease of the job it carries, and no other. */
  lemma LeaseOfWorkerIs(s: Cluster, w: WorkerId, t: Tenant)
    requires Inv(s)
    ensures forall j :: IsLeaseOf(s, j, w, t) ==> LeaseOfWorker(s, w, t) == Some(s.leases[j])
    ensures LeaseOfWorker(s, w, t).Some? ==>
              && w in s.workers && s.workers[w].tenant == t
              && s.workers[w].runningJob == Some(LeaseOfWorker(s, w, t).value.job)
              && LeaseOfWorker(s, w, t).value.job in s.leases
              && s.leases[LeaseOfWorker(s, w, t).value.job] == LeaseOfWorker(s, w, t).value
  {
    var r := LeaseOfWorker(s, w, t);
    if r.Some? {
      var k :| IsLeaseOf(s, k, w, t) && s.leases[k] == r.value;
      assert LeaseOk(s, k);
      forall j | IsLeaseOf(s, j, w, t) ensures j == k {
        assert LeaseOk(s, j);
      }
    }
  }

  //
  // 1. A job row changes, and nothing else
  //

  lemma JobEdit(s: Cluster, job: Job)
    requires Inv(s)
    requires job.id in s.jobs && SameIdentity(s.jobs[job.id], job)
    requires job.id in s.leases ==>
               job.node == s.jobs[job.id].node && (IsActive(job.status) || job.status == Cancelled)
    requires IsActive(job.status) ==> job.id in s.leases
    requires job.status in {Submitted, Queued} ==> job.node.None?
    requires RetriesOk(job) && Stamped(job)
    requires GrantsOk(job, |LeaseIdsOf(s.issued, job.id)|)
    ensures Inv(SaveJob(s, job))
  {
    var s' := SaveJob(s, job);
  }

  lemma JobAdd(s: Cluster, job: Job)
    requires Inv(s)
    requires job.id !in s.jobs
    requires job.status == Queued && job.node.None? && job.retryCount == 0 && Stamped(job)
    ensures Inv(SaveJob(s, job))
  {
    var s' := SaveJob(s, job);
    assert forall l :: l in s.issued ==> s.issued[l] in s.jobs;
    assert LeaseIdsOf(s.issued, job.id) == {};
  }

  //
  // 2. A worker row changes without touching its job, or is added without one
  //

  lemma WorkerEdit(s: Cluster, row: Worker)
    requires Inv(s)
    requires row.id in s.workers
    requires row.node == s.workers[row.id].node && row.tenant == s.workers[row.id].tenant
    requires row.runningJob == s.workers[row.id].runningJob
    requires row.runningJob.Some? ==> row.status in {Busy, Offline}
    ensures Inv(SaveWorker(s, row))
  {
    var s' := SaveWorker(s, row);
    forall n | n in s'.nodes && Vacant(s'.workers, n) ensures s'.nodes[n].available == s'.nodes[n].capacity {
      forall w | w in s.workers && s.workers[w].node == n ensures s.workers[w].runningJob.None? {
        assert w in s'.workers && s'.workers[w].node == n;
      }
      assert Vacant(s.workers, n);
    }
  }

  lemma WorkerAdd(s: Cluster, row: Worker)
    requires Inv(s)
    requires row.id !in s.workers
    requires row.node in s.nodes && s.nodes[row.node].tenant == row.tenant
    requires forall w :: w in s.workers ==> s.workers[w].node != row.node
    requires row.runningJob.None?
    ensures Inv(SaveWorker(s, row))
  {
    var s' := SaveWorker(s, row);
    forall n | n in s'.nodes && Vacant(s'.workers, n) ensures s'.nodes[n].available == s'.nodes[n].capacity {
      forall w | w in s.workers && s.workers[w].node == n ensures s.workers[w].runningJob.None? {
        assert w in s'.workers && s'.workers[w].node == n;
      }
      assert Vacant(s.workers, n);
    }
  }

  //
  // 3. A node row changes without touching its resources, or is added fully free
  //

  lemma NodeSave(s: Cluster, node: Node)
    requires Inv(s)
    requires node.id in s.nodes ==>
               && node.tenant == s.nodes[node.id].tenant && node.capacity == s.nodes[node.id].capacity
               && node.available == s.nodes[node.id].available
    requires node.id !in s.nodes ==> node.available == node.capacity
    ensures Inv(SaveNode(s, node))
  {
    var s' := SaveNode(s, node);
  }

  //
  // 4. A lease is renewed
  //

  lemma LeaseEdit(s: Cluster, lease: Lease)
    requires Inv(s)
    requires lease.job in s.leases
    requires lease == s.leases[lease.job].(expiresAt := lease.expiresAt)
    ensures Inv(SaveLease(s, lease))
  {
    var s' := SaveLease(s, lease);
  }

  //
  // 5. A held job is let go: lease deleted, worker freed, node refilled, job moved on
  //

  function Settled(s: Cluster, row: Worker, node: Node, job: Job): Cluster {
    Cluster(s.jobs[job.id := job], s.workers[row.id := row], s.nodes[node.id := node], s.leases - {job.id}, s.issued)
  }

  ghost predicate CanSettle(s: Cluster, row: Worker, node: Node, job: Job) {
    && row.id in s.workers && s.workers[row.id].runningJob == Some(job.id)
    && row.node == s.workers[row.id].node && row.tenant == s.workers[row.id].tenant && row.runningJob.None?
    && node.id == row.node && node.id in s.nodes
    && node.tenant == s.nodes[node.id].tenant && node.capacity == s.nodes[node.id].capacity
    && node.available == node.capacity
    && job.id in s.jobs && SameIdentity(s.jobs[job.id], job)
    && !IsActive(job.status)
    && (job.status in {Submitted, Queued} ==> job.node.None?)
    && RetriesOk(job) && Stamped(job)
    && GrantsOk(job, |LeaseIdsOf(s.issued, job.id)|)
  }

  lemma SettleResources(s: Cluster, row: Worker, node: Node, job: Job)
    requires Inv(s)
    requires CanSettle(s, row, node, job)
    ensures ResourcesOk(Settled(s, row, node, job))
  {
    var s' := Settled(s, row, node, job);
    forall n | n in s'.nodes && Vacant(s'.workers, n) ensures s'.nodes[n].available == s'.nodes[n].capacity {
      if n != node.id {
        forall w | w in s.workers && s.workers[w].node == n ensures s.workers[w].runningJob.None? {
          assert w in s'.workers && s'.workers[w].node == n;
        }
        assert Vacant(s.workers, n);
      }
    }
    forall w | w in s'.workers && s'.workers[w].runningJob.Some? ensures Covers(s', w) {
      assert Covers(s, w);
      assert s.workers[w].node != node.id;
      assert s.workers[w].runningJob.value != job.id;
    }
  }

  lemma SettleLinks(s: Cluster, row: Worker, node: Node, job: Job)
    requires Inv(s)
    requires CanSettle(s, row, node, job)
    ensures KeysOk(Settled(s, row, node, job)) && WorkersOk(Settled(s, row, node, job)) && LinksOk(Settled(s, row, node, job))
  {
  }

  lemma SettleJobs(s: Cluster, row: Worker, node: Node, job: Job)
    requires Inv(s)
    requires CanSettle(s, row, node, job)
    ensures JobsOk(Settled(s, row, node, job))
  {
  }

  lemma Settle(s: Cluster, row: Worker, node: Node, job: Job)
    requires Inv(s)
    requires CanSettle(s, row, node, job)
    ensures Inv(Settled(s, row, node, job))
  {
    SettleLinks(s, row, node, job);
    SettleJobs(s, row, node, job);
    SettleResources(s, row, node, job);
  }

  //
  // 6. A queued job is granted to an idle worker
  //

  function GrantedState(s: Cluster, row: Worker, node: Node, job: Job, lease: Lease): Cluster {
    Cluster(s.jobs[job.id := job], s.workers[row.id := row], s.nodes[node.id := node],
            s.leases[lease.job := lease], s.issued[lease.id := job.id])
  }

  ghost predicate CanGrant(s: Cluster, row: Worker, node: Node, job: Job, lease: Lease) {
    && row.id in s.workers && s.workers[row.id].status == Idle
    && row.node == s.workers[row.id].node && row.tenant == s.workers[row.id].tenant
    && row.runningJob == Some(job.id) && row.status == Busy
    && node.id == row.node && node.id in s.nodes
    && node.tenant == s.nodes[node.id].tenant && node.capacity == s.nodes[node.id].capacity
    && node.available.Plus(job.resources) == s.nodes[node.id].available
    && job.id in s.jobs && SameIdentity(s.jobs[job.id], job) && job.retryCount == s.jobs[job.id].retryCount
    && s.jobs[job.id].status == Queued && job.status == Scheduled && job.node == Some(node.id)
    && job.tenant == node.tenant && Stamped(job)
    && lease.job == job.id && lease.worker == row.id && lease.tenant == node.tenant
    && lease.id !in s.issued
  }

  lemma Grant(s: Cluster, row: Worker, node: Node, job: Job, lease: Lease)
    requires Inv(s)
    requires CanGrant(s, row, node, job, lease)
    ensures Inv(GrantedState(s, row, node, job, lease))
  {
    GrantLinks(s, row, node, job, lease);
    GrantJobs(s, row, node, job, lease);
    GrantResources(s, row, node, job, lease);
  }

  lemma GrantLinks(s: Cluster, row: Worker, node: Node, job: Job, lease: Lease)
    requires Inv(s)
    requires CanGrant(s, row, node, job, lease)
    ensures LinksOk(GrantedState(s, row, node, job, lease))
  {
    var s' := GrantedState(s, row, node, job, lease);
    assert job.id !in s.leases;
    forall j | j in s'.leases ensures LeaseOk(s', j) {
      if j != job.id { assert LeaseOk(s, j); }
    }
  }

  lemma GrantJobs(s: Cluster, row: Worker, node: Node, job: Job, lease: Lease)
    requires Inv(s)
    requires CanGrant(s, row, node, job, lease)
    ensures JobsOk(GrantedState(s, row, node, job, lease))
  {
    var s' := GrantedState(s, row, node, job, lease);
    forall j | j in s'.jobs ensures JobOk(s', j) {
      assert JobOk(s, j);
      if j == job.id {
        assert LeaseIdsOf(s'.issued, j) == LeaseIdsOf(s.issued, j) + {lease.id};
      } else {
        assert LeaseIdsOf(s'.issued, j) == LeaseIdsOf(s.issued, j);
      }
    }
  }

  lemma GrantResources(s: Cluster, row: Worker, node: Node, job: Job, lease: Lease)
    requires Inv(s)
    requires CanGrant(s, row, node, job, lease)
    ensures ResourcesOk(GrantedState(s, row, node, job, lease))
  {
    var s' := GrantedState(s, row, node, job, lease);
    assert Vacant(s.workers, node.id) by {
      forall w | w in s.workers && s.workers[w].node == node.id ensures s.workers[w].runningJob.None? {
        assert w == row.id;
      }
    }
    forall n | n in s'.nodes && Vacant(s'.workers, n) ensures s'.nodes[n].available == s'.nodes[n].capacity {
      assert row.id in s'.workers && s'.workers[row.id].node == node.id;
      assert n != node.id;
      forall w | w in s.workers && s.workers[w].node == n ensures s.workers[w].runningJob.None? {
        assert w in s'.workers && s'.workers[w].node == n;
      }
      assert Vacant(s.workers, n);
    }
    forall w | w in s'.workers && s'.workers[w].runningJob.Some? ensures Covers(s', w) {
      if w != row.id {
        assert Covers(s, w);
        assert s.workers[w].node != node.id;
      }
    }
  }
}
