/** Every service step keeps the invariant, and changes rows only in the ways the domain allows. */
module Steps {
  import opened Options
  import opened Domain
  import opened Sequences
  import opened Scheduling
  import opened ClusterModel
  import opened Invariant

  //
  // What one step may do
  //

  /** One persisted change of a job row, at time now. A row changes only with its status; only a
      retry takes a failed job back to the queue, and only that loses a recorded cancellation
      request. */
  predicate JobEvolves(a: Job, b: Job, retried: bool, now: Time) {
    && SameIdentity(a, b)
    && (a.status == b.status ==> a == b)
    && (a.status == b.status || Allowed(a.status, b.status))
    && (a.status == Failed && b.status == Queued ==> retried)
    && (a.cancelRequestedAt.Some? && b.cancelRequestedAt.None? ==> retried && a.status == Failed && b.status == Queued)
    && FieldsEvolve(a, b, now)
  }

  /** The other fields: going back to the queue clears them and costs a retry, and a start, an end
      and a cancellation request are stamped with the time of the step. Nothing else is touched,
      but for the time of the request when a cancelling job ends. */
  predicate FieldsEvolve(a: Job, b: Job, now: Time) {
    var requeued := a.status != b.status && b.status == Queued;
    && b.retryCount == a.retryCount + (if requeued then 1 else 0)
    && b.startedAt == (if requeued then None else if (a.status, b.status) == (Scheduled, Running) then Some(now) else a.startedAt)
    && (b.completedAt == a.completedAt || (b.completedAt == if requeued then None else Some(now)))
    && (a.status != b.status && b.status in {Completed, Failed} ==> b.completedAt == Some(now))
    && (b.exitCode == a.exitCode || (requeued && b.exitCode.None?) || b.status in {Completed, Failed, Cancelled})
    && (|| a.status == Cancelling
        || b.cancelRequestedAt == (if requeued then None
                                   else if (a.status, b.status) == (Running, Cancelling) then Some(now)
                                   else a.cancelRequestedAt))
    && (b.node == a.node || b.node.None? || (a.status, b.status) == (Queued, Scheduled))
  }

  /** One change of a job row under a lease that stays. */
  predicate HeldEvolves(a: Job, b: Job) {
    && a.node == b.node
    && a.retryCount == b.retryCount
    && (a.status == b.status || (a.status, b.status) in {(Scheduled, Running), (Scheduled, Cancelled), (Running, Cancelling)})
  }

  /** A lease that stays is the same lease, as it was or renewed now. */
  predicate SameLease(a: Lease, b: Lease, now: Time) {
    b == a || b == a.Renew(now, LEASE_DURATION)
  }

  ghost predicate LeaseEvolves(s: Cluster, s': Cluster, j: JobId, now: Time)
    requires j in s'.leases
  {
    || (&& j in s.leases && SameLease(s.leases[j], s'.leases[j], now)
        && j in s.jobs && j in s'.jobs && HeldEvolves(s.jobs[j], s'.jobs[j]))
    || (s'.leases[j].id !in s.issued && s'.leases[j].expiresAt == now + LEASE_DURATION)
  }

  /** What one step at time now may do; retried is the job it retries, if any. */
  ghost predicate Evolves(s: Cluster, s': Cluster, retried: Option<JobId>, now: Time) {
    && (forall j :: j in s.jobs ==> j in s'.jobs && JobEvolves(s.jobs[j], s'.jobs[j], retried == Some(j), now))
    && (forall w :: w in s.workers ==>
          w in s'.workers && s'.workers[w].node == s.workers[w].node && s'.workers[w].tenant == s.workers[w].tenant)
    && (forall n :: n in s.nodes ==>
          && n in s'.nodes && s'.nodes[n].tenant == s.nodes[n].tenant && s'.nodes[n].capacity == s.nodes[n].capacity
          && (s.nodes[n].draining ==> s'.nodes[n].draining))
    && (forall l :: l in s.issued ==> l in s'.issued && s'.issued[l] == s.issued[l])
    && (forall j :: j in s'.leases ==> LeaseEvolves(s, s', j, now))
  }

  ghost predicate Good(s: Cluster, s': Cluster, retried: Option<JobId>, now: Time) {
    Inv(s') && Evolves(s, s', retried, now)
  }

  /** Every leased job has a row: all that the shape of a step needs of the invariant. */
  ghost predicate LeasedRows(s: Cluster) {
    forall j :: j in s.leases ==> j in s.jobs
  }

  lemma JobSaveEvolves(s: Cluster, job: Job, retried: Option<JobId>, now: Time)
    requires LeasedRows(s)
    requires job.id in s.jobs ==> JobEvolves(s.jobs[job.id], job, retried == Some(job.id), now)
    requires job.id in s.leases ==> HeldEvolves(s.jobs[job.id], job)
    ensures Evolves(s, SaveJob(s, job), retried, now)
  {
  }

  lemma WorkerSaveEvolves(s: Cluster, row: Worker, now: Time)
    requires LeasedRows(s)
    requires row.id in s.workers ==> row.node == s.workers[row.id].node && row.tenant == s.workers[row.id].tenant
    ensures Evolves(s, SaveWorker(s, row), None, now)
  {
  }

  lemma NodeSaveEvolves(s: Cluster, node: Node, now: Time)
    requires LeasedRows(s)
    requires node.id in s.nodes ==>
               && node.tenant == s.nodes[node.id].tenant && node.capacity == s.nodes[node.id].capacity
               && (s.nodes[node.id].draining ==> node.draining)
    ensures Evolves(s, SaveNode(s, node), None, now)
  {
  }

  lemma SettledEvolves(s: Cluster, row: Worker, node: Node, job: Job, now: Time)
    requires LeasedRows(s)
    requires row.id in s.workers && row.node == s.workers[row.id].node && row.tenant == s.workers[row.id].tenant
    requires node.id in s.nodes && node.tenant == s.nodes[node.id].tenant && node.capacity == s.nodes[node.id].capacity
    requires s.nodes[node.id].draining ==> node.draining
    requires job.id in s.jobs && JobEvolves(s.jobs[job.id], job, false, now)
    ensures Evolves(s, Settled(s, row, node, job), None, now)
  {
  }

  lemma GrantedEvolves(s: Cluster, row: Worker, node: Node, job: Job, lease: Lease, now: Time)
    requires LeasedRows(s)
    requires row.id in s.workers && row.node == s.workers[row.id].node && row.tenant == s.workers[row.id].tenant
    requires node.id in s.nodes && node.tenant == s.nodes[node.id].tenant && node.capacity == s.nodes[node.id].capacity
    requires s.nodes[node.id].draining ==> node.draining
    requires job.id in s.jobs && JobEvolves(s.jobs[job.id], job, false, now)
    requires lease.job == job.id && lease.id !in s.issued && lease.expiresAt == now + LEASE_DURATION
    ensures Evolves(s, GrantedState(s, row, node, job, lease), None, now)
  {
  }

  lemma Stutter(s: Cluster, now: Time)
    requires Inv(s)
    ensures Good(s, s, None, now)
  {
  }

  //
  // Jobs
  //

  /** A job row saved on its own. */
  lemma JobEditKeeps(s: Cluster, job: Job, retried: Option<JobId>, now: Time)
    requires Inv(s)
    requires job.id in s.jobs && JobEvolves(s.jobs[job.id], job, retried == Some(job.id), now)
    requires job.id in s.leases ==>
               HeldEvolves(s.jobs[job.id], job) && (IsActive(job.status) || job.status == Cancelled)
    requires IsActive(job.status) ==> job.id in s.leases
    requires job.status in {Submitted, Queued} ==> job.node.None?
    requires RetriesOk(job) && Stamped(job)
    requires GrantsOk(job, |LeaseIdsOf(s.issued, job.id)|)
    ensures Good(s, SaveJob(s, job), retried, now)
  {
    JobEdit(s, job);
    JobSaveEvolves(s, job, retried, now);
  }

  lemma CreateJobKeeps(s: Cluster, id: JobId, t: Tenant, resources: Resources, priority: int,
                       constraints: map<string, string>, maxRetries: int, now: Time)
    requires Inv(s) && id !in s.jobs
    ensures Good(s, CreateJob(s, id, t, resources, priority, constraints, maxRetries).state, None, now)
    ensures CreateJob(s, id, t, resources, priority, constraints, maxRetries)
            == if resources.cpu == 0 || resources.memory == 0 then Step(s, Raised(InvalidResources))
               else
                 var job := Job(id, t, resources, priority, constraints, maxRetries, 0, Queued, None, None, None, None, None);
                 Step(s.(jobs := s.jobs[id := job]), AJob(Some(job)))
  {
    if resources.cpu > 0 && resources.memory > 0 {
      var job := NewJob(id, t, resources, priority, constraints, maxRetries).Queue().value;
      JobAdd(s, job);
      JobSaveEvolves(s, job, None, now);
    }
  }

  /** What a cancel request does in each state of the job; it never touches another row. */
  lemma CancelOutcome(s: Cluster, j: JobId, t: Tenant, now: Time)
    requires Inv(s)
    ensures var r := CancelJob(s, j, t, now);
            if j !in s.jobs || s.jobs[j].tenant != t then r == Step(s, AJob(None))
            else if s.jobs[j].status == Running then
              var job := s.jobs[j].(status := Cancelling, cancelRequestedAt := Some(now));
              r == Step(s.(jobs := s.jobs[j := job]), AJob(Some(job)))
            else if s.jobs[j].status in {Queued, Scheduled} then
              var job := s.jobs[j].(status := Cancelled);
              r == Step(s.(jobs := s.jobs[j := job]), AJob(Some(job)))
            else if s.jobs[j].status == Cancelling then r == Step(s, AJob(Some(s.jobs[j])))
            else r == Step(s, Raised(InvalidTransition))
  {
    if j in s.jobs {
      assert s.jobs[j].id == j;
      assert s.jobs[j := s.jobs[j]] == s.jobs;
    }
  }

  lemma CancelJobKeeps(s: Cluster, j: JobId, t: Tenant, now: Time)
    requires Inv(s)
    ensures Good(s, CancelJob(s, j, t, now).state, None, now)
  {
    CancelOutcome(s, j, t, now);
    if CancelJob(s, j, t, now).state == s {
      Stutter(s, now);
    } else {
      assert JobOk(s, j) && s.jobs[j].id == j;
      if s.jobs[j].status == Running {
        JobEditKeeps(s, s.jobs[j].(status := Cancelling, cancelRequestedAt := Some(now)), None, now);
      } else {
        JobEditKeeps(s, s.jobs[j].(status := Cancelled), None, now);
      }
    }
  }

  lemma RetryJobKeeps(s: Cluster, j: JobId, t: Tenant, now: Time)
    requires Inv(s)
    ensures Good(s, RetryJob(s, j, t).state, Some(j), now)
    ensures RetryJob(s, j, t)
            == if j !in s.jobs || s.jobs[j].tenant != t then Step(s, AJob(None))
               else if s.jobs[j].status == Failed && s.jobs[j].retryCount < s.jobs[j].maxRetries then
                 var job := s.jobs[j].(status := Queued, retryCount := s.jobs[j].retryCount + 1, node := None,
                                       startedAt := None, completedAt := None, exitCode := None, cancelRequestedAt := None);
                 Step(s.(jobs := s.jobs[j := job]), AJob(Some(job)))
               else Step(s, AJob(Some(s.jobs[j])))
  {
    assert j in s.jobs ==> s.jobs[j].id == j;
    var r := RetryJob(s, j, t);
    if r.state != s {
      assert JobOk(s, j);
      JobEditKeeps(s, r.answer.job.value, Some(j), now);
    }
  }

  /** A start either changes nothing or starts the job its worker holds under a lease. */
  lemma StartJobStarts(s: Cluster, w: WorkerId, j: JobId, t: Tenant, now: Time)
    requires Inv(s)
    ensures var r := StartJob(s, w, j, t, now);
            || (r.answer.Raised? && r.state == s)
            || (&& j in s.leases && s.leases[j].worker == w && j in s.jobs && s.jobs[j].Start(now).Ok?
                && r.state == SaveJob(s, s.jobs[j].Start(now).value))
  {
    var r := StartJob(s, w, j, t, now);
    if !r.answer.Raised? {
      var held := s.workers[w].runningJob.value;
      assert s.jobs[held].id == held;
      assert s.workers[w := s.workers[w]] == s.workers;
    }
  }

  lemma StartJobKeeps(s: Cluster, w: WorkerId, j: JobId, t: Tenant, now: Time)
    requires Inv(s)
    ensures Good(s, StartJob(s, w, j, t, now).state, None, now)
  {
    StartJobStarts(s, w, j, t, now);
    if StartJob(s, w, j, t, now).answer.Raised? {
      Stutter(s, now);
    } else {
      StartedKeeps(s, j, now);
    }
  }

  lemma StartedKeeps(s: Cluster, j: JobId, now: Time)
    requires Inv(s)
    requires j in s.leases && j in s.jobs && s.jobs[j].Start(now).Ok?
    ensures Good(s, SaveJob(s, s.jobs[j].Start(now).value), None, now)
  {
    assert JobOk(s, j);
    JobEditKeeps(s, s.jobs[j].Start(now).value, None, now);
  }

  //
  // Nodes
  //

  /** A node row saved on its own. */
  lemma NodeSaveKeeps(s: Cluster, node: Node, now: Time)
    requires Inv(s)
    requires node.id in s.nodes ==>
               && node.tenant == s.nodes[node.id].tenant && node.capacity == s.nodes[node.id].capacity
               && node.available == s.nodes[node.id].available && (s.nodes[node.id].draining ==> node.draining)
    requires node.id !in s.nodes ==> node.available == node.capacity
    ensures Good(s, SaveNode(s, node), None, now)
  {
    NodeSave(s, node);
    NodeSaveEvolves(s, node, now);
  }

  lemma CreateNodeKeeps(s: Cluster, id: NodeId, t: Tenant, capacity: Resources, labels: map<string, string>, now: Time)
    requires Inv(s) && id !in s.nodes
    ensures Good(s, CreateNode(s, id, t, capacity, labels, now).state, None, now)
  {
    NodeSaveKeeps(s, NewNode(id, t, capacity, labels, now), now);
  }

  lemma HeartbeatNodeKeeps(s: Cluster, n: NodeId, t: Tenant, now: Time)
    requires Inv(s)
    ensures Good(s, HeartbeatNode(s, n, t, now).state, None, now)
  {
    if GetNode(s, n, t).Some? {
      NodeSaveKeeps(s, s.nodes[n].Heartbeat(now), now);
    } else {
      Stutter(s, now);
    }
  }

  lemma DrainNodeKeeps(s: Cluster, n: NodeId, t: Tenant, now: Time)
    requires Inv(s)
    ensures Good(s, DrainNode(s, n, t).state, None, now)
  {
    if GetNode(s, n, t).Some? {
      NodeSaveKeeps(s, s.nodes[n].Drain(), now);
    } else {
      Stutter(s, now);
    }
  }

  //
  // Workers
  //

  /** A worker row saved on its own. */
  lemma WorkerEditKeeps(s: Cluster, row: Worker, now: Time)
    requires Inv(s)
    requires row.id in s.workers
    requires row.node == s.workers[row.id].node && row.tenant == s.workers[row.id].tenant
    requires row.runningJob == s.workers[row.id].runningJob
    requires row.runningJob.Some? ==> row.status in {Busy, Offline}
    ensures Good(s, SaveWorker(s, row), None, now)
  {
    WorkerEdit(s, row);
    WorkerSaveEvolves(s, row, now);
  }

  lemma WorkerHeartbeatKeeps(s: Cluster, w: WorkerId, t: Tenant, now: Time)
    requires Inv(s)
    ensures Good(s, WorkerHeartbeat(s, w, t, now).state, None, now)
    ensures WorkerHeartbeat(s, w, t, now).state
            == if w !in s.workers || s.workers[w].tenant != t then s
               else var wakes := s.workers[w].status == Offline && s.workers[w].runningJob.None?;
                    s.(workers := s.workers[w := s.workers[w].(lastSeen := now,
                                                               status := if wakes then Idle else s.workers[w].status)])
  {
    var r := WorkerHeartbeat(s, w, t, now);
    if r.answer.Raised? {
      Stutter(s, now);
    } else {
      var row := s.workers[w];
      assert row.runningJob.Some? ==> LeaseOk(s, row.runningJob.value);
      assert r.state == SaveWorker(s, row.Heartbeat(now));
      WorkerEditKeeps(s, row.Heartbeat(now), now);
    }
  }

  lemma MarkDeadKeeps(s: Cluster, w: WorkerId, now: Time)
    requires Inv(s)
    ensures Good(s, MarkDead(s, w, now), None, now)
    ensures MarkDead(s, w, now) == if w !in s.workers || s.workers[w].IsAlive(now) then s
                                   else s.(workers := s.workers[w := s.workers[w].(status := Offline)])
  {
    if w in s.workers && !s.workers[w].IsAlive(now) {
      WorkerEditKeeps(s, s.workers[w].GoOffline(), now);
    } else {
      Stutter(s, now);
    }
  }

  //
  // Leases
  //

  /** A renewal is accepted exactly from the worker that holds the lease of that id, and then the
      lease is live for exactly the duration from now. */
  lemma RenewExtends(s: Cluster, w: WorkerId, expected: LeaseId, t: Tenant, duration: Time, now: Time, later: Time)
    requires Inv(s)
    ensures var r := RenewLease(s, w, expected, t, duration, now);
            && (r.answer.Raised? ==> r.state == s)
            && (!r.answer.Raised? <==> exists j :: IsLeaseOf(s, j, w, t) && s.leases[j].id == expected)
            && forall j :: IsLeaseOf(s, j, w, t) && s.leases[j].id == expected ==>
                 && r.state == s.(leases := s.leases[j := s.leases[j].(expiresAt := now + duration)])
                 && (r.state.leases[j].IsExpired(later) <==> later >= now + duration)
  {
    LeaseOfWorkerIs(s, w, t);
  }

  /** A heartbeat makes a node or a worker count as alive for exactly the next minute. */
  lemma HeartbeatLasts(s: Cluster, n: NodeId, w: WorkerId, t: Tenant, now: Time, later: Time)
    requires Inv(s)
    ensures GetNode(s, n, t).Some? ==>
              (HeartbeatNode(s, n, t, now).state.nodes[n].IsAlive(later) <==> later <= now + HEARTBEAT_TIMEOUT)
    ensures GetWorker(s, w, t).Some? ==>
              var row := WorkerHeartbeat(s, w, t, now).state.workers[w];
              && (row.IsAlive(later) <==> later <= now + HEARTBEAT_TIMEOUT)
              && (row.status == Offline <==> s.workers[w].status == Offline && s.workers[w].runningJob.Some?)
  {
    if w in s.workers && s.workers[w].runningJob.Some? {
      assert Covers(s, w);
    }
  }

  lemma RenewedEvolves(s: Cluster, lease: Lease, now: Time)
    requires LeasedRows(s) && lease.job in s.leases && s.leases[lease.job] == lease
    ensures Evolves(s, SaveLease(s, lease.Renew(now, LEASE_DURATION)), None, now)
  {
  }

  lemma RenewLeaseKeeps(s: Cluster, w: WorkerId, expected: LeaseId, t: Tenant, now: Time)
    requires Inv(s)
    ensures Good(s, RenewLease(s, w, expected, t, LEASE_DURATION, now).state, None, now)
  {
    LeaseOfWorkerIs(s, w, t);
    var lease := LeaseOfWorker(s, w, t);
    if lease.Some? && lease.value.id == expected {
      assert LeaseOk(s, lease.value.job);
      LeaseEdit(s, lease.value.Renew(now, LEASE_DURATION));
      RenewedEvolves(s, lease.value, now);
    } else {
      Stutter(s, now);
    }
  }

  //
  // Letting a job go
  //

  function Refilled(node: Node): Node {
    node.(available := node.capacity)
  }

  /** The clamp in Release never cuts anything off a held job's resources. */
  lemma ReleaseIsExact(s: Cluster, w: WorkerId)
    requires Inv(s) && w in s.workers && s.workers[w].runningJob.Some?
    ensures s.workers[w].runningJob.value in s.jobs && s.workers[w].node in s.nodes
    ensures var node := s.nodes[s.workers[w].node];
            var freed := s.jobs[s.workers[w].runningJob.value].resources;
            && node.available.Plus(freed) == node.capacity
            && node.Release(freed) == Refilled(node)
  {
    assert Covers(s, w);
  }

  lemma SettleKeeps(s: Cluster, row: Worker, node: Node, job: Job, now: Time)
    requires Inv(s)
    requires CanSettle(s, row, node, job) && (s.nodes[node.id].draining ==> node.draining)
    requires JobEvolves(s.jobs[job.id], job, false, now)
    ensures Good(s, Settled(s, row, node, job), None, now)
  {
    Settle(s, row, node, job);
    SettledEvolves(s, row, node, job, now);
  }

  /** The copies a caller finishes with still describe the job that the lease is for. */
  ghost predicate Current(s: Cluster, row: Worker, job: Job, expected: LeaseId) {
    && row.id in s.workers
    && row.node == s.workers[row.id].node && row.tenant == s.workers[row.id].tenant
    && job.id in s.leases && s.leases[job.id].id == expected && s.leases[job.id].worker == row.id
    && job.id in s.jobs && SameIdentity(s.jobs[job.id], job)
    && job.node == s.jobs[job.id].node && job.retryCount == s.jobs[job.id].retryCount
  }

  lemma FinishSettles(s: Cluster, row: Worker, job: Job, expected: LeaseId, merge: bool)
    requires Inv(s)
    requires Current(s, row, job, expected)
    ensures row.node in s.nodes
    ensures Finish(s, row, job, expected, row.tenant, merge).answer == AWorker(row.Freed())
    ensures Finish(s, row, job, expected, row.tenant, merge).state
            == Settled(s, row.Freed(), Refilled(s.nodes[row.node]),
                       if merge then WithCancellation(job, Some(s.jobs[job.id])) else job)
  {
    LeaseOfWorkerIs(s, row.id, row.tenant);
    assert LeaseOk(s, job.id);
    assert IsLeaseOf(s, job.id, row.id, row.tenant);
    ReleaseIsExact(s, row.id);
  }

  /** A report either changes nothing or settles the job under the lease it names. */
  lemma ReportSettles(s: Cluster, outcome: Outcome, w: WorkerId, j: JobId, t: Tenant, expected: LeaseId,
                      exit: Option<int>, now: Time)
    requires Inv(s)
    ensures var r := ReportOutcome(s, outcome, w, j, t, expected, exit, now);
            || (r.answer.Raised? && r.state == s)
            || (&& w in s.workers && j in s.jobs && s.workers[w].node in s.nodes
                && Current(s, s.workers[w], s.jobs[j], expected)
                && s.jobs[j].Conclude(outcome, exit, now).Ok?
                && r.state == Settled(s, s.workers[w].Freed(), Refilled(s.nodes[s.workers[w].node]),
                                      s.jobs[j].Conclude(outcome, exit, now).value))
  {
    var r := ReportOutcome(s, outcome, w, j, t, expected, exit, now);
    if !r.answer.Raised? {
      LeaseOfWorkerIs(s, w, t);
      assert s.workers[w].runningJob == Some(j);
      assert LeaseOk(s, j);
      FinishSettles(s, s.workers[w], s.jobs[j].Conclude(outcome, exit, now).value, expected, false);
    }
  }

  /** The status an outcome ends in. */
  function EndOf(outcome: Outcome): Status {
    match outcome
    case Succeeded => Completed
    case Errored => Failed
    case WasCancelled => Cancelled
  }

  /** Worker w let go of job j, which ended with this outcome; every other row is as it was. */
  ghost predicate Ended(s: Cluster, s': Cluster, w: WorkerId, j: JobId, outcome: Outcome, exit: Option<int>, now: Time) {
    && j in s.leases && s.leases[j].worker == w && s'.leases == s.leases - {j}
    && j in s.jobs && j in s'.jobs && s'.jobs == s.jobs[j := s'.jobs[j]]
    && s'.jobs[j].status == EndOf(outcome) && s'.jobs[j].exitCode == exit && s'.jobs[j].completedAt == Some(now)
    && w in s.workers && w in s'.workers && s'.workers == s.workers[w := s'.workers[w]]
    && s'.workers[w].status == Idle && s'.workers[w].runningJob.None?
    && s'.issued == s.issued
    && var n := s.workers[w].node;
       n in s.nodes && s'.nodes == s.nodes[n := s.nodes[n].(available := s.nodes[n].capacity)]
  }

  /** An accepted report records exactly what it says, under the lease it names. */
  lemma ReportRecords(s: Cluster, outcome: Outcome, w: WorkerId, j: JobId, t: Tenant, expected: LeaseId,
                      exit: Option<int>, now: Time)
    requires Inv(s)
    requires !ReportOutcome(s, outcome, w, j, t, expected, exit, now).answer.Raised?
    ensures Ended(s, ReportOutcome(s, outcome, w, j, t, expected, exit, now).state, w, j, outcome, exit, now)
    ensures s.leases[j].id == expected
  {
    ReportSettles(s, outcome, w, j, t, expected, exit, now);
    assert s.jobs[j].id == j && s.workers[w].id == w && s.nodes[s.workers[w].node].id == s.workers[w].node;
  }

  lemma ReportKeeps(s: Cluster, outcome: Outcome, w: WorkerId, j: JobId, t: Tenant, expected: LeaseId,
                    exit: Option<int>, now: Time)
    requires Inv(s)
    ensures Good(s, ReportOutcome(s, outcome, w, j, t, expected, exit, now).state, None, now)
  {
    ReportSettles(s, outcome, w, j, t, expected, exit, now);
    if ReportOutcome(s, outcome, w, j, t, expected, exit, now).answer.Raised? {
      Stutter(s, now);
    } else {
      ConcludeKeeps(s, s.workers[w], s.jobs[j].Conclude(outcome, exit, now).value, expected, now);
    }
  }

  /** Settling a held job in a terminal state that the table allows. */
  lemma ConcludeKeeps(s: Cluster, row: Worker, job: Job, expected: LeaseId, now: Time)
    requires Inv(s) && Current(s, row, job, expected)
    requires JobEvolves(s.jobs[job.id], job, false, now)
    requires s.jobs[job.id].status != job.status && job.status in {Completed, Failed, Cancelled} && Stamped(job)
    ensures row.node in s.nodes
    ensures Good(s, Settled(s, row.Freed(), Refilled(s.nodes[row.node]), job), None, now)
  {
    assert LeaseOk(s, job.id) && JobOk(s, job.id);
    SettleKeeps(s, row.Freed(), Refilled(s.nodes[row.node]), job, now);
  }

  //
  // Taking a job back
  //

  /** The row a reclaim leaves behind: unchanged when the job is no longer reclaimable. */
  function Reclaimed(job: Job, now: Time): Job {
    match job.Reclaim(now)
    case Ok(job') => job'
    case Err(_) => job
  }

  lemma ReclaimKeeps(s: Cluster, w: WorkerId, row: Worker, now: Time)
    requires Inv(s) && w in s.workers && s.workers[w].runningJob.Some?
    requires row.id == w && row.node == s.workers[w].node && row.tenant == s.workers[w].tenant && row.runningJob.None?
    ensures s.workers[w].runningJob.value in s.jobs && s.workers[w].node in s.nodes
    ensures Good(s, Settled(s, row, Refilled(s.nodes[s.workers[w].node]),
                            Reclaimed(s.jobs[s.workers[w].runningJob.value], now)), None, now)
  {
    var j := s.workers[w].runningJob.value;
    assert LeaseOk(s, j) && JobOk(s, j);
    SettleKeeps(s, row, Refilled(s.nodes[s.workers[w].node]), Reclaimed(s.jobs[j], now), now);
  }

  /** reclaim_job on current copies, with the lease gone and the worker freed. */
  lemma ReclaimJobSettles(s: Cluster, w: WorkerId, row: Worker, now: Time)
    requires Inv(s) && w in s.workers && s.workers[w].runningJob.Some?
    requires row.id == w
    ensures var j := s.workers[w].runningJob.value;
            && j in s.jobs && s.workers[w].node in s.nodes
            && var job, node := s.jobs[j], s.nodes[s.workers[w].node];
               && ReclaimJob(SaveWorker(DeleteLease(s, j, job.tenant), row), job, Some(node), true, now)
                  == Settled(s, row, Refilled(node), Reclaimed(job, now))
               && SaveWorker(ReclaimJob(s, job, Some(node), false, now), row)
                  == Settled(s, row, Refilled(node), Reclaimed(job, now))
  {
    var j := s.workers[w].runningJob.value;
    assert LeaseOk(s, j);
    ReleaseIsExact(s, w);
    assert s.jobs[j := s.jobs[j]] == s.jobs;
  }

  //
  // Registration, on copies read by earlier calls
  //

  /** A node as some earlier call read it: tenant and capacity never change. */
  ghost predicate NodeCopy(s: Cluster, node: Node) {
    && node.id in s.nodes
    && node.tenant == s.nodes[node.id].tenant && node.capacity == s.nodes[node.id].capacity
  }

  /** A worker as CreateWorkerService returned it. */
  ghost predicate WorkerCopy(s: Cluster, row: Worker) {
    && row.id in s.workers && row.runningJob.None?
    && row.node == s.workers[row.id].node && row.tenant == s.workers[row.id].tenant
  }

  /** The copy of the node still serves to take the job of its worker back: with the job's resources
      it reaches the capacity, and it does not forget a drain. */
  ghost predicate Serves(s: Cluster, node: Node, w: WorkerId)
    requires NodeCopy(s, node) && w in s.workers
  {
    s.workers[w].runningJob.Some? && s.workers[w].runningJob.value in s.jobs ==>
      && node.capacity.Within(node.available.Plus(s.jobs[s.workers[w].runningJob.value].resources))
      && (s.nodes[node.id].draining ==> node.draining)
  }

  ghost predicate CopyServes(s: Cluster, node: Node)
    requires NodeCopy(s, node)
  {
    forall w :: IsWorkerOf(s, w, node.id, node.tenant) ==> Serves(s, node, w)
  }

  lemma CreateFreshKeeps(s: Cluster, node: Node, managedBy: ManagedBy, newId: WorkerId, now: Time)
    requires Inv(s) && newId !in s.workers && NodeCopy(s, node)
    requires forall w :: !IsWorkerOf(s, w, node.id, node.tenant)
    ensures Good(s, SaveWorker(s, NewWorker(newId, node, managedBy, now)), None, now)
  {
    forall w | w in s.workers ensures s.workers[w].node != node.id {
      assert !IsWorkerOf(s, w, node.id, node.tenant);
    }
    WorkerAdd(s, NewWorker(newId, node, managedBy, now));
    WorkerSaveEvolves(s, NewWorker(newId, node, managedBy, now), now);
  }

  /** Registering a node again keeps its worker's id and frees it; a job it held is taken back with
      whatever the caller's copy of the node says. */
  lemma CreateAgainSettles(s: Cluster, w: WorkerId, node: Node, managedBy: ManagedBy, newId: WorkerId, now: Time)
    requires Inv(s) && NodeCopy(s, node) && WorkerOfNode(s, node.id, node.tenant) == Some(w)
    ensures w in s.workers && s.workers[w].node == node.id
    ensures var row := s.workers[w].Freed().(managedBy := managedBy);
            var r := CreateWorker(s, node, managedBy, newId, now);
            && r.answer == AWorker(row)
            && (s.workers[w].runningJob.None? ==> r.state == SaveWorker(s, row))
            && (s.workers[w].runningJob.Some? ==>
                  && s.workers[w].runningJob.value in s.jobs
                  && var job := s.jobs[s.workers[w].runningJob.value];
                     r.state == Settled(s, row, node.Release(job.resources), Reclaimed(job, now)))
  {
    if s.workers[w].runningJob.Some? {
      var j := s.workers[w].runningJob.value;
      assert LeaseOk(s, j);
      assert s.jobs[j := s.jobs[j]] == s.jobs;
    }
  }

  lemma CreateAgainIsLegalIff(s: Cluster, w: WorkerId, node: Node, row: Worker, now: Time)
    requires Inv(s) && NodeCopy(s, node) && IsWorkerOf(s, w, node.id, node.tenant) && s.workers[w].runningJob.Some?
    requires row.id == w && row.node == node.id && row.tenant == node.tenant && row.runningJob.None?
    ensures s.workers[w].runningJob.value in s.jobs
    ensures var job := s.jobs[s.workers[w].runningJob.value];
            Good(s, Settled(s, row, node.Release(job.resources), Reclaimed(job, now)), None, now) <==> Serves(s, node, w)
  {
    var j := s.workers[w].runningJob.value;
    assert LeaseOk(s, j) && JobOk(s, j);
    var job, refilled := s.jobs[j], node.Release(s.jobs[j].resources);
    var s' := Settled(s, row, refilled, Reclaimed(job, now));
    if Serves(s, node, w) {
      SettleKeeps(s, row, refilled, Reclaimed(job, now), now);
    } else if refilled.available != node.capacity {
      assert s'.nodes[node.id].available != s'.nodes[node.id].capacity;
      assert Vacant(s'.workers, node.id);
    }
  }

  /** Creating the worker is a legal step if and only if the copy of the node still serves. */
  lemma CreateIsLegalIff(s: Cluster, node: Node, managedBy: ManagedBy, newId: WorkerId, now: Time)
    requires Inv(s) && newId !in s.workers && NodeCopy(s, node)
    ensures Good(s, CreateWorker(s, node, managedBy, newId, now).state, None, now) <==> CopyServes(s, node)
  {
    var existing := WorkerOfNode(s, node.id, node.tenant);
    if existing.None? {
      CreateFreshKeeps(s, node, managedBy, newId, now);
    } else {
      var w := existing.value;
      CreateAgainSettles(s, w, node, managedBy, newId, now);
      assert CopyServes(s, node) <==> Serves(s, node, w) by {
        assert forall v :: IsWorkerOf(s, v, node.id, node.tenant) ==> v == w;
      }
      var row := s.workers[w].Freed().(managedBy := managedBy);
      if s.workers[w].runningJob.Some? {
        CreateAgainIsLegalIff(s, w, node, row, now);
      } else {
        WorkerEditKeeps(s, row, now);
      }
    }
  }

  /** A copy read while the node was missing some resources serves to give back others if and only
      if none of the former exceeds the latter, and no drain came in between. A copy read while the
      node was free always gives everything back: there the clamp in release takes effect. */
  lemma CopyServesIff(s: Cluster, node: Node, w: WorkerId, missing: Resources)
    requires Inv(s) && NodeCopy(s, node) && IsWorkerOf(s, w, node.id, node.tenant) && s.workers[w].runningJob.Some?
    requires node.available.Plus(missing) == node.capacity
    ensures s.workers[w].runningJob.value in s.jobs
    ensures CopyServes(s, node) <==> missing.Within(s.jobs[s.workers[w].runningJob.value].resources)
                                     && (s.nodes[node.id].draining ==> node.draining)
  {
    assert LeaseOk(s, s.workers[w].runningJob.value);
    assert forall v :: IsWorkerOf(s, v, node.id, node.tenant) ==> v == w;
  }

  /** Saving the created worker once more as ready is a legal step if and only if it was given no
      job in between. */
  lemma ReadyIsLegalIff(s: Cluster, row: Worker, now: Time)
    requires Inv(s) && WorkerCopy(s, row)
    ensures Good(s, ReadyWorker(s, row).state, None, now) <==> s.workers[row.id].runningJob.None?
  {
    var ready := row.(status := Idle);
    if s.workers[row.id].runningJob.None? {
      WorkerEditKeeps(s, ready, now);
    } else {
      var j := s.workers[row.id].runningJob.value;
      assert LeaseOk(s, j);
      assert !LeaseOk(SaveWorker(s, ready), j);
    }
  }

  /** One expired lease recovered. Its effect, when the snapshot still names the lease's worker,
      is to settle the job of that worker. */
  lemma RecoverLeaseSettles(s: Cluster, snapshot: Lease, now: Time)
    requires Inv(s)
    requires snapshot.job in s.leases ==> s.leases[snapshot.job].worker == snapshot.worker
    ensures var r := RecoverLease(s, snapshot, now);
            var j := snapshot.job;
            || (r == s && (LeaseOfJob(s, j, snapshot.tenant).None? || !s.leases[j].IsExpired(now)))
            || (&& j in s.leases && s.leases[j].IsExpired(now) && j in s.jobs
                && snapshot.worker in s.workers && s.workers[snapshot.worker].runningJob == Some(j)
                && s.workers[snapshot.worker].node in s.nodes
                && r == Settled(s, s.workers[snapshot.worker].Freed(),
                                Refilled(s.nodes[s.workers[snapshot.worker].node]), Reclaimed(s.jobs[j], now)))
  {
    var j, w := snapshot.job, snapshot.worker;
    var current := LeaseOfJob(s, j, snapshot.tenant);
    if current.Some? && current.value.IsExpired(now) {
      assert LeaseOk(s, j);
      ReclaimJobSettles(s, w, s.workers[w].Freed(), now);
    }
  }

  lemma RecoverLeaseKeeps(s: Cluster, snapshot: Lease, now: Time)
    requires Inv(s)
    requires snapshot.job in s.leases ==> s.leases[snapshot.job].worker == snapshot.worker
    ensures Good(s, RecoverLease(s, snapshot, now), None, now)
  {
    RecoverLeaseSettles(s, snapshot, now);
    if RecoverLease(s, snapshot, now) != s {
      ReclaimKeeps(s, snapshot.worker, s.workers[snapshot.worker].Freed(), now);
    }
  }

  /** A snapshot that names another worker than the expired lease it removes breaks ownership:
      the lease's worker is left holding a job without a lease. */
  lemma StaleSnapshotBreaksOwnership(s: Cluster, snapshot: Lease, now: Time)
    requires Inv(s)
    requires LeaseOfJob(s, snapshot.job, snapshot.tenant).Some? && s.leases[snapshot.job].IsExpired(now)
    ensures Inv(RecoverLease(s, snapshot, now)) <==> s.leases[snapshot.job].worker == snapshot.worker
  {
    var j := snapshot.job;
    assert LeaseOk(s, j);
    if s.leases[j].worker == snapshot.worker {
      RecoverLeaseKeeps(s, snapshot, now);
    } else {
      var s' := RecoverLease(s, snapshot, now);
      var w := s.leases[j].worker;
      assert j !in s'.leases && w in s'.workers && s'.workers[w].runningJob == Some(j);
    }
  }

  lemma RecoverWorkerSettles(s: Cluster, listed: WorkerView, now: Time)
    requires Inv(s)
    requires LoadWorker(s, listed.row.id) == Some(listed)
    ensures var r := RecoverWorker(s, listed, now);
            var w := listed.row.id;
            || (r == s && (listed.job.None? || (listed.job.value.id in s.leases && !s.leases[listed.job.value.id].IsExpired(now))))
            || (&& listed.job.Some? && listed.job.value.id in s.leases && s.leases[listed.job.value.id].IsExpired(now)
                && s.workers[w].runningJob == Some(listed.job.value.id)
                && r == Settled(s, listed.row.Freed(), Refilled(listed.node), Reclaimed(listed.job.value, now)))
  {
    var w := listed.row.id;
    if listed.job.Some? {
      assert LeaseOk(s, s.workers[w].runningJob.value);
      ReclaimJobSettles(s, w, listed.row.Freed(), now);
    }
  }

  lemma RecoverWorkerKeeps(s: Cluster, listed: WorkerView, now: Time)
    requires Inv(s)
    requires LoadWorker(s, listed.row.id) == Some(listed)
    ensures Good(s, RecoverWorker(s, listed, now), None, now)
  {
    RecoverWorkerSettles(s, listed, now);
    if RecoverWorker(s, listed, now) != s {
      ReclaimKeeps(s, listed.row.id, listed.row.Freed(), now);
    }
  }

  //
  // Scheduling
  //

  predicate IsNodeRow(s: Cluster, node: Node) {
    node.id in s.nodes && s.nodes[node.id] == node
  }

  lemma {:induction false} NodesOfRows(s: Cluster, order: seq<NodeId>)
    requires KeysOk(s)
    ensures forall node :: node in NodesOf(s, order) ==> IsNodeRow(s, node)
  {
    if order != [] {
      var last := |order| - 1;
      NodesOfRows(s, order[..last]);
      var n := order[last];
      assert n in s.nodes ==> IsNodeRow(s, s.nodes[n]);
    }
  }

  /** The grant of a job to a worker on a node. */
  function GrantTo(s: Cluster, job: Job, node: Node, w: WorkerId, lid: LeaseId, now: Time): Cluster
    requires w in s.workers && job.resources.Within(node.available)
  {
    GrantedState(s, s.workers[w].(runningJob := Some(job.id), status := Busy),
                 node.(available := node.available.Minus(job.resources)),
                 job.(node := Some(node.id), status := Scheduled),
                 NewLease(lid, w, job.id, job.tenant, now))
  }

  /** Whether the cluster has a queued job and an idle worker on an eligible node for it. */
  ghost predicate CanPlace(s: Cluster, job: Job, node: Node, now: Time) {
    && job.id in s.jobs && s.jobs[job.id] == job && job.status == Queued
    && IsNodeRow(s, node) && Sound(node)
    && Eligible(job, node, now)
  }

  /** A listed node is read exactly when it has a row, in listing order. */
  lemma {:induction false} NodesOfAre(s: Cluster, order: seq<NodeId>)
    requires KeysOk(s)
    ensures forall n :: n in s.nodes ==> (s.nodes[n] in NodesOf(s, order) <==> n in order)
    ensures forall i, k :: 0 <= i < k < |NodesOf(s, order)| ==> Precedes(order, NodesOf(s, order)[i].id, NodesOf(s, order)[k].id)
  {
    if order != [] {
      var last := |order| - 1;
      var front, nodes := NodesOf(s, order[..last]), NodesOf(s, order);
      NodesOfAre(s, order[..last]);
      NodesOfRows(s, order[..last]);
      forall n | n in s.nodes ensures s.nodes[n] in nodes <==> n in order {
        assert n in order <==> n in order[..last] || n == order[last];
        assert order[last] in s.nodes && s.nodes[n] == s.nodes[order[last]] ==> n == order[last];
      }
      forall i, k | 0 <= i < k < |nodes| ensures Precedes(order, nodes[i].id, nodes[k].id) {
        if k < |front| {
          assert nodes[i] == front[i] && nodes[k] == front[k];
          PrecedesEarlier(order, last, nodes[i].id, nodes[k].id);
        } else {
          assert front[i] in front && IsNodeRow(s, front[i]);
          assert order[last] in s.nodes && nodes[k] == s.nodes[order[last]] && nodes[k].id == order[last];
          assert nodes[i].id in order[..last];
          var a :| 0 <= a < |order[..last]| && order[..last][a] == nodes[i].id;
          PrecedesIn(order, nodes[i].id, nodes[k].id, a, last);
        }
      }
    }
  }

  /** Some listed node could take the job. */
  ghost predicate SomeEligible(s: Cluster, job: Job, nodeOrder: seq<NodeId>, now: Time) {
    exists n :: n in nodeOrder && n in s.nodes && Eligible(job, s.nodes[n], now)
  }

  ghost predicate HasIdle(s: Cluster, workerOrder: seq<WorkerId>, n: NodeId) {
    exists w :: w in workerOrder && w in s.workers && s.workers[w].node == n && s.workers[w].status == Idle
  }

  /** A refused placement leaves the cluster as it was; a granted one is a grant to the first
      idle worker of the chosen node; and "Job already has an active lease" never escapes. */
  lemma ScheduleOneGrants(s: Cluster, j: JobId, nodeOrder: seq<NodeId>, workerOrder: seq<WorkerId>, lid: LeaseId, now: Time)
    requires Inv(s)
    requires lid !in s.issued
    ensures NodesSound(s) && AllSound(NodesOf(s, nodeOrder))
    ensures var r := ScheduleOne(s, j, nodeOrder, workerOrder, lid, now);
            && r.placement != Escaped
            && (r.placement != Granted ==> r.state == s)
            && (r.placement == Granted ==>
                  && j in s.jobs
                  && var node := SelectNode(s.jobs[j], NodesOf(s, nodeOrder), now);
                     && node.Some? && CanPlace(s, s.jobs[j], node.value, now)
                     && var w := FirstIdle(s, workerOrder, node.value.id);
                        && w.Some?
                        && r.state == GrantTo(s, s.jobs[j], node.value, w.value, lid, now))
  {
    InvSound(s);
    NodesOfSound(s, nodeOrder);
    NodesOfRows(s, nodeOrder);
    if j in s.jobs && s.jobs[j].status == Queued {
      var chosen := SelectNode(s.jobs[j], NodesOf(s, nodeOrder), now);
      if chosen.Some? {
        PlaceGrants(s, s.jobs[j], chosen.value, workerOrder, lid, now);
      }
    }
  }

  lemma ChosenIffEligible(s: Cluster, job: Job, nodeOrder: seq<NodeId>, now: Time)
    requires KeysOk(s) && AllSound(NodesOf(s, nodeOrder))
    ensures SelectNode(job, NodesOf(s, nodeOrder), now).Some? <==> SomeEligible(s, job, nodeOrder, now)
  {
    var nodes := NodesOf(s, nodeOrder);
    NodesOfAre(s, nodeOrder);
    NodesOfRows(s, nodeOrder);
    SelectsEarliestBest(job, nodes, now, 0);
    SelectNodeIsSelectIndex(job, nodes, now);
    if SomeEligible(s, job, nodeOrder, now) {
      var n :| n in nodeOrder && n in s.nodes && Eligible(job, s.nodes[n], now);
      assert s.nodes[n] in nodes;
    }
  }

  /** A job is granted exactly when it is queued, some listed node is eligible, and a worker of the
      selected one is listed and idle. */
  lemma GrantedIff(s: Cluster, j: JobId, nodeOrder: seq<NodeId>, workerOrder: seq<WorkerId>, lid: LeaseId, now: Time)
    requires Inv(s) && lid !in s.issued
    ensures NodesSound(s) && AllSound(NodesOf(s, nodeOrder))
    ensures var r := ScheduleOne(s, j, nodeOrder, workerOrder, lid, now);
            var queued := j in s.jobs && s.jobs[j].status == Queued;
            && (r.placement == NoNode <==> !queued || !SomeEligible(s, s.jobs[j], nodeOrder, now))
            && (r.placement == Granted <==>
                  && queued
                  && var node := SelectNode(s.jobs[j], NodesOf(s, nodeOrder), now);
                     node.Some? && HasIdle(s, workerOrder, node.value.id))
  {
    ScheduleOneGrants(s, j, nodeOrder, workerOrder, lid, now);
    NodesOfRows(s, nodeOrder);
    if j in s.jobs && s.jobs[j].status == Queued {
      ChosenIffEligible(s, s.jobs[j], nodeOrder, now);
      var chosen := SelectNode(s.jobs[j], NodesOf(s, nodeOrder), now);
      if chosen.Some? {
        assert s.jobs[j].id == j;
        PlaceGrants(s, s.jobs[j], chosen.value, workerOrder, lid, now);
      }
    }
  }

  lemma PlaceGrants(s: Cluster, job: Job, node: Node, workerOrder: seq<WorkerId>, lid: LeaseId, now: Time)
    requires Inv(s)
    requires CanPlace(s, job, node, now)
    ensures var r := Place(s, job, node, workerOrder, lid, now);
            var w := FirstIdle(s, workerOrder, node.id);
            r == if w.None? then Placed(s, NoWorker) else Placed(GrantTo(s, job, node, w.value, lid, now), Granted)
  {
    var node1 := node.Allocate(job.resources).value;
    var job1 := job.AssignTo(node.id).value;
    var saved := SaveJob(SaveNode(s, node1), job1);
    assert JobOk(s, job.id);
    SameFirstIdle(s, saved, workerOrder, node.id);
    if FirstIdle(s, workerOrder, node.id).None? {
      assert node1.Release(job1.resources) == node;
      assert s.nodes[node.id := node1][node.id := node] == s.nodes;
      assert s.jobs[job.id := job1][job.id := job] == s.jobs;
    } else {
      AssignGrants(s, job, node, workerOrder, lid, now);
    }
  }

  lemma AssignGrants(s: Cluster, job: Job, node: Node, workerOrder: seq<WorkerId>, lid: LeaseId, now: Time)
    requires Inv(s)
    requires CanPlace(s, job, node, now)
    requires FirstIdle(s, workerOrder, node.id).Some?
    ensures var w := FirstIdle(s, workerOrder, node.id).value;
            var node1 := node.(available := node.available.Minus(job.resources));
            var job1 := job.(node := Some(node.id), status := Scheduled);
            var r := AssignWorker(SaveJob(SaveNode(s, node1), job1), job1, workerOrder, lid, now);
            r.answer.AWorker? && r.state == GrantTo(s, job, node, w, lid, now)
  {
    var w := FirstIdle(s, workerOrder, node.id).value;
    var node1 := node.(available := node.available.Minus(job.resources));
    var job1 := job.(node := Some(node.id), status := Scheduled);
    var saved := SaveJob(SaveNode(s, node1), job1);
    SameFirstIdle(s, saved, workerOrder, node.id);
    assert job.id !in s.leases;
    assert LoadWorker(saved, w).Some?;
    assert LoadWorker(saved, w).value.row == s.workers[w];
    assert LoadWorker(saved, w).value.node == node1;
  }

  lemma {:induction false} SameFirstIdle(s: Cluster, s': Cluster, order: seq<WorkerId>, n: NodeId)
    requires s.workers == s'.workers
    ensures FirstIdle(s, order, n) == FirstIdle(s', order, n)
  {
    if order != [] {
      SameFirstIdle(s, s', order[1..], n);
    }
  }

  lemma ScheduleOneKeeps(s: Cluster, j: JobId, nodeOrder: seq<NodeId>, workerOrder: seq<WorkerId>, lid: LeaseId, now: Time)
    requires Inv(s)
    requires lid !in s.issued
    ensures NodesSound(s)
    ensures Good(s, ScheduleOne(s, j, nodeOrder, workerOrder, lid, now).state, None, now)
  {
    ScheduleOneGrants(s, j, nodeOrder, workerOrder, lid, now);
    var r := ScheduleOne(s, j, nodeOrder, workerOrder, lid, now);
    if r.placement == Granted {
      var node := SelectNode(s.jobs[j], NodesOf(s, nodeOrder), now).value;
      GrantToKeeps(s, s.jobs[j], node, FirstIdle(s, workerOrder, node.id).value, lid, now);
    } else {
      Stutter(s, now);
    }
  }

  lemma GrantToKeeps(s: Cluster, job: Job, node: Node, w: WorkerId, lid: LeaseId, now: Time)
    requires Inv(s) && lid !in s.issued
    requires CanPlace(s, job, node, now)
    requires w in s.workers && s.workers[w].node == node.id && s.workers[w].status == Idle
    ensures Good(s, GrantTo(s, job, node, w, lid, now), None, now)
  {
    GrantKeeps(s, s.workers[w].(runningJob := Some(job.id), status := Busy),
               node.(available := node.available.Minus(job.resources)),
               job.(node := Some(node.id), status := Scheduled),
               NewLease(lid, w, job.id, job.tenant, now), now);
  }

  lemma GrantKeeps(s: Cluster, row: Worker, node: Node, job: Job, lease: Lease, now: Time)
    requires Inv(s)
    requires CanGrant(s, row, node, job, lease) && (s.nodes[node.id].draining ==> node.draining)
    requires JobEvolves(s.jobs[job.id], job, false, now) && lease.expiresAt == now + LEASE_DURATION
    ensures Good(s, GrantedState(s, row, node, job, lease), None, now)
  {
    Grant(s, row, node, job, lease);
    GrantedEvolves(s, row, node, job, lease, now);
  }
}
