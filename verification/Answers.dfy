/** What every call answers and leaves behind, read off the rows it finds. */
module Answers {
  import opened Options
  import opened Domain
  import opened ClusterModel
  import opened Invariant
  import opened Steps
  import opened ListedWorkers
  import opened Runs

  //
  // Nodes
  //

  lemma NodeAnswers(s: Cluster, n: NodeId, t: Tenant, capacity: Resources, labels: map<string, string>, now: Time)
    requires Inv(s)
    ensures CreateNode(s, n, t, capacity, labels, now).state
            == s.(nodes := s.nodes[n := Node(n, t, capacity, capacity, labels, now, false)])
    ensures HeartbeatNode(s, n, t, now).state
            == if n in s.nodes && s.nodes[n].tenant == t then s.(nodes := s.nodes[n := s.nodes[n].(lastSeen := now)]) else s
    ensures DrainNode(s, n, t).state
            == if n in s.nodes && s.nodes[n].tenant == t then s.(nodes := s.nodes[n := s.nodes[n].(draining := true)]) else s
    ensures DrainNode(s, n, t).answer == Raised(NodeNotFound) <==> n !in s.nodes || s.nodes[n].tenant != t
    ensures !DrainNode(s, n, t).answer.Raised? <==> n in s.nodes && s.nodes[n].tenant == t
  {
    assert n in s.nodes ==> s.nodes[n].id == n;
  }

  //
  // Leases
  //

  /** A release is accepted exactly from the worker that holds the lease of that id, and takes that
      lease and nothing else. */
  lemma ReleaseAnswers(s: Cluster, w: WorkerId, expected: LeaseId, t: Tenant)
    requires Inv(s)
    ensures var r := ReleaseLease(s, w, expected, t);
            && (r.answer.Raised? ==> r.state == s)
            && (r.answer == Raised(NoActiveLease) <==> forall j :: !IsLeaseOf(s, j, w, t))
            && (r.answer == Raised(LeaseNotFound) <==> exists j :: IsLeaseOf(s, j, w, t) && s.leases[j].id != expected)
            && forall j :: IsLeaseOf(s, j, w, t) && s.leases[j].id == expected ==>
                 r == Step(s.(leases := s.leases - {j}), Nothing)
  {
    LeaseOfWorkerIs(s, w, t);
    forall j | IsLeaseOf(s, j, w, t) ensures GetWorker(s, w, t).Some? && GetJob(s, j, t).Some? && s.leases[j].job == j {
      assert LeaseOk(s, j);
    }
  }

  lemma RenewAnswers(s: Cluster, w: WorkerId, expected: LeaseId, t: Tenant, duration: Time, now: Time)
    requires Inv(s)
    ensures var r := RenewLease(s, w, expected, t, duration, now);
            && (r.answer == Raised(NoActiveLease) <==> forall j :: !IsLeaseOf(s, j, w, t))
            && (r.answer == Raised(LeaseNotFound) <==> exists j :: IsLeaseOf(s, j, w, t) && s.leases[j].id != expected)
            && (!r.answer.Raised? <==> exists j :: IsLeaseOf(s, j, w, t) && s.leases[j].id == expected)
  {
    LeaseOfWorkerIs(s, w, t);
  }

  /** A lease is acquired exactly for a job of the worker's tenant that has none: for thirty seconds,
      under the new id, and nothing else changes. */
  lemma AcquireAnswers(s: Cluster, worker: WorkerView, job: Job, lid: LeaseId, now: Time)
    requires Inv(s)
    ensures var r := AcquireLease(s, worker, job, lid, now);
            var taken := job.id in s.leases && s.leases[job.id].tenant == job.tenant;
            if job.tenant != worker.node.tenant then r == Step(s, Raised(TenantConflict))
            else if taken then r == Step(s, Raised(AlreadyLeased))
            else r == Step(s.(leases := s.leases[job.id := Lease(lid, worker.row.id, job.id, job.tenant, now, now + 30)],
                              issued := s.issued[lid := job.id]), Nothing)
  {
  }

  /** The worker that accepts a job is the first idle one on its node; without one, or with one of
      another tenant, there is no available node, and a job that is leased already is refused. */
  lemma AssignAnswers(s: Cluster, job: Job, order: seq<WorkerId>, lid: LeaseId, now: Time)
    requires Inv(s) && job.node.Some?
    ensures var r := AssignWorker(s, job, order, lid, now);
            var w := FirstIdle(s, order, job.node.value);
            if w.None? || s.workers[w.value].tenant != job.tenant then r == Step(s, Raised(NoAvailableNode))
            else if job.id in s.leases && s.leases[job.id].tenant == job.tenant then r == Step(s, Raised(AlreadyLeased))
            else
              var row := s.workers[w.value].(runningJob := Some(job.id), status := Busy);
              r == Step(s.(leases := s.leases[job.id := Lease(lid, w.value, job.id, job.tenant, now, now + 30)],
                           issued := s.issued[lid := job.id], workers := s.workers[w.value := row]), AWorker(row))
  {
    var w := FirstIdle(s, order, job.node.value);
    if w.Some? {
      assert s.workers[w.value].id == w.value;
    }
  }

  //
  // Starting and reporting
  //

  lemma HeldByWorker(s: Cluster, w: WorkerId, j: JobId, t: Tenant)
    requires Inv(s)
    ensures w in s.workers && s.workers[w].tenant == t && s.workers[w].runningJob == Some(j) <==> IsLeaseOf(s, j, w, t)
    ensures IsLeaseOf(s, j, w, t) ==> j in s.jobs && s.jobs[j].id == j && s.jobs[j].tenant == t
                                      && GetWorker(s, w, t).Some? && GetWorker(s, w, t).value.job == Some(s.jobs[j])
  {
    if j in s.leases {
      assert LeaseOk(s, j);
    }
  }

  /** A start is accepted exactly from the worker that holds the job's lease, while the job is
      scheduled. */
  lemma StartAnswers(s: Cluster, w: WorkerId, j: JobId, t: Tenant, now: Time)
    requires Inv(s)
    ensures var r := StartJob(s, w, j, t, now);
            if w !in s.workers || s.workers[w].tenant != t then r == Step(s, Raised(WorkerNotFound))
            else if !IsLeaseOf(s, j, w, t) then r == Step(s, Raised(WorkerJobMismatch))
            else if s.jobs[j].status != Scheduled then r == Step(s, Raised(InvalidTransition))
            else r == Step(s.(jobs := s.jobs[j := s.jobs[j].(status := Running, startedAt := Some(now))]), AWorker(s.workers[w]))
  {
    HeldByWorker(s, w, j, t);
    if w in s.workers {
      assert s.workers[w].id == w && s.workers[w := s.workers[w]] == s.workers;
      if s.workers[w].runningJob.Some? {
        HeldByWorker(s, w, s.workers[w].runningJob.value, t);
      }
    }
  }

  /** The ends that a job's state allows an execution. */
  predicate MayEnd(status: Status, outcome: Outcome) {
    (status, EndOf(outcome)) in {
      (Scheduled, Failed), (Scheduled, Cancelled),
      (Running, Completed), (Running, Failed),
      (Cancelling, Completed), (Cancelling, Failed), (Cancelling, Cancelled)}
  }

  lemma ConcludesIff(job: Job, outcome: Outcome, exit: Option<int>, now: Time)
    requires IsActive(job.status) || job.status == Cancelled
    ensures job.Conclude(outcome, exit, now)
            == if MayEnd(job.status, outcome)
               then Ok(job.(status := EndOf(outcome), completedAt := Some(now), exitCode := exit)) else Err(InvalidTransition)
  {
  }

  /** A report is accepted exactly from the worker that holds the job, under the id of its lease, when
      the job's state allows the end; a refused report says why. */
  lemma ReportAnswers(s: Cluster, outcome: Outcome, w: WorkerId, j: JobId, t: Tenant, expected: LeaseId,
                      exit: Option<int>, now: Time)
    requires Inv(s)
    ensures var r := ReportOutcome(s, outcome, w, j, t, expected, exit, now);
            if w !in s.workers || s.workers[w].tenant != t then r == Step(s, Raised(WorkerNotFound))
            else if !IsLeaseOf(s, j, w, t) then r == Step(s, Raised(WorkerJobMismatch))
            else if !MayEnd(s.jobs[j].status, outcome) then r == Step(s, Raised(InvalidTransition))
            else if s.leases[j].id != expected then r == Step(s, Raised(LeaseNotFound))
            else && r.answer == AWorker(s.workers[w].(status := Idle, runningJob := None))
                 && Ended(s, r.state, w, j, outcome, exit, now)
    ensures !ReportOutcome(s, outcome, w, j, t, expected, exit, now).answer.Raised? <==>
            IsLeaseOf(s, j, w, t) && s.leases[j].id == expected && MayEnd(s.jobs[j].status, outcome)
  {
    HeldByWorker(s, w, j, t);
    if w in s.workers && s.workers[w].runningJob.Some? {
      HeldByWorker(s, w, s.workers[w].runningJob.value, t);
    }
    if IsLeaseOf(s, j, w, t) {
      ReportHeld(s, outcome, j, expected, exit, now);
    }
  }

  lemma ReportHeld(s: Cluster, outcome: Outcome, j: JobId, expected: LeaseId, exit: Option<int>, now: Time)
    requires Inv(s) && j in s.leases
    ensures j in s.jobs && s.leases[j].worker in s.workers
    ensures var w, t := s.leases[j].worker, s.leases[j].tenant;
            var r := ReportOutcome(s, outcome, w, j, t, expected, exit, now);
            if !MayEnd(s.jobs[j].status, outcome) then r == Step(s, Raised(InvalidTransition))
            else if s.leases[j].id != expected then r == Step(s, Raised(LeaseNotFound))
            else && r.answer == AWorker(s.workers[w].(status := Idle, runningJob := None))
                 && Ended(s, r.state, w, j, outcome, exit, now)
  {
    var w, t := s.leases[j].worker, s.leases[j].tenant;
    assert LeaseOk(s, j) && IsLeaseOf(s, j, w, t) && s.jobs[j].id == j && s.workers[w].id == w;
    HeldByWorker(s, w, j, t);
    ConcludesIff(s.jobs[j], outcome, exit, now);
    ReleaseAnswers(s, w, expected, t);
    if MayEnd(s.jobs[j].status, outcome) && s.leases[j].id == expected {
      var job := s.jobs[j].Conclude(outcome, exit, now).value;
      FinishSettles(s, s.workers[w], job, expected, false);
      ReportRecords(s, outcome, w, j, t, expected, exit, now);
    }
  }

  //
  // The execution loop
  //

  /** A loop begins exactly when its worker carries a job that is scheduled or running, and captures
      the worker, the started job and its lease. */
  lemma BeginAnswers(s: Cluster, w: WorkerId, now: Time)
    requires Inv(s)
    ensures var b := BeginExecution(s, w, now);
            var held := if w in s.workers then s.workers[w].runningJob else None;
            if held.None? || s.jobs[held.value].status !in {Scheduled, Running} then b == Begun(s, None)
            else
              var j := held.value;
              var job := if s.jobs[j].status == Running then s.jobs[j]
                         else s.jobs[j].(status := Running, startedAt := Some(now));
              b == Begun(s.(jobs := s.jobs[j := job]), Some(Execution(s.workers[w], job, s.leases[j].id, false)))
  {
    if w in s.workers && s.workers[w].runningJob.Some? {
      var j, t := s.workers[w].runningJob.value, s.workers[w].tenant;
      HeldByWorker(s, w, j, t);
      LeaseOfWorkerIs(s, w, t);
      assert LeaseOk(s, j) && s.jobs[j := s.jobs[j]] == s.jobs;
    }
  }

  /** A loop that begins is under way from then on. */
  lemma BegunLoopRuns(sys: System, run: nat, w: WorkerId, now: Time)
    requires Inv(sys.c) && Enabled(sys, LoopBegin(run, w), now)
    ensures var held := if w in sys.c.workers then sys.c.workers[w].runningJob else None;
            var sys' := Next(sys, LoopBegin(run, w), now);
            if held.None? || sys.c.jobs[held.value].status !in {Scheduled, Running} then sys'.loops == sys.loops
            else && run in sys'.loops && sys'.loops == sys.loops[run := sys'.loops[run]]
                 && sys'.loops[run].job == sys'.c.jobs[held.value] && sys'.loops[run].job.status == Running
                 && sys'.loops[run].row == sys.c.workers[w] && !sys'.loops[run].lost
                 && Holds(sys'.c, sys'.loops[run].lease, held.value)
  {
    BeginAnswers(sys.c, w, now);
    if w in sys.c.workers && sys.c.workers[w].runningJob.Some? {
      assert LeaseOk(sys.c, sys.c.workers[w].runningJob.value);
    }
  }

  /** A loop that looks while its lease is held sees a cancellation exactly when the row is cancelling
      and its own copy still running; nothing else changes. */
  lemma ObserveSees(s: Cluster, e: Execution, now: Time)
    requires Inv(s) && LoopOk(s, e) && Holds(s, e.lease, e.job.id)
    ensures ObserveCancellation(s, e, now)
            == if s.jobs[e.job.id].status == Cancelling && e.job.status == Running
               then e.(job := e.job.(status := Cancelling, cancelRequestedAt := Some(now))) else e
  {
    assert LeaseOk(s, e.job.id);
  }

  /** A renewal marks a loop lost exactly when its worker has a lease under another id, and changes
      nothing else of it. */
  lemma RenewLosesIff(s: Cluster, e: Execution, now: Time)
    requires Inv(s)
    ensures RenewExecution(s, e, now).1
            == e.(lost := e.lost || exists j :: IsLeaseOf(s, j, e.row.id, e.row.tenant) && s.leases[j].id != e.lease)
    ensures !RenewLease(s, e.row.id, e.lease, e.row.tenant, LEASE_DURATION, now).answer.Raised? && LoopOk(s, e) ==>
              Holds(s, e.lease, e.job.id)
  {
    RenewAnswers(s, e.row.id, e.lease, e.row.tenant, LEASE_DURATION, now);
    if j :| IsLeaseOf(s, j, e.row.id, e.row.tenant) && s.leases[j].id == e.lease {
      assert LeaseOk(s, j);
    }
  }

  /** One round of the renewal thread, renewal and look together. */
  lemma RoundAnswers(s: Cluster, e: Execution, now: Time)
    requires Inv(s) && LoopOk(s, e)
    ensures var renewed := RenewLease(s, e.row.id, e.lease, e.row.tenant, LEASE_DURATION, now);
            && (!renewed.answer.Raised? <==> Holds(s, e.lease, e.job.id))
            && (renewed.answer == Raised(LeaseNotFound) <==>
                  exists j :: IsLeaseOf(s, j, e.row.id, e.row.tenant) && s.leases[j].id != e.lease)
            && renewed.state.jobs == s.jobs
            && (Holds(s, e.lease, e.job.id) ==>
                  && e.job.id in s.jobs
                  && ObserveCancellation(renewed.state, e, now)
                     == if s.jobs[e.job.id].status == Cancelling && e.job.status == Running
                        then e.(job := e.job.(status := Cancelling, cancelRequestedAt := Some(now))) else e)
  {
    RenewAnswers(s, e.row.id, e.lease, e.row.tenant, LEASE_DURATION, now);
    RenewLosesIff(s, e, now);
    if Holds(s, e.lease, e.job.id) {
      assert LeaseOk(s, e.job.id) && IsLeaseOf(s, e.job.id, e.row.id, e.row.tenant);
      ObserveSees(s, e, now);
    }
  }

  /** A loop's finish is accepted exactly when it was not marked lost, still holds its lease, and its
      own copy allows the end. */
  lemma FinishAnswers(s: Cluster, e: Execution, outcome: Outcome, exit: Option<int>, now: Time)
    requires Inv(s) && LoopOk(s, e)
    ensures !FinishExecution(s, e, outcome, exit, now).answer.Raised? <==>
            !e.lost && Holds(s, e.lease, e.job.id) && MayEnd(e.job.status, outcome)
  {
    if !e.lost && Holds(s, e.lease, e.job.id) {
      assert LeaseOk(s, e.job.id);
      ConcludesIff(e.job, outcome, exit, now);
      if MayEnd(e.job.status, outcome) {
        FinishSettles(s, e.row, e.job.Conclude(outcome, exit, now).value, e.lease, true);
      }
    } else {
      FinishExecutionSettles(s, e, outcome, exit, now);
    }
  }

  //
  // The offline-node pass
  //

  /** The pass lists exactly the workers, as they are, of the nodes whose last heartbeat is more than a
      minute old. */
  lemma SweepAnswers(s: Cluster, nodes: set<NodeId>, view: WorkerView, n: NodeId, now: Time)
    requires Inv(s)
    ensures n in OfflineNodes(s, now) <==> n in s.nodes && now - s.nodes[n].lastSeen > 60
    ensures view in WorkersOn(s, nodes) <==> IsCurrent(s, view) && view.row.node in nodes
  {
    if IsCurrent(s, view) {
      assert s.workers[view.row.id].id == view.row.id;
    }
    if w :| w in s.workers && s.workers[w].node in nodes && LoadWorker(s, w) == Some(view) {
      assert s.workers[w].id == w;
    }
  }

  //
  // Registration
  //

  /** A node without a worker gets an idle one under the new id. */
  lemma CreateAnswers(s: Cluster, node: Node, managedBy: ManagedBy, newId: WorkerId, now: Time)
    requires Inv(s) && NodeCopy(s, node) && forall w :: w in s.workers ==> s.workers[w].node != node.id
    ensures var row := Worker(newId, node.id, node.tenant, Idle, managedBy, None, now);
            CreateWorker(s, node, managedBy, newId, now) == Step(s.(workers := s.workers[newId := row]), AWorker(row))
  {
  }

  lemma ReadyAnswers(s: Cluster, row: Worker)
    requires Inv(s) && WorkerCopy(s, row)
    ensures ReadyWorker(s, row)
            == Step(s.(workers := s.workers[row.id := row.(status := Idle)]), AWorker(row.(status := Idle)))
  {
  }

  /** What taking an active job back makes of it. */
  lemma ReclaimAnswers(job: Job, now: Time)
    requires IsActive(job.status)
    ensures job.Reclaim(now)
            == Ok(if job.status == Cancelling then job.(status := Cancelled, node := None, completedAt := Some(now))
                  else if job.retryCount < job.maxRetries then
                    job.(status := Queued, retryCount := job.retryCount + 1, node := None, startedAt := None,
                         completedAt := None, exitCode := None)
                  else job.(status := Failed, node := None, completedAt := Some(now)))
  {
  }
}
