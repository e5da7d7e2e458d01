/** What the services promise together, over every run of the system. */
module Guarantees {
  import opened Options
  import opened Domain
  import opened ClusterModel
  import opened Invariant
  import opened Steps
  import opened ListedWorkers
  import opened Runs
  import opened Answers

  datatype Run = Run(states: seq<System>, actions: seq<Action>, times: seq<Time>)

  ghost predicate IsRun(r: Run) {
    && |r.actions| == |r.times| && |r.states| == |r.actions| + 1
    && r.states[0] == Start(r.states[0].clock)
    && forall i :: 0 <= i < |r.actions| ==> StepsTo(r, i)
  }

  ghost predicate StepsTo(r: Run, i: nat)
    requires i < |r.actions| == |r.times| && |r.states| == |r.actions| + 1
  {
    && Enabled(r.states[i], r.actions[i], r.times[i])
    && r.states[i + 1] == Next(r.states[i], r.actions[i], r.times[i])
  }

  /** The tables at a point of a run. */
  ghost function At(r: Run, i: nat): Cluster
    requires i < |r.states|
  {
    r.states[i].c
  }

  lemma {:induction false} Reachable(r: Run, i: nat)
    requires IsRun(r) && i < |r.states|
    ensures SysInv(r.states[i])
  {
    if i == 0 {
      StartOk(r.states[0].clock);
    } else {
      Reachable(r, i - 1);
      assert StepsTo(r, i - 1);
      StepKeeps(r.states[i - 1], r.actions[i - 1], r.times[i - 1]);
    }
  }

  lemma StepIsGood(r: Run, i: nat)
    requires IsRun(r) && i < |r.actions|
    ensures Inv(At(r, i))
    ensures Good(At(r, i), At(r, i + 1), RetriedBy(r.actions[i]), r.times[i])
  {
    Reachable(r, i);
    assert StepsTo(r, i);
    StepKeeps(r.states[i], r.actions[i], r.times[i]);
  }

  //
  // Exclusive ownership
  //

  ghost predicate Carries(s: Cluster, w: WorkerId, j: JobId) {
    w in s.workers && s.workers[w].runningJob == Some(j)
  }

  ghost predicate Leased(s: Cluster, w: WorkerId, j: JobId) {
    j in s.leases && s.leases[j].worker == w
  }

  /** Lease, worker, job and node of one holding fit together. */
  ghost predicate Fits(s: Cluster, w: WorkerId, j: JobId) {
    && w in s.workers && j in s.jobs && j in s.leases
    && s.workers[w].status != Idle
    && s.jobs[j].node == Some(s.workers[w].node)
    && s.workers[w].node in s.nodes
    && s.leases[j].tenant == s.workers[w].tenant == s.jobs[j].tenant == s.nodes[s.workers[w].node].tenant
  }

  ghost predicate ExclusiveOwnership(s: Cluster) {
    && (forall w, j :: Leased(s, w, j) <==> Carries(s, w, j))
    && (forall w, j :: Leased(s, w, j) ==> Fits(s, w, j))
    && (forall w, i, j :: Leased(s, w, i) && Leased(s, w, j) ==> i == j)
    && (forall j :: j in s.jobs && IsActive(s.jobs[j].status) ==> j in s.leases)
    && (forall j :: j in s.jobs && s.jobs[j].status in {Submitted, Queued, Failed, Completed} ==> j !in s.leases)
  }

  /** At every point of every run leases and job-holding workers correspond one to one. */
  lemma OwnershipAlways(r: Run, i: nat)
    requires IsRun(r) && i < |r.states|
    ensures ExclusiveOwnership(At(r, i))
  {
    Reachable(r, i);
    var s := At(r, i);
    forall w, j ensures Leased(s, w, j) <==> Carries(s, w, j) {
      if j in s.leases { assert LeaseOk(s, j); }
    }
    forall w, j | Leased(s, w, j) ensures Fits(s, w, j) {
      assert LeaseOk(s, j);
    }
    forall j | j in s.jobs ensures IsActive(s.jobs[j].status) ==> j in s.leases {
      assert JobOk(s, j);
    }
    forall w, a, b | Leased(s, w, a) && Leased(s, w, b) ensures a == b {
      assert LeaseOk(s, a) && LeaseOk(s, b);
    }
  }

  //
  // Resource conservation
  //

  /** Worker w of node n carries job j. */
  ghost predicate CarriesOn(s: Cluster, n: NodeId, w: WorkerId, j: JobId) {
    Carries(s, w, j) && s.workers[w].node == n && j in s.jobs
  }

  /** The resources of the job that a node's worker holds. */
  ghost function HeldOn(s: Cluster, n: NodeId): (held: Resources)
    ensures held == NO_RESOURCES || exists w, j :: CarriesOn(s, n, w, j) && held == s.jobs[j].resources
    ensures (exists w, j :: CarriesOn(s, n, w, j)) ==> exists w, j :: CarriesOn(s, n, w, j) && held == s.jobs[j].resources
  {
    if w, j :| CarriesOn(s, n, w, j) then s.jobs[j].resources else NO_RESOURCES
  }

  ghost predicate Conserved(s: Cluster) {
    && (forall n :: n in s.nodes ==>
          var free, held, all := s.nodes[n].available, HeldOn(s, n), s.nodes[n].capacity;
          free.cpu + held.cpu == all.cpu && free.memory + held.memory == all.memory && free.vram + held.vram == all.vram)
    && (forall n, w, j :: CarriesOn(s, n, w, j) ==> HeldOn(s, n) == s.jobs[j].resources)
  }

  lemma InvConserves(s: Cluster)
    requires Inv(s)
    ensures Conserved(s)
  {
    forall n, w, j | CarriesOn(s, n, w, j) ensures HeldOn(s, n) == s.jobs[j].resources {
      HeldIs(s, n, w, j);
    }
    forall n | n in s.nodes ensures s.nodes[n].available.Plus(HeldOn(s, n)) == s.nodes[n].capacity {
      if w, j :| CarriesOn(s, n, w, j) {
        assert Covers(s, w);
      } else {
        NothingHeld(s, n);
      }
    }
  }

  lemma HeldIs(s: Cluster, n: NodeId, w: WorkerId, j: JobId)
    requires Inv(s) && CarriesOn(s, n, w, j)
    ensures HeldOn(s, n) == s.jobs[j].resources
  {
    forall v, k | CarriesOn(s, n, v, k) ensures v == w && k == j {
      assert s.workers[v].node == s.workers[w].node;
    }
  }

  lemma NothingHeld(s: Cluster, n: NodeId)
    requires Inv(s) && n in s.nodes
    requires forall w, j :: !CarriesOn(s, n, w, j)
    ensures s.nodes[n].available == s.nodes[n].capacity
  {
    forall w | w in s.workers && s.workers[w].node == n ensures s.workers[w].runningJob.None? {
      var held := s.workers[w].runningJob;
      assert held.Some? ==> CarriesOn(s, n, w, held.value);
    }
    assert Vacant(s.workers, n);
  }

  /** At every point of every run, on every node and in every dimension, what is available and
      what the held job takes make up the capacity. */
  lemma ConservationAlways(r: Run, i: nat)
    requires IsRun(r) && i < |r.states|
    ensures Conserved(At(r, i))
  {
    Reachable(r, i);
    InvConserves(At(r, i));
  }

  //
  // Fencing
  //

  ghost predicate Live(s: Cluster, l: LeaseId) {
    exists j :: Holds(s, l, j)
  }

  /** Handed out once and no longer in the table. */
  ghost predicate Retired(s: Cluster, l: LeaseId) {
    l in s.issued && !Live(s, l)
  }

  lemma RetiredStep(r: Run, i: nat, l: LeaseId)
    requires IsRun(r) && i < |r.actions|
    requires Retired(At(r, i), l)
    ensures Retired(At(r, i + 1), l)
  {
    StepIsGood(r, i);
    var s, s' := At(r, i), At(r, i + 1);
    forall j ensures !Holds(s', l, j) {
      assert !Holds(s, l, j);
      if j in s'.leases { assert LeaseEvolves(s, s', j, r.times[i]); }
    }
  }

  /** A lease id that left the table never comes back. */
  lemma {:induction false} RetiredForever(r: Run, i: nat, k: nat, l: LeaseId)
    requires IsRun(r) && i <= k < |r.states|
    requires Retired(At(r, i), l)
    ensures Retired(At(r, k), l)
    decreases k
  {
    if i < k {
      RetiredForever(r, i, k - 1, l);
      RetiredStep(r, k - 1, l);
    }
  }

  /** Every later call that carries the id is refused and writes nothing. */
  lemma RetiredWritesNothing(r: Run, i: nat, k: nat, l: LeaseId)
    requires IsRun(r) && i <= k < |r.states|
    requires Retired(At(r, i), l)
    ensures var s := At(r, k);
            && (forall w, t, duration, now :: RenewLease(s, w, l, t, duration, now).answer.Raised?
                                              && RenewLease(s, w, l, t, duration, now).state == s)
            && (forall w, t :: ReleaseLease(s, w, l, t).answer.Raised? && ReleaseLease(s, w, l, t).state == s)
            && (forall outcome, w, j, t, exit, now :: ReportOutcome(s, outcome, w, j, t, l, exit, now).answer.Raised?
                                                      && ReportOutcome(s, outcome, w, j, t, l, exit, now).state == s)
            && (forall e: Execution, outcome, exit, now :: e.lease == l ==>
                  && FinishExecution(s, e, outcome, exit, now).answer.Raised?
                  && FinishExecution(s, e, outcome, exit, now).state == s)
  {
    RetiredForever(r, i, k, l);
    var s := At(r, k);
    forall w, t ensures LeaseOfWorker(s, w, t).Some? ==> LeaseOfWorker(s, w, t).value.id != l {
      var held := LeaseOfWorker(s, w, t);
      if held.Some? {
        var j :| IsLeaseOf(s, j, w, t) && s.leases[j] == held.value;
        assert !Holds(s, l, j);
      }
    }
  }

  /** The action records an outcome for lease l, or takes its job back. */
  ghost predicate Records(sys: System, a: Action, now: Time, l: LeaseId)
    requires Enabled(sys, a, now)
  {
    match a
    case ReportEnd(outcome, w, j, t, lid, exit) =>
      lid == l && !ReportOutcome(sys.c, outcome, w, j, t, lid, exit, now).answer.Raised?
    case LoopFinish(run, outcome, exit) =>
      sys.loops[run].lease == l && !FinishExecution(sys.c, sys.loops[run], outcome, exit, now).answer.Raised?
    case _ => Live(sys.c, l) && !Live(Tables(sys, a, now), l)
  }

  lemma SettledRetires(s: Cluster, row: Worker, node: Node, job: Job, l: LeaseId)
    requires Inv(s) && Holds(s, l, job.id)
    ensures Live(s, l) && Retired(Settled(s, row, node, job), l)
  {
    var s' := Settled(s, row, node, job);
    assert LeaseOk(s, job.id);
    forall j ensures !Holds(s', l, j) {
      if j in s.leases { assert LeaseOk(s, j); }
    }
  }

  lemma ReportRetires(s: Cluster, outcome: Outcome, w: WorkerId, j: JobId, t: Tenant, l: LeaseId, exit: Option<int>, now: Time)
    requires Inv(s) && !ReportOutcome(s, outcome, w, j, t, l, exit, now).answer.Raised?
    ensures Live(s, l) && Retired(ReportOutcome(s, outcome, w, j, t, l, exit, now).state, l)
  {
    ReportSettles(s, outcome, w, j, t, l, exit, now);
    assert s.jobs[j].id == j;
    SettledRetires(s, s.workers[w].Freed(), Refilled(s.nodes[s.workers[w].node]),
                   s.jobs[j].Conclude(outcome, exit, now).value, l);
  }

  lemma FinishRetires(s: Cluster, e: Execution, outcome: Outcome, exit: Option<int>, now: Time)
    requires Inv(s) && LoopOk(s, e) && !FinishExecution(s, e, outcome, exit, now).answer.Raised?
    ensures Live(s, e.lease) && Retired(FinishExecution(s, e, outcome, exit, now).state, e.lease)
  {
    FinishExecutionSettles(s, e, outcome, exit, now);
    SettledRetires(s, e.row.Freed(), Refilled(s.nodes[e.row.node]),
                   WithCancellation(e.job.Conclude(outcome, exit, now).value, Some(s.jobs[e.job.id])), e.lease);
  }

  /** Whatever records an outcome for a lease, or takes its job back, retires the lease. */
  lemma RecordingRetires(sys: System, a: Action, now: Time, l: LeaseId)
    requires SysInv(sys) && Enabled(sys, a, now) && Records(sys, a, now, l)
    ensures Live(sys.c, l) && Retired(Next(sys, a, now).c, l)
  {
    if a.ReportEnd? {
      ReportRetires(sys.c, a.outcome, a.w, a.j, a.t, a.lid, a.exit, now);
    } else if a.LoopFinish? {
      FinishRetires(sys.c, sys.loops[a.run], a.outcome, a.exit, now);
    } else {
      TablesKeep(sys, a, now);
      LiveIsIssued(sys.c, l);
    }
  }

  lemma LiveIsIssued(s: Cluster, l: LeaseId)
    requires Inv(s) && Live(s, l)
    ensures l in s.issued
  {
    var j :| Holds(s, l, j);
    assert LeaseOk(s, j);
  }

  lemma RecordedThenRetired(r: Run, i: nat, l: LeaseId)
    requires IsRun(r) && i < |r.actions|
    requires StepsTo(r, i) && Records(r.states[i], r.actions[i], r.times[i], l)
    ensures Retired(At(r, i + 1), l)
  {
    Reachable(r, i);
    RecordingRetires(r.states[i], r.actions[i], r.times[i], l);
  }

  lemma RetiredRecordsNothing(sys: System, a: Action, now: Time, l: LeaseId)
    requires SysInv(sys) && Enabled(sys, a, now) && Retired(sys.c, l)
    ensures !Records(sys, a, now, l)
  {
    if Records(sys, a, now, l) {
      RecordingRetires(sys, a, now, l);
      assert false;
    }
  }

  lemma RetiredThenNothing(r: Run, k: nat, l: LeaseId)
    requires IsRun(r) && k < |r.actions| && StepsTo(r, k) && Retired(At(r, k), l)
    ensures !Records(r.states[k], r.actions[k], r.times[k], l)
  {
    Reachable(r, k);
    RetiredRecordsNothing(r.states[k], r.actions[k], r.times[k], l);
  }

  /** Each lease yields at most one recorded outcome or reclaim, over any run, with any number of
      retried reports and concurrent executions. */
  lemma RecordedOnce(r: Run, i: nat, k: nat, l: LeaseId)
    requires IsRun(r) && i < k < |r.actions|
    requires StepsTo(r, i) && Records(r.states[i], r.actions[i], r.times[i], l)
    requires StepsTo(r, k)
    ensures !Records(r.states[k], r.actions[k], r.times[k], l)
  {
    RecordedThenRetired(r, i, l);
    RetiredForever(r, i + 1, k, l);
    RetiredThenNothing(r, k, l);
  }

  //
  // Bounded retries
  //

  /** The action grants a lease for job j. */
  ghost predicate Grants(sys: System, a: Action, now: Time, j: JobId)
    requires Enabled(sys, a, now)
  {
    && a.ScheduleJob? && a.j == j
    && ScheduleOne(sys.c, j, a.nodeOrder, a.workerOrder, a.lid, now).placement == Granted
  }

  lemma IssuedBy(sys: System, a: Action, now: Time)
    requires SysInv(sys) && Enabled(sys, a, now)
    ensures Tables(sys, a, now).issued ==
            if a.ScheduleJob? && Grants(sys, a, now, a.j) then sys.c.issued[a.lid := a.j] else sys.c.issued
  {
    if a.ScheduleJob? {
      ScheduleOneGrants(sys.c, a.j, a.nodeOrder, a.workerOrder, a.lid, now);
    } else {
      OthersIssueNothing(sys, a, now);
    }
  }

  lemma CopiesIssueNothing(sys: System, a: Action, now: Time)
    requires Enabled(sys, a, now) && OnCopies(a)
    ensures Tables(sys, a, now).issued == sys.c.issued
  {
  }

  lemma CallsIssueNothing(sys: System, a: Action, now: Time)
    requires Enabled(sys, a, now) && !OnCopies(a) && !a.ScheduleJob?
    ensures Tables(sys, a, now).issued == sys.c.issued
  {
  }

  lemma OthersIssueNothing(sys: System, a: Action, now: Time)
    requires Enabled(sys, a, now) && !a.ScheduleJob?
    ensures Tables(sys, a, now).issued == sys.c.issued
  {
    if OnCopies(a) {
      CopiesIssueNothing(sys, a, now);
    } else {
      CallsIssueNothing(sys, a, now);
    }
  }

  /** How many of the first k actions grant job j a lease. */
  ghost function GrantCount(r: Run, j: JobId, k: nat): nat
    requires IsRun(r) && k < |r.states|
  {
    if k == 0 then 0
    else
      assert StepsTo(r, k - 1);
      GrantCount(r, j, k - 1) + if Grants(r.states[k - 1], r.actions[k - 1], r.times[k - 1], j) then 1 else 0
  }

  lemma IssuingAddsId(issued: map<LeaseId, JobId>, lid: LeaseId, owner: JobId, j: JobId)
    requires lid !in issued
    ensures |LeaseIdsOf(issued[lid := owner], j)| == |LeaseIdsOf(issued, j)| + if owner == j then 1 else 0
  {
    var before, after := LeaseIdsOf(issued, j), LeaseIdsOf(issued[lid := owner], j);
    if owner == j {
      assert after == before + {lid};
    } else {
      assert after == before;
    }
  }

  lemma GrantAddsId(sys: System, a: Action, now: Time, j: JobId)
    requires SysInv(sys) && Enabled(sys, a, now)
    ensures |LeaseIdsOf(Next(sys, a, now).c.issued, j)|
            == |LeaseIdsOf(sys.c.issued, j)| + if Grants(sys, a, now, j) then 1 else 0
  {
    IssuedBy(sys, a, now);
    if a.ScheduleJob? && Grants(sys, a, now, a.j) {
      IssuingAddsId(sys.c.issued, a.lid, a.j, j);
    }
  }

  lemma {:induction false} GrantsAreLeaseIds(r: Run, j: JobId, k: nat)
    requires IsRun(r) && k < |r.states|
    ensures GrantCount(r, j, k) == |LeaseIdsOf(At(r, k).issued, j)|
  {
    if k == 0 {
      assert LeaseIdsOf(At(r, 0).issued, j) == {};
    } else {
      GrantsAreLeaseIds(r, j, k - 1);
      Reachable(r, k - 1);
      assert StepsTo(r, k - 1);
      GrantAddsId(r.states[k - 1], r.actions[k - 1], r.times[k - 1], j);
    }
  }

  /** A job is granted at most max_retries + 1 leases in any run, and never retries more often
      than it may. A negative max_retries counts as zero. */
  lemma RetriesBounded(r: Run, j: JobId, k: nat)
    requires IsRun(r) && k < |r.states| && j in At(r, k).jobs
    ensures var job := At(r, k).jobs[j];
            var allowed := if job.maxRetries > 0 then job.maxRetries else 0;
            job.retryCount <= allowed && GrantCount(r, j, k) <= allowed + 1
  {
    Reachable(r, k);
    GrantsAreLeaseIds(r, j, k);
    assert JobOk(At(r, k), j);
  }

  //
  // Status history
  //

  /** Every persisted change of a job row follows the transition table, even when a loop saves
      its stale copy after a concurrent cancellation request. */
  lemma HistoryFollowsTable(r: Run, i: nat, j: JobId)
    requires IsRun(r) && i < |r.actions| && j in At(r, i).jobs
    ensures j in At(r, i + 1).jobs
    ensures JobEvolves(At(r, i).jobs[j], At(r, i + 1).jobs[j], RetriedBy(r.actions[i]) == Some(j), r.times[i])
  {
    StepIsGood(r, i);
  }

  /** At every point of every run a job's timestamps and exit code are those of its status. */
  lemma StampsAlways(r: Run, i: nat, j: JobId)
    requires IsRun(r) && i < |r.states| && j in At(r, i).jobs
    ensures Stamped(At(r, i).jobs[j])
  {
    Reachable(r, i);
    assert JobOk(At(r, i), j);
  }

  /** The row of a completed or cancelled job never changes again. */
  lemma {:induction false} TerminalForever(r: Run, i: nat, k: nat, j: JobId)
    requires IsRun(r) && i <= k < |r.states| && j in At(r, i).jobs
    requires At(r, i).jobs[j].status in {Completed, Cancelled}
    ensures j in At(r, k).jobs && At(r, k).jobs[j] == At(r, i).jobs[j]
    decreases k
  {
    if i < k {
      TerminalForever(r, i, k - 1, j);
      HistoryFollowsTable(r, k - 1, j);
    }
  }

  ghost predicate NeverRetried(r: Run, i: nat, k: nat, j: JobId)
    requires i <= k <= |r.actions|
  {
    forall m :: i <= m < k ==> RetriedBy(r.actions[m]) != Some(j)
  }

  /** Without a retry of the job, a failed job stays failed and a recorded cancellation request
      stays recorded. */
  lemma {:induction false} OnlyRetryForgets(r: Run, i: nat, k: nat, j: JobId)
    requires IsRun(r) && i <= k < |r.states| && j in At(r, i).jobs
    requires NeverRetried(r, i, k, j)
    ensures j in At(r, k).jobs
    ensures At(r, i).jobs[j].status == Failed ==> At(r, k).jobs[j].status == Failed
    ensures At(r, i).jobs[j].cancelRequestedAt.Some? ==> At(r, k).jobs[j].cancelRequestedAt.Some?
    decreases k
  {
    if i < k {
      assert NeverRetried(r, i, k - 1, j);
      OnlyRetryForgets(r, i, k - 1, j);
      HistoryFollowsTable(r, k - 1, j);
    }
  }

  /** A loop that saw the request of job j finishes it, with its own time for the request. */
  ghost predicate Overwrites(sys: System, a: Action, now: Time, j: JobId)
    requires Enabled(sys, a, now)
  {
    && a.LoopFinish? && sys.loops[a.run].job.id == j && sys.loops[a.run].job.cancelRequestedAt.Some?
    && !FinishExecution(sys.c, sys.loops[a.run], a.outcome, a.exit, now).answer.Raised?
  }

  /** No job is added, and a cancelling job keeps the time of its request. */
  ghost predicate KeepsRequests(s: Cluster, s': Cluster) {
    && s'.jobs.Keys == s.jobs.Keys
    && forall j :: j in s.jobs && s.jobs[j].status == Cancelling ==>
                     s'.jobs[j].cancelRequestedAt == s.jobs[j].cancelRequestedAt
  }

  predicate LeavesJobs(a: Action) {
    || a.AddNode? || a.NodeBeat? || a.NodeDrain? || a.ReadNode? || a.ReadyMade? || a.WorkerBeat? || a.SweepWorker?
    || a.RenewHeld? || a.ListLeases? || a.ReadOffline? || a.ReadWorkers? || a.LoopRenew? || a.LoopObserve?
  }

  lemma JobsLeft(sys: System, a: Action, now: Time)
    requires Enabled(sys, a, now) && LeavesJobs(a)
    ensures Tables(sys, a, now).jobs == sys.c.jobs
  {
  }

  lemma SettledKeepsRequests(s: Cluster, row: Worker, node: Node, job: Job)
    requires job.id in s.jobs && job.cancelRequestedAt == s.jobs[job.id].cancelRequestedAt
    ensures KeepsRequests(s, Settled(s, row, node, job))
  {
  }

  lemma BeginKeepsRequests(s: Cluster, w: WorkerId, now: Time)
    requires Inv(s)
    ensures KeepsRequests(s, BeginExecution(s, w, now).state)
  {
    if w in s.workers && s.workers[w].runningJob.Some? {
      var held := s.workers[w].runningJob.value;
      assert LeaseOk(s, held) && s.jobs[held].id == held;
    }
  }

  lemma ReportKeepsRequests(s: Cluster, outcome: Outcome, w: WorkerId, j: JobId, t: Tenant, lid: LeaseId, exit: Option<int>, now: Time)
    requires Inv(s)
    ensures KeepsRequests(s, ReportOutcome(s, outcome, w, j, t, lid, exit, now).state)
  {
    ReportSettles(s, outcome, w, j, t, lid, exit, now);
    if !ReportOutcome(s, outcome, w, j, t, lid, exit, now).answer.Raised? {
      assert s.jobs[j].id == j;
      SettledKeepsRequests(s, s.workers[w].Freed(), Refilled(s.nodes[s.workers[w].node]),
                           s.jobs[j].Conclude(outcome, exit, now).value);
    }
  }

  lemma TakingBackKeepsRequests(s: Cluster, view: WorkerView, now: Time)
    requires Inv(s) && ViewOk(s, view) && TurnIsLegal(s, view, now)
    ensures KeepsRequests(s, RecoverWorker(s, view, now))
  {
    LegalTurnWrites(s, view, now);
  }

  lemma MakingKeepsRequests(s: Cluster, node: Node, managedBy: ManagedBy, newId: WorkerId, now: Time)
    requires Inv(s) && NodeCopy(s, node)
    ensures KeepsRequests(s, CreateWorker(s, node, managedBy, newId, now).state)
  {
    var existing := WorkerOfNode(s, node.id, node.tenant);
    if existing.Some? {
      CreateAgainSettles(s, existing.value, node, managedBy, newId, now);
      var row := s.workers[existing.value];
      if row.runningJob.Some? {
        var job := s.jobs[row.runningJob.value];
        assert job.id == row.runningJob.value;
        SettledKeepsRequests(s, row.Freed().(managedBy := managedBy), node.Release(job.resources), Reclaimed(job, now));
      }
    }
  }

  lemma RecoveringKeepsRequests(s: Cluster, snap: Snapshot, clock: Time, now: Time)
    requires Inv(s) && SnapOk(s, snap, clock) && Reaches(s, snap, now)
    ensures KeepsRequests(s, RecoverIfExpired(s, snap.lease, now))
  {
    if RecoverIfExpired(s, snap.lease, now) != s {
      var j, w := snap.lease.job, snap.lease.worker;
      RecoverLeaseSettles(s, snap.lease, now);
      assert s.jobs[j].id == j;
      SettledKeepsRequests(s, s.workers[w].Freed(), Refilled(s.nodes[s.workers[w].node]), Reclaimed(s.jobs[j], now));
    }
  }

  predicate Ends(a: Action) {
    a.ReportEnd? || a.RecoverListed? || a.TakeBack? || a.MakeWorker?
  }

  lemma EndsKeepRequests(sys: System, a: Action, now: Time)
    requires SysInv(sys) && Enabled(sys, a, now) && Ends(a)
    ensures KeepsRequests(sys.c, Tables(sys, a, now))
  {
    var c := sys.c;
    match a
    case ReportEnd(outcome, w, j, t, lid, exit) => ReportKeepsRequests(c, outcome, w, j, t, lid, exit, now);
    case RecoverListed(snap) =>
      assert SnapOk(c, snap, sys.clock);
      RecoveringKeepsRequests(c, snap, sys.clock, now);
    case TakeBack(sweep, view) =>
      SweptIsOk(sys, sweep, view);
      TakingBackKeepsRequests(c, view, now);
    case MakeWorker(post, managedBy, id) =>
      assert PostOk(c, sys.posts[post]);
      MakingKeepsRequests(c, sys.posts[post].node, managedBy, id, now);
  }

  lemma CancelKeepsRequests(s: Cluster, j: JobId, t: Tenant, now: Time)
    requires Inv(s)
    ensures KeepsRequests(s, CancelJob(s, j, t, now).state)
  {
    CancelOutcome(s, j, t, now);
  }

  lemma RetryKeepsRequests(s: Cluster, j: JobId, t: Tenant, now: Time)
    requires Inv(s)
    ensures KeepsRequests(s, RetryJob(s, j, t).state)
  {
    RetryJobKeeps(s, j, t, now);
  }

  lemma ScheduleKeepsRequests(s: Cluster, j: JobId, nodeOrder: seq<NodeId>, workerOrder: seq<WorkerId>, lid: LeaseId, now: Time)
    requires Inv(s) && NodesSound(s) && lid !in s.issued
    ensures KeepsRequests(s, ScheduleOne(s, j, nodeOrder, workerOrder, lid, now).state)
  {
    ScheduleOneGrants(s, j, nodeOrder, workerOrder, lid, now);
  }

  lemma StartKeepsRequests(s: Cluster, w: WorkerId, j: JobId, t: Tenant, now: Time)
    requires Inv(s)
    ensures KeepsRequests(s, StartJob(s, w, j, t, now).state)
  {
    StartJobStarts(s, w, j, t, now);
    assert j in s.jobs ==> s.jobs[j].id == j;
  }

  lemma StartsKeepRequests(sys: System, a: Action, now: Time)
    requires Inv(sys.c) && Enabled(sys, a, now)
    requires !a.LoopFinish? && !a.SubmitJob? && !LeavesJobs(a) && !Ends(a)
    ensures KeepsRequests(sys.c, Tables(sys, a, now))
  {
    var c := sys.c;
    match a
    case RequestCancel(j, t) => CancelKeepsRequests(c, j, t, now);
    case RequestRetry(j, t) => RetryKeepsRequests(c, j, t, now);
    case ScheduleJob(j, nodeOrder, workerOrder, lid) => ScheduleKeepsRequests(c, j, nodeOrder, workerOrder, lid, now);
    case ConfirmStart(w, j, t) => StartKeepsRequests(c, w, j, t, now);
    case LoopBegin(run, w) => BeginKeepsRequests(c, w, now);
  }

  lemma OthersKeepRequests(sys: System, a: Action, now: Time)
    requires SysInv(sys) && Enabled(sys, a, now) && !a.LoopFinish? && !a.SubmitJob?
    ensures KeepsRequests(sys.c, Tables(sys, a, now))
  {
    if LeavesJobs(a) {
      JobsLeft(sys, a, now);
    } else if Ends(a) {
      EndsKeepRequests(sys, a, now);
    } else {
      StartsKeepRequests(sys, a, now);
    }
  }

  /** The recorded time of a cancellation request stays as it is until the job is retried, unless a
      loop that saw the request ends the job: then it is the time at which the loop saw it. */
  lemma RequestTimeStays(r: Run, i: nat, j: JobId)
    requires IsRun(r) && i < |r.actions| && StepsTo(r, i)
    requires j in At(r, i).jobs && At(r, i).jobs[j].cancelRequestedAt.Some? && RetriedBy(r.actions[i]) != Some(j)
    ensures j in At(r, i + 1).jobs
    ensures At(r, i + 1).jobs[j].cancelRequestedAt
            == if Overwrites(r.states[i], r.actions[i], r.times[i], j)
               then r.states[i].loops[r.actions[i].run].job.cancelRequestedAt else At(r, i).jobs[j].cancelRequestedAt
  {
    var sys, a, now := r.states[i], r.actions[i], r.times[i];
    Reachable(r, i);
    HistoryFollowsTable(r, i, j);
    assert JobOk(sys.c, j);
    if a.LoopFinish? {
      FinishKeepsRequestTime(sys.c, sys.loops[a.run], a.outcome, a.exit, now, j);
    } else if a.SubmitJob? {
      CreateJobKeeps(sys.c, a.newJob, a.t, a.resources, a.priority, a.constraints, a.maxRetries, now);
    } else {
      OthersKeepRequests(sys, a, now);
    }
  }

  lemma FinishKeepsRequestTime(s: Cluster, e: Execution, outcome: Outcome, exit: Option<int>, now: Time, j: JobId)
    requires Inv(s) && LoopOk(s, e) && j in s.jobs
    ensures var r := FinishExecution(s, e, outcome, exit, now);
            && j in r.state.jobs && r.state.jobs.Keys == s.jobs.Keys
            && r.state.jobs[j].cancelRequestedAt
               == if !r.answer.Raised? && e.job.id == j && e.job.cancelRequestedAt.Some?
                  then e.job.cancelRequestedAt else s.jobs[j].cancelRequestedAt
  {
    FinishExecutionSettles(s, e, outcome, exit, now);
    if !FinishExecution(s, e, outcome, exit, now).answer.Raised? {
      FinishExecutionRecords(s, e, outcome, exit, now);
    }
  }

  //
  // A lease that stays
  //

  lemma HeldBefore(r: Run, k: nat, j: JobId, lid: LeaseId)
    requires IsRun(r) && k < |r.actions| && lid in At(r, k).issued
    requires Holds(At(r, k + 1), lid, j)
    ensures Holds(At(r, k), lid, j)
  {
    StepIsGood(r, k);
    assert LeaseEvolves(At(r, k), At(r, k + 1), j, r.times[k]);
  }

  /** Every id handed out stays handed out, for the same job. */
  ghost predicate Grows(issued: map<LeaseId, JobId>, issued': map<LeaseId, JobId>) {
    forall l :: l in issued ==> l in issued' && issued'[l] == issued[l]
  }

  lemma IssuedGrows(r: Run, k: nat)
    requires IsRun(r) && k < |r.actions|
    ensures Grows(At(r, k).issued, At(r, k + 1).issued)
  {
    StepIsGood(r, k);
  }

  lemma {:induction false} IssuedOnlyGrows(r: Run, i: nat, k: nat)
    requires IsRun(r) && i <= k < |r.states|
    ensures Grows(At(r, i).issued, At(r, k).issued)
    decreases k
  {
    if i < k {
      IssuedOnlyGrows(r, i, k - 1);
      IssuedGrows(r, k - 1);
    }
  }

  /** A lease that a step leaves keeps its worker, and its job uses no retry. */
  lemma HeldStep(r: Run, k: nat, j: JobId, lid: LeaseId)
    requires IsRun(r) && k < |r.actions| && Holds(At(r, k), lid, j) && Holds(At(r, k + 1), lid, j)
    ensures At(r, k + 1).leases[j].worker == At(r, k).leases[j].worker
    ensures j in At(r, k).jobs && j in At(r, k + 1).jobs && At(r, k + 1).jobs[j].retryCount == At(r, k).jobs[j].retryCount
  {
    StepIsGood(r, k);
    assert LeaseOk(At(r, k), j);
    assert LeaseEvolves(At(r, k), At(r, k + 1), j, r.times[k]);
  }

  //
  // A cancellation reaches the loop that runs the job
  //

  /** Neither finished nor begun again in between. */
  ghost predicate RunsOn(r: Run, run: nat, i: nat, m: nat)
    requires i <= m <= |r.actions|
  {
    forall q :: i <= q < m ==> !(r.actions[q].LoopFinish? && r.actions[q].run == run)
  }

  /** The loop keeps its lease, its job and its worker, and has seen the request if it had. */
  predicate SameLoop(e: Execution, e': Execution) {
    && e'.lease == e.lease && e'.job.id == e.job.id && e'.row == e.row
    && (e.job.status == Cancelling ==> e'.job.status == Cancelling)
  }

  lemma LoopGoesOn(sys: System, a: Action, now: Time, run: nat)
    requires Enabled(sys, a, now) && run in sys.loops && !(a.LoopFinish? && a.run == run)
    ensures run in Next(sys, a, now).loops && SameLoop(sys.loops[run], Next(sys, a, now).loops[run])
  {
    assert run in Loops(sys, a, now);
    LoopAfter(sys, a, now, run);
  }

  lemma {:induction false} LoopRunsOn(r: Run, run: nat, i: nat, m: nat)
    requires IsRun(r) && i <= m < |r.states| && run in r.states[i].loops && RunsOn(r, run, i, m)
    ensures run in r.states[m].loops && SameLoop(r.states[i].loops[run], r.states[m].loops[run])
    decreases m
  {
    if i < m {
      assert RunsOn(r, run, i, m - 1);
      LoopRunsOn(r, run, i, m - 1);
      assert StepsTo(r, m - 1);
      LoopGoesOn(r.states[m - 1], r.actions[m - 1], r.times[m - 1], run);
    }
  }

  lemma {:induction false} HeldAllAlong(r: Run, i: nat, k: nat, m: nat, j: JobId, lid: LeaseId)
    requires IsRun(r) && i <= k <= m < |r.states| && lid in At(r, i).issued && Holds(At(r, m), lid, j)
    ensures Holds(At(r, k), lid, j)
    decreases m
  {
    if k < m {
      IssuedOnlyGrows(r, i, m - 1);
      HeldBefore(r, m - 1, j, lid);
      HeldAllAlong(r, i, k, m - 1, j, lid);
    }
  }

  lemma CancellingStep(r: Run, k: nat, j: JobId, lid: LeaseId)
    requires IsRun(r) && k < |r.actions| && Holds(At(r, k + 1), lid, j) && lid in At(r, k).issued
    requires j in At(r, k).jobs && At(r, k).jobs[j].status == Cancelling
    ensures j in At(r, k + 1).jobs && At(r, k + 1).jobs[j].status == Cancelling
  {
    StepIsGood(r, k);
    assert LeaseEvolves(At(r, k), At(r, k + 1), j, r.times[k]);
  }

  /** Under its lease a cancelling job stays cancelling. */
  lemma {:induction false} StaysCancelling(r: Run, i: nat, k: nat, m: nat, j: JobId, lid: LeaseId)
    requires IsRun(r) && i <= k <= m < |r.states| && lid in At(r, i).issued && Holds(At(r, m), lid, j)
    requires j in At(r, i).jobs && At(r, i).jobs[j].status == Cancelling
    ensures j in At(r, k).jobs && At(r, k).jobs[j].status == Cancelling
    decreases k
  {
    if i < k {
      StaysCancelling(r, i, k - 1, m, j, lid);
      HeldAllAlong(r, i, k, m, j, lid);
      IssuedOnlyGrows(r, i, k - 1);
      CancellingStep(r, k - 1, j, lid);
    }
  }

  /** The look of a loop that holds its lease shows it the request. */
  lemma LookShows(r: Run, run: nat, k: nat)
    requires IsRun(r) && k < |r.actions| && run in r.states[k].loops && r.actions[k] == LoopObserve(run)
    requires var e := r.states[k].loops[run];
             Holds(At(r, k), e.lease, e.job.id) && e.job.id in At(r, k).jobs && At(r, k).jobs[e.job.id].status == Cancelling
    ensures run in r.states[k + 1].loops && r.states[k + 1].loops[run].job.status == Cancelling
  {
    Reachable(r, k);
    assert StepsTo(r, k);
    ObserveSees(At(r, k), r.states[k].loops[run], r.times[k]);
  }

  lemma FinishRecordsCancelled(r: Run, run: nat, m: nat, exit: Option<int>)
    requires IsRun(r) && m < |r.actions| && run in r.states[m].loops && r.actions[m] == LoopFinish(run, WasCancelled, exit)
    requires var e := r.states[m].loops[run];
             !e.lost && Holds(At(r, m), e.lease, e.job.id) && e.job.status == Cancelling
    ensures var j := r.states[m].loops[run].job.id;
            && j in At(r, m + 1).jobs && At(r, m + 1).jobs[j].status == Cancelled && j !in At(r, m + 1).leases
            && At(r, m + 1).jobs[j].completedAt == Some(r.times[m]) && At(r, m + 1).jobs[j].exitCode == exit
  {
    Reachable(r, m);
    assert StepsTo(r, m);
    FinishAnswers(At(r, m), r.states[m].loops[run], WasCancelled, exit, r.times[m]);
    FinishExecutionRecords(At(r, m), r.states[m].loops[run], WasCancelled, exit, r.times[m]);
  }

  lemma CancelShowsInRow(r: Run, i: nat, j: JobId, t: Tenant)
    requires IsRun(r) && i < |r.actions| && r.actions[i] == RequestCancel(j, t)
    requires j in At(r, i).jobs && At(r, i).jobs[j].tenant == t && At(r, i).jobs[j].status == Running
    ensures j in At(r, i + 1).jobs && At(r, i + 1).jobs[j].status == Cancelling
  {
    Reachable(r, i);
    assert StepsTo(r, i);
    CancelOutcome(At(r, i), j, t, r.times[i]);
  }

  /** A running job is cancelled at i, the loop that runs it looks at k and reports it cancelled at m,
      still under its lease and not marked lost: then the job ends cancelled, whatever else happens in
      between. */
  lemma CancellationIsDelivered(r: Run, i: nat, k: nat, m: nat, run: nat, j: JobId, t: Tenant, exit: Option<int>)
    requires IsRun(r) && i < k < m < |r.actions|
    requires r.actions[i] == RequestCancel(j, t) && r.actions[k] == LoopObserve(run)
    requires r.actions[m] == LoopFinish(run, WasCancelled, exit) && RunsOn(r, run, i, m)
    requires j in At(r, i).jobs && At(r, i).jobs[j].tenant == t && At(r, i).jobs[j].status == Running
    requires run in r.states[i].loops && r.states[i].loops[run].job.id == j
    requires run in r.states[m].loops && !r.states[m].loops[run].lost && Holds(At(r, m), r.states[m].loops[run].lease, j)
    ensures j in At(r, m + 1).jobs && At(r, m + 1).jobs[j].status == Cancelled && j !in At(r, m + 1).leases
    ensures At(r, m + 1).jobs[j].completedAt == Some(r.times[m]) && At(r, m + 1).jobs[j].exitCode == exit
  {
    var lid := r.states[i].loops[run].lease;
    assert RunsOn(r, run, i, k) && RunsOn(r, run, k + 1, m);
    LoopRunsOn(r, run, i, m);
    LoopRunsOn(r, run, i, k);
    CancelShowsInRow(r, i, j, t);
    LoopHasItsLease(r, i, run);
    StaysCancelling(r, i + 1, k, m, j, lid);
    HeldAllAlong(r, i + 1, k, m, j, lid);
    LookShows(r, run, k);
    LoopRunsOn(r, run, k + 1, m);
    FinishRecordsCancelled(r, run, m, exit);
  }

  lemma LoopHasItsLease(r: Run, i: nat, run: nat)
    requires IsRun(r) && i < |r.actions| && run in r.states[i].loops
    ensures r.states[i].loops[run].lease in At(r, i + 1).issued
  {
    Reachable(r, i);
    assert LoopOk(At(r, i), r.states[i].loops[run]);
    IssuedGrows(r, i);
  }

  //
  // A drained node
  //

  lemma {:induction false} StaysDraining(r: Run, i: nat, k: nat, n: NodeId)
    requires IsRun(r) && i <= k < |r.states| && n in At(r, i).nodes && At(r, i).nodes[n].draining
    ensures n in At(r, k).nodes && At(r, k).nodes[n].draining
    decreases k
  {
    if i < k {
      StaysDraining(r, i, k - 1, n);
      StepIsGood(r, k - 1);
    }
  }

  /** Only a grant takes a job out of the queue to a node, and then to a node that was not draining. */
  lemma LeavesQueueForOpenNode(r: Run, k: nat, n: NodeId, j: JobId)
    requires IsRun(r) && k < |r.actions| && n in At(r, k).nodes && At(r, k).nodes[n].draining
    requires j in At(r, k).jobs && At(r, k).jobs[j].status == Queued
    ensures j in At(r, k + 1).jobs && At(r, k + 1).jobs[j].node != Some(n)
  {
    var sys, a, now := r.states[k], r.actions[k], r.times[k];
    Reachable(r, k);
    StepIsGood(r, k);
    assert StepsTo(r, k);
    assert JobOk(sys.c, j);
    if At(r, k + 1).jobs[j].node == Some(n) {
      QueuedHasNoLease(sys.c, j);
      GrantedHere(sys, a, now, j);
      ScheduleOneGrants(sys.c, j, a.nodeOrder, a.workerOrder, a.lid, now);
      assert false;
    }
  }

  lemma QueuedHasNoLease(s: Cluster, j: JobId)
    requires Inv(s) && j in s.jobs && s.jobs[j].status == Queued
    ensures j !in s.leases
  {
    assert j in s.leases ==> LeaseOk(s, j);
  }

  lemma NewLeaseIsNew(s: Cluster, s': Cluster, j: JobId, retried: Option<JobId>, now: Time)
    requires Inv(s) && Good(s, s', retried, now) && j in s.jobs && s.jobs[j].status == Queued && j !in s.leases
    requires j in s'.jobs && s'.jobs[j].node.Some?
    ensures j in s'.leases && s'.leases[j].id !in s.issued && s'.leases[j].id in s'.issued && s'.issued[s'.leases[j].id] == j
  {
    assert JobOk(s, j) && JobOk(s', j);
    assert JobEvolves(s.jobs[j], s'.jobs[j], retried == Some(j), now);
    assert LeaseOk(s', j) && LeaseEvolves(s, s', j, now);
  }

  /** A queued job that gets a node was granted it by this very action. */
  lemma GrantedHere(sys: System, a: Action, now: Time, j: JobId)
    requires SysInv(sys) && Enabled(sys, a, now) && j in sys.c.jobs && sys.c.jobs[j].status == Queued && j !in sys.c.leases
    requires Good(sys.c, Tables(sys, a, now), RetriedBy(a), now) && j in Tables(sys, a, now).jobs
    requires Tables(sys, a, now).jobs[j].node.Some?
    ensures a.ScheduleJob? && a.j == j && Grants(sys, a, now, j)
  {
    NewLeaseIsNew(sys.c, Tables(sys, a, now), j, RetriedBy(a), now);
    IssuedBy(sys, a, now);
  }

  /** From the moment a node is drained, no step of the run takes a queued job to it. */
  lemma DrainedTakesNoJob(r: Run, i: nat, k: nat, n: NodeId, t: Tenant, j: JobId)
    requires IsRun(r) && i < k < |r.actions| && r.actions[i] == NodeDrain(n, t)
    requires n in At(r, i).nodes && At(r, i).nodes[n].tenant == t
    requires j in At(r, k).jobs && At(r, k).jobs[j].status == Queued
    ensures n in At(r, k).nodes && At(r, k).nodes[n].draining
    ensures j in At(r, k + 1).jobs && At(r, k + 1).jobs[j].node != Some(n)
  {
    Reachable(r, i);
    assert StepsTo(r, i);
    NodeAnswers(At(r, i), n, t, NO_RESOURCES, map[], r.times[i]);
    StaysDraining(r, i + 1, k, n);
    LeavesQueueForOpenNode(r, k, n, j);
  }

  //
  // Recovery takes only what has expired
  //

  /** Lease, job, worker and node of job j are as they were. */
  ghost predicate Untouched(s: Cluster, s': Cluster, j: JobId) {
    && j in s.leases && j in s'.leases && s'.leases[j] == s.leases[j]
    && j in s.jobs && j in s'.jobs && s'.jobs[j] == s.jobs[j]
    && var w := s.leases[j].worker;
       && w in s.workers && w in s'.workers && s'.workers[w] == s.workers[w]
       && var n := s.workers[w].node;
          n in s.nodes && n in s'.nodes && s'.nodes[n] == s.nodes[n]
  }

  lemma SettledElsewhere(s: Cluster, row: Worker, node: Node, job: Job, j: JobId)
    requires Inv(s) && j in s.leases && j != job.id
    requires row.id in s.workers && s.workers[row.id].runningJob == Some(job.id) && node.id == s.workers[row.id].node
    ensures Untouched(s, Settled(s, row, node, job), j)
  {
    assert LeaseOk(s, j);
    assert s.leases[j].worker != row.id;
    assert s.workers[s.leases[j].worker].node != node.id;
  }

  predicate IsRecovery(a: Action) {
    a.RecoverListed? || a.TakeBack?
  }

  lemma ListedPassSpares(s: Cluster, snap: Snapshot, clock: Time, now: Time, j: JobId)
    requires Inv(s) && SnapOk(s, snap, clock) && Reaches(s, snap, now)
    requires j in s.leases && !s.leases[j].IsExpired(now)
    ensures Untouched(s, RecoverIfExpired(s, snap.lease, now), j)
  {
    assert LeaseOk(s, j);
    var k, w := snap.lease.job, snap.lease.worker;
    if k in s.leases && s.leases[k].IsExpired(now) && RecoverIfExpired(s, snap.lease, now) != s {
      RecoverLeaseSettles(s, snap.lease, now);
      assert s.jobs[k].id == k;
      SettledElsewhere(s, s.workers[w].Freed(), Refilled(s.nodes[s.workers[w].node]), Reclaimed(s.jobs[k], now), j);
    }
  }

  /** The turn of the offline-node pass writes: the job it listed has no lease, or an expired one. */
  predicate Writes(s: Cluster, listed: WorkerView, now: Time) {
    && listed.job.Some?
    && (listed.job.value.id in s.leases ==> s.leases[listed.job.value.id].IsExpired(now))
  }

  lemma WritesElsewhere(s: Cluster, listed: WorkerView, now: Time, j: JobId)
    requires Inv(s) && ViewOk(s, listed) && Writes(s, listed, now)
    requires j in s.leases && !s.leases[j].IsExpired(now) && s.leases[j].worker != listed.row.id
    ensures Untouched(s, RecoverWorker(s, listed, now), j)
  {
    var job := listed.job.value;
    if job.id in s.leases {
      ExpiredTurnSettles(s, listed, now);
    } else {
      UnleasedTurnWritesBack(s, listed, now);
    }
    assert LeaseOk(s, j) && job.id != j && Reclaimed(job, now).id == job.id;
    assert s.workers[s.leases[j].worker].node != listed.node.id;
  }

  lemma WritesOver(s: Cluster, listed: WorkerView, now: Time, j: JobId)
    requires Inv(s) && ViewOk(s, listed) && Writes(s, listed, now)
    requires j in s.leases && s.leases[j].worker == listed.row.id
    ensures !Untouched(s, RecoverWorker(s, listed, now), j)
  {
    assert LeaseOk(s, j);
    if listed.job.value.id in s.leases {
      ExpiredTurnSettles(s, listed, now);
    } else {
      UnleasedTurnWritesBack(s, listed, now);
    }
    assert RecoverWorker(s, listed, now).workers[listed.row.id] == listed.row.Freed();
  }

  /** A turn on a listed worker, after any delay, leaves a live lease and its job, worker and node
      alone if and only if it writes nothing or that worker does not hold the lease by now. */
  lemma ListedTurnSparesIff(s: Cluster, listed: WorkerView, now: Time, j: JobId)
    requires Inv(s) && ViewOk(s, listed) && j in s.leases && !s.leases[j].IsExpired(now)
    ensures Untouched(s, RecoverWorker(s, listed, now), j)
            <==> (Writes(s, listed, now) ==> s.leases[j].worker != listed.row.id)
  {
    if !Writes(s, listed, now) {
      assert LeaseOk(s, j);
      LiveTurnWritesNothing(s, listed, now);
    } else if s.leases[j].worker != listed.row.id {
      WritesElsewhere(s, listed, now, j);
    } else {
      WritesOver(s, listed, now, j);
    }
  }

  lemma OfflinePassSpares(s: Cluster, listed: WorkerView, now: Time, j: JobId)
    requires Inv(s) && ViewOk(s, listed) && TurnIsLegal(s, listed, now)
    requires j in s.leases && !s.leases[j].IsExpired(now)
    ensures Untouched(s, RecoverWorker(s, listed, now), j)
  {
    assert LeaseOk(s, j);
    if Writes(s, listed, now) && listed.job.value.id in s.leases {
      assert LeaseOk(s, listed.job.value.id);
    }
    ListedTurnSparesIff(s, listed, now, j);
  }

  /** Whatever ran between a pass's reads and its delete, a legal turn deletes only leases expired at
      the instant of deletion. A job whose lease is not keeps lease, worker, node and status. */
  lemma RecoverySparesLiveLeases(r: Run, i: nat, j: JobId)
    requires IsRun(r) && i < |r.actions| && IsRecovery(r.actions[i])
    requires j in At(r, i).leases && !At(r, i).leases[j].IsExpired(r.times[i])
    ensures Untouched(At(r, i), At(r, i + 1), j)
  {
    Reachable(r, i);
    assert StepsTo(r, i);
    var sys, a, now := r.states[i], r.actions[i], r.times[i];
    if a.RecoverListed? {
      assert SnapOk(sys.c, a.snap, sys.clock);
      ListedPassSpares(sys.c, a.snap, sys.clock, now, j);
    } else {
      SweptIsOk(sys, a.sweep, a.view);
      OfflinePassSpares(sys.c, a.view, now, j);
    }
  }
}
