/** Whole runs: every service call, any number of execution loops and worker registrations with
stale local copies, and recovery passes working from stale listings of leases and workers,
interleaved in any order under one clock. */
module Runs {
  import opened Options
  import opened Domain
  import opened ClusterModel
  import opened Invariant
  import opened Steps
  import opened ListedWorkers

  /** A lease as a recovery pass listed it, and when. */
  datatype Snapshot = Snapshot(lease: Lease, readAt: Time)

  /** Where a POST /workers stands: three service calls, each on what the one before it returned. */
  datatype Registration = NodeRead(node: Node) | WorkerMade(worker: Worker)

  /** Where an offline-node pass stands: it reads the nodes, then the workers of the offline ones. */
  datatype Sweep = OfflineRead(offline: set<NodeId>) | WorkersRead(listing: set<WorkerView>)

  datatype System = System(
    c: Cluster,
    clock: Time,
    loops: map<nat, Execution>,
    listed: set<Snapshot>,
    posts: map<nat, Registration>,
    sweeps: map<nat, Sweep>)

  datatype Action =
    | SubmitJob(newJob: JobId, t: Tenant, resources: Resources, priority: int, constraints: map<string, string>, maxRetries: int)
    | RequestCancel(j: JobId, t: Tenant)
    | RequestRetry(j: JobId, t: Tenant)
    | AddNode(newNode: NodeId, t: Tenant, resources: Resources, labels: map<string, string>)
    | NodeBeat(n: NodeId, t: Tenant)
    | NodeDrain(n: NodeId, t: Tenant)
    | ReadNode(post: nat, n: NodeId, t: Tenant)
    | MakeWorker(post: nat, managedBy: ManagedBy, newWorker: WorkerId)
    | ReadyMade(post: nat)
    | WorkerBeat(w: WorkerId, t: Tenant)
    | SweepWorker(w: WorkerId)
    | ScheduleJob(j: JobId, nodeOrder: seq<NodeId>, workerOrder: seq<WorkerId>, lid: LeaseId)
    | ConfirmStart(w: WorkerId, j: JobId, t: Tenant)
    | RenewHeld(w: WorkerId, lid: LeaseId, t: Tenant)
    | ReportEnd(outcome: Outcome, w: WorkerId, j: JobId, t: Tenant, lid: LeaseId, exit: Option<int>)
    | ListLeases
    | RecoverListed(snap: Snapshot)
    | ReadOffline(sweep: nat)
    | ReadWorkers(sweep: nat)
    | TakeBack(sweep: nat, view: WorkerView)
    | LoopBegin(run: nat, w: WorkerId)
    | LoopRenew(run: nat)
    | LoopObserve(run: nat)
    | LoopFinish(run: nat, outcome: Outcome, exit: Option<int>)

  function Start(clock: Time): System {
    System(EMPTY, clock, map[], {}, map[], map[])
  }

  /** When a pass may act on a listed lease: within one lease duration of the listing, or later
      unless the job's lease has passed to another worker and expired there too. */
  predicate Reaches(s: Cluster, snap: Snapshot, now: Time) {
    || now < snap.readAt + LEASE_DURATION
    || snap.lease.job !in s.leases
    || s.leases[snap.lease.job].worker == snap.lease.worker
    || !s.leases[snap.lease.job].IsExpired(now)
  }

  /** When a registration may go on with its copy: creating while the copy of the node still
      serves, and making ready while the worker was given no job. */
  ghost predicate MayGoOn(s: Cluster, p: Registration) {
    match p
    case NodeRead(node) => NodeCopy(s, node) ==> CopyServes(s, node)
    case WorkerMade(worker) => worker.id in s.workers ==> s.workers[worker.id].runningJob.None?
  }

  /** Time does not run backwards, ids are fresh where the code draws a UUID, and a loop, a
      registration or a pass acts only while it runs. */
  ghost predicate Enabled(sys: System, a: Action, now: Time) {
    && sys.clock <= now
    && match a
       case SubmitJob(id, _, _, _, _, _) => id !in sys.c.jobs
       case AddNode(id, _, _, _) => id !in sys.c.nodes
       case ReadNode(post, _, _) => post !in sys.posts
       case MakeWorker(post, _, id) =>
         id !in sys.c.workers && post in sys.posts && sys.posts[post].NodeRead? && MayGoOn(sys.c, sys.posts[post])
       case ReadyMade(post) => post in sys.posts && sys.posts[post].WorkerMade? && MayGoOn(sys.c, sys.posts[post])
       case ScheduleJob(_, _, _, lid) => lid !in sys.c.issued && NodesSound(sys.c)
       case RecoverListed(snap) => snap in sys.listed && Reaches(sys.c, snap, now)
       case ReadOffline(sweep) => sweep !in sys.sweeps
       case ReadWorkers(sweep) => sweep in sys.sweeps && sys.sweeps[sweep].OfflineRead?
       case TakeBack(sweep, view) =>
         && sweep in sys.sweeps && sys.sweeps[sweep].WorkersRead? && view in sys.sweeps[sweep].listing
         && TurnIsLegal(sys.c, view, now)
       case LoopBegin(run, _) => run !in sys.loops
       case LoopRenew(run) => run in sys.loops
       case LoopObserve(run) => run in sys.loops
       case LoopFinish(run, _, _) => run in sys.loops
       case _ => true
  }

  /** One iteration of the expired-lease pass: a listed lease that looks live is skipped. */
  function RecoverIfExpired(s: Cluster, lease: Lease, now: Time): Cluster {
    if lease.IsExpired(now) then RecoverLease(s, lease, now) else s
  }

  /** The tables after an action. */
  ghost function Tables(sys: System, a: Action, now: Time): Cluster
    requires Enabled(sys, a, now)
  {
    var c := sys.c;
    match a
    case SubmitJob(id, t, resources, priority, constraints, maxRetries) =>
      CreateJob(c, id, t, resources, priority, constraints, maxRetries).state
    case RequestCancel(j, t) => CancelJob(c, j, t, now).state
    case RequestRetry(j, t) => RetryJob(c, j, t).state
    case AddNode(id, t, capacity, labels) => CreateNode(c, id, t, capacity, labels, now).state
    case NodeBeat(n, t) => HeartbeatNode(c, n, t, now).state
    case NodeDrain(n, t) => DrainNode(c, n, t).state
    case ReadNode(_, _, _) => c
    case MakeWorker(post, managedBy, id) => CreateWorker(c, sys.posts[post].node, managedBy, id, now).state
    case ReadyMade(post) => ReadyWorker(c, sys.posts[post].worker).state
    case WorkerBeat(w, t) => WorkerHeartbeat(c, w, t, now).state
    case SweepWorker(w) => MarkDead(c, w, now)
    case ScheduleJob(j, nodeOrder, workerOrder, lid) => ScheduleOne(c, j, nodeOrder, workerOrder, lid, now).state
    case ConfirmStart(w, j, t) => StartJob(c, w, j, t, now).state
    case RenewHeld(w, lid, t) => RenewLease(c, w, lid, t, LEASE_DURATION, now).state
    case ReportEnd(outcome, w, j, t, lid, exit) => ReportOutcome(c, outcome, w, j, t, lid, exit, now).state
    case ListLeases => c
    case RecoverListed(snap) => RecoverIfExpired(c, snap.lease, now)
    case ReadOffline(_) => c
    case ReadWorkers(_) => c
    case TakeBack(_, view) => RecoverWorker(c, view, now)
    case LoopBegin(run, w) => BeginExecution(c, w, now).state
    case LoopRenew(run) => RenewExecution(c, sys.loops[run], now).0
    case LoopObserve(run) => c
    case LoopFinish(run, outcome, exit) => FinishExecution(c, sys.loops[run], outcome, exit, now).state
  }

  /** The running loops after an action. */
  ghost function Loops(sys: System, a: Action, now: Time): map<nat, Execution>
    requires Enabled(sys, a, now)
  {
    match a
    case LoopBegin(run, w) =>
      var begun := BeginExecution(sys.c, w, now);
      if begun.execution.Some? then sys.loops[run := begun.execution.value] else sys.loops
    case LoopRenew(run) => sys.loops[run := RenewExecution(sys.c, sys.loops[run], now).1]
    case LoopObserve(run) => sys.loops[run := ObserveCancellation(sys.c, sys.loops[run], now)]
    case LoopFinish(run, _, _) => sys.loops - {run}
    case _ => sys.loops
  }

  /** The listings after an action. */
  ghost function Listed(sys: System, a: Action, now: Time): set<Snapshot> {
    if a.ListLeases? then sys.listed + set j | j in sys.c.leases :: Snapshot(sys.c.leases[j], now) else sys.listed
  }

  /** The registrations under way after an action. */
  ghost function Posts(sys: System, a: Action, now: Time): map<nat, Registration>
    requires Enabled(sys, a, now)
  {
    match a
    case ReadNode(post, n, t) =>
      var node := GetNode(sys.c, n, t);
      if node.Some? then sys.posts[post := NodeRead(node.value)] else sys.posts
    case MakeWorker(post, managedBy, id) =>
      var made := CreateWorker(sys.c, sys.posts[post].node, managedBy, id, now);
      if made.answer.AWorker? then sys.posts[post := WorkerMade(made.answer.worker)] else sys.posts - {post}
    case ReadyMade(post) => sys.posts - {post}
    case _ => sys.posts
  }

  /** The offline-node passes under way after an action. */
  ghost function Sweeps(sys: System, a: Action, now: Time): map<nat, Sweep>
    requires Enabled(sys, a, now)
  {
    match a
    case ReadOffline(sweep) => sys.sweeps[sweep := OfflineRead(OfflineNodes(sys.c, now))]
    case ReadWorkers(sweep) => sys.sweeps[sweep := WorkersRead(WorkersOn(sys.c, sys.sweeps[sweep].offline))]
    case _ => sys.sweeps
  }

  ghost function Next(sys: System, a: Action, now: Time): System
    requires Enabled(sys, a, now)
  {
    System(Tables(sys, a, now), now, Loops(sys, a, now), Listed(sys, a, now), Posts(sys, a, now), Sweeps(sys, a, now))
  }

  function RetriedBy(a: Action): Option<JobId> {
    match a
    case RequestRetry(j, _) => Some(j)
    case _ => None
  }

  //
  // The invariant of the whole system
  //

  ghost predicate Holds(s: Cluster, lid: LeaseId, j: JobId) {
    j in s.leases && s.leases[j].id == lid
  }

  /** While its lease is in the table, a loop's copies differ from the rows at most by a
      cancellation request it has not seen. */
  ghost predicate UpToDate(s: Cluster, e: Execution) {
    && Current(s, e.row, e.job, e.lease)
    && e.job.status in {Running, Cancelling} && Stamped(e.job)
    && s.jobs[e.job.id].status in {e.job.status, Cancelling} && s.jobs[e.job.id].startedAt == e.job.startedAt
  }

  ghost predicate LoopOk(s: Cluster, e: Execution) {
    && e.lease in s.issued && s.issued[e.lease] == e.job.id
    && (Holds(s, e.lease, e.job.id) ==> UpToDate(s, e))
  }

  /** A listed lease was for at most the lease duration. It is still the one in the table, or that
      one was granted or renewed since. */
  ghost predicate SnapOk(s: Cluster, snap: Snapshot, clock: Time) {
    && snap.readAt <= clock && snap.lease.expiresAt <= snap.readAt + LEASE_DURATION
    && snap.lease.job in s.jobs && s.jobs[snap.lease.job].tenant == snap.lease.tenant
    && (snap.lease.job in s.leases ==>
          || s.leases[snap.lease.job].worker == snap.lease.worker
          || s.leases[snap.lease.job].expiresAt >= snap.readAt + LEASE_DURATION)
  }

  ghost predicate LeasesInTime(s: Cluster, clock: Time) {
    forall j :: j in s.leases ==> s.leases[j].expiresAt <= clock + LEASE_DURATION
  }

  ghost predicate SweepOk(s: Cluster, sweep: Sweep) {
    sweep.WorkersRead? ==> forall view :: view in sweep.listing ==> ViewOk(s, view)
  }

  ghost predicate PostOk(s: Cluster, p: Registration) {
    match p
    case NodeRead(node) => NodeCopy(s, node)
    case WorkerMade(worker) => WorkerCopy(s, worker)
  }

  ghost predicate SysInv(sys: System) {
    && Inv(sys.c)
    && (forall run :: run in sys.loops ==> LoopOk(sys.c, sys.loops[run]))
    && (forall snap :: snap in sys.listed ==> SnapOk(sys.c, snap, sys.clock))
    && (forall post :: post in sys.posts ==> PostOk(sys.c, sys.posts[post]))
    && (forall sweep :: sweep in sys.sweeps ==> SweepOk(sys.c, sys.sweeps[sweep]))
    && LeasesInTime(sys.c, sys.clock)
  }

  lemma StartOk(clock: Time)
    ensures SysInv(Start(clock))
  {
  }

  lemma LoopOkStays(s: Cluster, s': Cluster, e: Execution, retried: Option<JobId>, now: Time)
    requires Inv(s) && Good(s, s', retried, now) && LoopOk(s, e)
    ensures LoopOk(s', e)
  {
    var j := e.job.id;
    if Holds(s', e.lease, j) {
      assert LeaseEvolves(s, s', j, now);
    }
  }

  lemma SnapOkStays(s: Cluster, s': Cluster, snap: Snapshot, clock: Time, retried: Option<JobId>, now: Time)
    requires Inv(s) && Good(s, s', retried, now) && SnapOk(s, snap, clock) && clock <= now
    ensures SnapOk(s', snap, now)
  {
    var j := snap.lease.job;
    if j in s'.leases {
      assert LeaseEvolves(s, s', j, now);
    }
  }

  //
  // The execution loop's own steps
  //

  lemma BeginKeeps(s: Cluster, w: WorkerId, now: Time)
    requires Inv(s)
    ensures var b := BeginExecution(s, w, now);
            Good(s, b.state, None, now) && (b.execution.Some? ==> LoopOk(b.state, b.execution.value))
  {
    var b := BeginExecution(s, w, now);
    if b.execution.None? {
      Stutter(s, now);
    } else {
      var row := s.workers[w];
      var j := row.runningJob.value;
      LeaseOfWorkerIs(s, w, row.tenant);
      assert LeaseOk(s, j) && s.jobs[j].id == j;
      if s.jobs[j].status == Running {
        Stutter(s, now);
      } else {
        StartedKeeps(s, j, now);
      }
    }
  }

  lemma ObserveKeeps(s: Cluster, e: Execution, now: Time)
    requires Inv(s) && LoopOk(s, e)
    ensures LoopOk(s, ObserveCancellation(s, e, now))
  {
  }

  lemma RenewalKeepsLoop(s: Cluster, e: Execution, now: Time)
    requires Inv(s) && LoopOk(s, e)
    ensures Inv(RenewExecution(s, e, now).0) && LoopOk(RenewExecution(s, e, now).0, e)
  {
    RenewLeaseKeeps(s, e.row.id, e.lease, e.row.tenant, now);
    LoopOkStays(s, RenewExecution(s, e, now).0, e, None, now);
  }

  /** A loop that finishes either changes nothing or settles its job under its own lease. */
  lemma FinishExecutionSettles(s: Cluster, e: Execution, outcome: Outcome, exit: Option<int>, now: Time)
    requires Inv(s) && LoopOk(s, e)
    ensures var r := FinishExecution(s, e, outcome, exit, now);
            || (r.answer.Raised? && r.state == s)
            || (&& Holds(s, e.lease, e.job.id) && UpToDate(s, e) && e.row.node in s.nodes
                && e.job.Conclude(outcome, exit, now).Ok?
                && r.state == Settled(s, e.row.Freed(), Refilled(s.nodes[e.row.node]),
                                      WithCancellation(e.job.Conclude(outcome, exit, now).value, Some(s.jobs[e.job.id]))))
  {
    var r := FinishExecution(s, e, outcome, exit, now);
    if !r.answer.Raised? {
      LeaseOfWorkerIs(s, e.row.id, e.row.tenant);
      assert LeaseOk(s, LeaseOfWorker(s, e.row.id, e.row.tenant).value.job);
      FinishSettles(s, e.row, e.job.Conclude(outcome, exit, now).value, e.lease, true);
    }
  }

  /** A loop that finishes records its outcome under its own lease. It keeps the time of a
      cancellation request it never saw, and writes the time at which it saw one it did. */
  lemma FinishExecutionRecords(s: Cluster, e: Execution, outcome: Outcome, exit: Option<int>, now: Time)
    requires Inv(s) && LoopOk(s, e) && !FinishExecution(s, e, outcome, exit, now).answer.Raised?
    ensures Holds(s, e.lease, e.job.id)
    ensures var s' := FinishExecution(s, e, outcome, exit, now).state;
            && Ended(s, s', s.leases[e.job.id].worker, e.job.id, outcome, exit, now)
            && s'.jobs[e.job.id].cancelRequestedAt
               == if e.job.cancelRequestedAt.Some? then e.job.cancelRequestedAt else s.jobs[e.job.id].cancelRequestedAt
  {
    FinishExecutionSettles(s, e, outcome, exit, now);
    assert LeaseOk(s, e.job.id);
    assert s.nodes[e.row.node].id == e.row.node;
  }

  lemma FinishExecutionKeeps(s: Cluster, e: Execution, outcome: Outcome, exit: Option<int>, now: Time)
    requires Inv(s) && LoopOk(s, e)
    ensures Good(s, FinishExecution(s, e, outcome, exit, now).state, None, now)
  {
    FinishExecutionSettles(s, e, outcome, exit, now);
    var r := FinishExecution(s, e, outcome, exit, now);
    if r.answer.Raised? {
      Stutter(s, now);
    } else {
      ConcludeKeeps(s, e.row, WithCancellation(e.job.Conclude(outcome, exit, now).value, Some(s.jobs[e.job.id])),
                    e.lease, now);
    }
  }

  //
  // Recovery
  //

  /** Within one lease duration of the listing, an expired lease still belongs to the worker the
      listing names, whatever ran in between. */
  lemma RecoverListedKeeps(s: Cluster, snap: Snapshot, clock: Time, now: Time)
    requires Inv(s) && SnapOk(s, snap, clock) && Reaches(s, snap, now)
    ensures Good(s, RecoverIfExpired(s, snap.lease, now), None, now)
  {
    var j := snap.lease.job;
    if j in s.leases && s.leases[j].IsExpired(now) && snap.lease.IsExpired(now) {
      RecoverLeaseKeeps(s, snap.lease, now);
    } else {
      Stutter(s, now);
    }
  }

  /** A listed lease that is reached too late is expired, and the lease in the table is another
      worker's: recovering it breaks ownership. */
  lemma UnreachedBreaks(s: Cluster, snap: Snapshot, clock: Time, now: Time)
    requires Inv(s) && SnapOk(s, snap, clock) && !Reaches(s, snap, now)
    ensures !Inv(RecoverIfExpired(s, snap.lease, now))
  {
    assert LeaseOk(s, snap.lease.job);
    StaleSnapshotBreaksOwnership(s, snap.lease, now);
  }

  lemma ReachingIsLegalIff(s: Cluster, snap: Snapshot, clock: Time, now: Time)
    requires Inv(s) && SnapOk(s, snap, clock)
    ensures Good(s, RecoverIfExpired(s, snap.lease, now), None, now) <==> Reaches(s, snap, now)
  {
    if Reaches(s, snap, now) {
      RecoverListedKeeps(s, snap, clock, now);
    } else {
      UnreachedBreaks(s, snap, clock, now);
    }
  }

  lemma ReachingIffEnabled(sys: System, snap: Snapshot, now: Time)
    requires snap in sys.listed && sys.clock <= now
    ensures Enabled(sys, RecoverListed(snap), now) <==> Reaches(sys.c, snap, now)
  {
  }

  /** What a pass would do with a lease it listed is a legal step if and only if runs allow it. */
  lemma ListedTurnIsLegalIff(sys: System, snap: Snapshot, now: Time)
    requires SysInv(sys) && snap in sys.listed && sys.clock <= now
    ensures Good(sys.c, RecoverIfExpired(sys.c, snap.lease, now), None, now) <==> Enabled(sys, RecoverListed(snap), now)
  {
    ReachingIffEnabled(sys, snap, now);
    assert SnapOk(sys.c, snap, sys.clock);
    ReachingIsLegalIff(sys.c, snap, sys.clock, now);
  }

  lemma TakingBackIffEnabled(sys: System, sweep: nat, view: WorkerView, now: Time)
    requires sweep in sys.sweeps && sys.sweeps[sweep].WorkersRead? && view in sys.sweeps[sweep].listing && sys.clock <= now
    ensures Enabled(sys, TakeBack(sweep, view), now) <==> TurnIsLegal(sys.c, view, now)
  {
  }

  lemma SweptIsOk(sys: System, sweep: nat, view: WorkerView)
    requires SysInv(sys) && sweep in sys.sweeps && sys.sweeps[sweep].WorkersRead? && view in sys.sweeps[sweep].listing
    ensures Inv(sys.c) && ViewOk(sys.c, view)
  {
    assert SweepOk(sys.c, sys.sweeps[sweep]);
  }

  /** What a pass would do with a worker it listed is a legal step if and only if runs allow it. */
  lemma SweptTurnIsLegalIff(sys: System, sweep: nat, view: WorkerView, now: Time)
    requires SysInv(sys) && sweep in sys.sweeps && sys.sweeps[sweep].WorkersRead? && view in sys.sweeps[sweep].listing
    requires sys.clock <= now
    ensures Good(sys.c, RecoverWorker(sys.c, view, now), None, now) <==> Enabled(sys, TakeBack(sweep, view), now)
  {
    TakingBackIffEnabled(sys, sweep, view, now);
    SweptIsOk(sys, sweep, view);
    TurnIsLegalIff(sys.c, view, now);
  }

  //
  // One step, any step
  //

  /** The action works on copies or listings that may be out of date. */
  predicate OnCopies(a: Action) {
    a.MakeWorker? || a.ReadyMade? || a.RecoverListed? || a.TakeBack? || a.LoopFinish?
  }

  lemma CopiesKeep(sys: System, a: Action, now: Time)
    requires SysInv(sys) && Enabled(sys, a, now) && OnCopies(a)
    ensures Good(sys.c, Tables(sys, a, now), None, now)
  {
    var c := sys.c;
    match a
    case MakeWorker(post, managedBy, id) =>
      assert PostOk(c, sys.posts[post]);
      CreateIsLegalIff(c, sys.posts[post].node, managedBy, id, now);
    case ReadyMade(post) =>
      assert PostOk(c, sys.posts[post]);
      ReadyIsLegalIff(c, sys.posts[post].worker, now);
    case RecoverListed(snap) => RecoverListedKeeps(c, snap, sys.clock, now);
    case TakeBack(sweep, view) =>
      SweptIsOk(sys, sweep, view);
      TurnIsLegalIff(c, view, now);
    case LoopFinish(run, outcome, exit) => FinishExecutionKeeps(c, sys.loops[run], outcome, exit, now);
  }

  lemma CallsKeep(sys: System, a: Action, now: Time)
    requires Inv(sys.c) && Enabled(sys, a, now) && !OnCopies(a)
    ensures Good(sys.c, Tables(sys, a, now), RetriedBy(a), now)
  {
    var c := sys.c;
    match a
    case SubmitJob(id, t, resources, priority, constraints, maxRetries) =>
      CreateJobKeeps(c, id, t, resources, priority, constraints, maxRetries, now);
    case RequestCancel(j, t) => CancelJobKeeps(c, j, t, now);
    case RequestRetry(j, t) => RetryJobKeeps(c, j, t, now);
    case AddNode(id, t, capacity, labels) => CreateNodeKeeps(c, id, t, capacity, labels, now);
    case NodeBeat(n, t) => HeartbeatNodeKeeps(c, n, t, now);
    case NodeDrain(n, t) => DrainNodeKeeps(c, n, t, now);
    case ReadNode(_, _, _) => Stutter(c, now);
    case WorkerBeat(w, t) => WorkerHeartbeatKeeps(c, w, t, now);
    case SweepWorker(w) => MarkDeadKeeps(c, w, now);
    case ScheduleJob(j, nodeOrder, workerOrder, lid) => ScheduleOneKeeps(c, j, nodeOrder, workerOrder, lid, now);
    case ConfirmStart(w, j, t) => StartJobKeeps(c, w, j, t, now);
    case RenewHeld(w, lid, t) => RenewLeaseKeeps(c, w, lid, t, now);
    case ReportEnd(outcome, w, j, t, lid, exit) => ReportKeeps(c, outcome, w, j, t, lid, exit, now);
    case ListLeases => Stutter(c, now);
    case ReadOffline(_) => Stutter(c, now);
    case ReadWorkers(_) => Stutter(c, now);
    case LoopBegin(run, w) => BeginKeeps(c, w, now);
    case LoopRenew(run) => RenewLeaseKeeps(c, sys.loops[run].row.id, sys.loops[run].lease, sys.loops[run].row.tenant, now);
    case LoopObserve(run) => Stutter(c, now);
  }

  lemma TablesKeep(sys: System, a: Action, now: Time)
    requires SysInv(sys) && Enabled(sys, a, now)
    ensures Good(sys.c, Tables(sys, a, now), RetriedBy(a), now)
  {
    if OnCopies(a) {
      CopiesKeep(sys, a, now);
    } else {
      CallsKeep(sys, a, now);
    }
  }

  /** What an action makes of a running loop. */
  lemma LoopAfter(sys: System, a: Action, now: Time, run: nat)
    requires Enabled(sys, a, now) && run in sys.loops && run in Loops(sys, a, now)
    ensures var e, e' := sys.loops[run], Loops(sys, a, now)[run];
            e' == if a == LoopObserve(run) then ObserveCancellation(sys.c, e, now)
                  else if a == LoopRenew(run) then RenewExecution(sys.c, e, now).1
                  else e
  {
  }

  lemma BegunIsOk(sys: System, a: Action, now: Time, run: nat)
    requires Inv(sys.c) && Enabled(sys, a, now) && run !in sys.loops && run in Loops(sys, a, now)
    ensures LoopOk(Tables(sys, a, now), Loops(sys, a, now)[run])
  {
    BeginKeeps(sys.c, a.w, now);
  }

  lemma LoopStays(sys: System, a: Action, now: Time, run: nat)
    requires Inv(sys.c) && Enabled(sys, a, now) && Good(sys.c, Tables(sys, a, now), RetriedBy(a), now)
    requires run in sys.loops && LoopOk(sys.c, sys.loops[run]) && run in Loops(sys, a, now)
    ensures LoopOk(Tables(sys, a, now), Loops(sys, a, now)[run])
  {
    LoopAfter(sys, a, now, run);
    if a == LoopObserve(run) {
      ObserveKeeps(sys.c, sys.loops[run], now);
    } else {
      LoopOkStays(sys.c, Tables(sys, a, now), sys.loops[run], RetriedBy(a), now);
    }
  }

  lemma LoopsKeep(sys: System, a: Action, now: Time)
    requires SysInv(sys) && Enabled(sys, a, now)
    ensures var sys' := Next(sys, a, now);
            forall run :: run in sys'.loops ==> LoopOk(sys'.c, sys'.loops[run])
  {
    TablesKeep(sys, a, now);
    forall run | run in Loops(sys, a, now) ensures LoopOk(Tables(sys, a, now), Loops(sys, a, now)[run]) {
      if run in sys.loops {
        LoopStays(sys, a, now, run);
      } else {
        BegunIsOk(sys, a, now, run);
      }
    }
  }

  lemma ListingsKeep(sys: System, a: Action, now: Time)
    requires SysInv(sys) && Enabled(sys, a, now)
    ensures var sys' := Next(sys, a, now);
            forall snap :: snap in sys'.listed ==> SnapOk(sys'.c, snap, now)
  {
    var sys' := Next(sys, a, now);
    TablesKeep(sys, a, now);
    forall snap | snap in sys'.listed ensures SnapOk(sys'.c, snap, now) {
      if snap in sys.listed {
        SnapOkStays(sys.c, sys'.c, snap, sys.clock, RetriedBy(a), now);
      }
    }
  }

  lemma SweepOkStays(s: Cluster, s': Cluster, sweep: Sweep, retried: Option<JobId>, now: Time)
    requires Good(s, s', retried, now) && SweepOk(s, sweep)
    ensures SweepOk(s', sweep)
  {
    if sweep.WorkersRead? {
      forall view | view in sweep.listing ensures ViewOk(s', view) {
        ViewOkStays(s, s', view, retried, now);
      }
    }
  }

  lemma SweepKeeps(sys: System, a: Action, now: Time, sweep: nat)
    requires Inv(sys.c) && Enabled(sys, a, now) && Good(sys.c, Tables(sys, a, now), RetriedBy(a), now)
    requires sweep in sys.sweeps ==> SweepOk(sys.c, sys.sweeps[sweep])
    requires sweep in Sweeps(sys, a, now)
    ensures SweepOk(Tables(sys, a, now), Sweeps(sys, a, now)[sweep])
  {
    if a == ReadWorkers(sweep) {
      ListedAreOk(sys.c, sys.sweeps[sweep].offline);
    } else if sweep in sys.sweeps {
      SweepOkStays(sys.c, Tables(sys, a, now), sys.sweeps[sweep], RetriedBy(a), now);
    }
  }

  lemma SweepsKeep(sys: System, a: Action, now: Time)
    requires SysInv(sys) && Enabled(sys, a, now)
    ensures var sys' := Next(sys, a, now);
            forall sweep :: sweep in sys'.sweeps ==> SweepOk(sys'.c, sys'.sweeps[sweep])
  {
    TablesKeep(sys, a, now);
    forall sweep | sweep in Sweeps(sys, a, now) ensures SweepOk(Tables(sys, a, now), Sweeps(sys, a, now)[sweep]) {
      SweepKeeps(sys, a, now, sweep);
    }
  }

  lemma ListedAreOk(s: Cluster, offline: set<NodeId>)
    requires Inv(s)
    ensures SweepOk(s, WorkersRead(WorkersOn(s, offline)))
  {
    forall view | view in WorkersOn(s, offline) ensures ViewOk(s, view) {
      assert s.workers[view.row.id].id == view.row.id;
      CurrentIsOk(s, view);
    }
  }

  lemma LeasesStayInTime(s: Cluster, s': Cluster, clock: Time, retried: Option<JobId>, now: Time)
    requires Good(s, s', retried, now) && LeasesInTime(s, clock) && clock <= now
    ensures LeasesInTime(s', now)
  {
    forall j | j in s'.leases ensures s'.leases[j].expiresAt <= now + LEASE_DURATION {
      assert LeaseEvolves(s, s', j, now);
    }
  }

  /** The worker a creation returns is one whose row it has just saved. */
  lemma MadeIsCopy(s: Cluster, node: Node, managedBy: ManagedBy, newId: WorkerId, now: Time)
    requires Inv(s) && newId !in s.workers && NodeCopy(s, node)
    ensures var r := CreateWorker(s, node, managedBy, newId, now);
            r.answer.AWorker? && WorkerCopy(r.state, r.answer.worker) && r.answer.worker.status == Idle
  {
    var existing := WorkerOfNode(s, node.id, node.tenant);
    if existing.Some? {
      CreateAgainSettles(s, existing.value, node, managedBy, newId, now);
    }
  }

  lemma PostOkStays(s: Cluster, s': Cluster, p: Registration, retried: Option<JobId>, now: Time)
    requires Evolves(s, s', retried, now) && PostOk(s, p)
    ensures PostOk(s', p)
  {
  }

  lemma PostKeeps(sys: System, a: Action, now: Time, post: nat)
    requires Inv(sys.c) && Enabled(sys, a, now) && Good(sys.c, Tables(sys, a, now), RetriedBy(a), now)
    requires post in sys.posts ==> PostOk(sys.c, sys.posts[post])
    requires post in Posts(sys, a, now)
    ensures PostOk(Tables(sys, a, now), Posts(sys, a, now)[post])
  {
    if a.MakeWorker? && a.post == post {
      MadeIsCopy(sys.c, sys.posts[post].node, a.managedBy, a.newWorker, now);
    } else if post in sys.posts {
      PostOkStays(sys.c, Tables(sys, a, now), sys.posts[post], RetriedBy(a), now);
    }
  }

  lemma PostsKeep(sys: System, a: Action, now: Time)
    requires SysInv(sys) && Enabled(sys, a, now)
    ensures var sys' := Next(sys, a, now);
            forall post :: post in sys'.posts ==> PostOk(sys'.c, sys'.posts[post])
  {
    TablesKeep(sys, a, now);
    forall post | post in Posts(sys, a, now) ensures PostOk(Tables(sys, a, now), Posts(sys, a, now)[post]) {
      PostKeeps(sys, a, now, post);
    }
  }

  lemma GoesOnIff(s: Cluster, p: Registration, managedBy: ManagedBy, newId: WorkerId, now: Time)
    requires Inv(s) && PostOk(s, p) && newId !in s.workers
    ensures p.NodeRead? ==> (Good(s, CreateWorker(s, p.node, managedBy, newId, now).state, None, now) <==> MayGoOn(s, p))
    ensures p.WorkerMade? ==> (Good(s, ReadyWorker(s, p.worker).state, None, now) <==> MayGoOn(s, p))
  {
    match p
    case NodeRead(node) => CreateIsLegalIff(s, node, managedBy, newId, now);
    case WorkerMade(worker) => ReadyIsLegalIff(s, worker, now);
  }

  lemma MayGoOnIffEnabled(sys: System, post: nat, managedBy: ManagedBy, newId: WorkerId, now: Time)
    requires post in sys.posts && newId !in sys.c.workers && sys.clock <= now
    ensures sys.posts[post].NodeRead? ==>
              (Enabled(sys, MakeWorker(post, managedBy, newId), now) <==> MayGoOn(sys.c, sys.posts[post]))
    ensures sys.posts[post].WorkerMade? ==> (Enabled(sys, ReadyMade(post), now) <==> MayGoOn(sys.c, sys.posts[post]))
  {
  }

  /** What a registration under way would do next is a legal step if and only if runs allow it. */
  lemma PostIsLegalIff(sys: System, post: nat, managedBy: ManagedBy, newId: WorkerId, now: Time)
    requires SysInv(sys) && post in sys.posts && newId !in sys.c.workers && sys.clock <= now
    ensures sys.posts[post].NodeRead? ==>
              (Good(sys.c, CreateWorker(sys.c, sys.posts[post].node, managedBy, newId, now).state, None, now)
               <==> Enabled(sys, MakeWorker(post, managedBy, newId), now))
    ensures sys.posts[post].WorkerMade? ==>
              (Good(sys.c, ReadyWorker(sys.c, sys.posts[post].worker).state, None, now) <==> Enabled(sys, ReadyMade(post), now))
  {
    MayGoOnIffEnabled(sys, post, managedBy, newId, now);
    assert PostOk(sys.c, sys.posts[post]);
    GoesOnIff(sys.c, sys.posts[post], managedBy, newId, now);
  }

  /** Every action, from every state the invariant admits. */
  lemma StepKeeps(sys: System, a: Action, now: Time)
    requires SysInv(sys) && Enabled(sys, a, now)
    ensures SysInv(Next(sys, a, now))
    ensures Good(sys.c, Next(sys, a, now).c, RetriedBy(a), now)
  {
    TablesKeep(sys, a, now);
    LoopsKeep(sys, a, now);
    ListingsKeep(sys, a, now);
    PostsKeep(sys, a, now);
    SweepsKeep(sys, a, now);
    LeasesStayInTime(sys.c, Tables(sys, a, now), sys.clock, RetriedBy(a), now);
  }
}
