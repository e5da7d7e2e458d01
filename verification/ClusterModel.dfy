/** The cluster as four tables, and every service call as one step on them.

A step reads and writes the tables in the order of the service it models. Clock readings,
fresh ids and the order in which a table is listed are arguments. */
module ClusterModel {
  import opened Options
  import opened Domain
  import opened Scheduling

  /** leases is keyed by job, as in InMemoryLeaseRepository. issued remembers every lease id
      ever handed out, with its job: uuid4 never repeats one. */
  datatype Cluster = Cluster(
    jobs: map<JobId, Job>,
    workers: map<WorkerId, Worker>,
    nodes: map<NodeId, Node>,
    leases: map<JobId, Lease>,
    issued: map<LeaseId, JobId>)

  const EMPTY := Cluster(map[], map[], map[], map[], map[])

  /** A worker as a repository hands it out, with its node and its job resolved. */
  datatype WorkerView = WorkerView(row: Worker, node: Node, job: Option<Job>)

  datatype Answer =
    | Nothing
    | AJob(job: Option<Job>)
    | ANode(node: Option<Node>)
    | AWorker(worker: Worker)
    | Raised(error: Failure)

  datatype Step = Step(state: Cluster, answer: Answer)

  //
  // Reads
  //

  function GetJob(s: Cluster, j: JobId, t: Tenant): Option<Job> {
    if j in s.jobs && s.jobs[j].tenant == t then Some(s.jobs[j]) else None
  }

  function GetNode(s: Cluster, n: NodeId, t: Tenant): Option<Node> {
    if n in s.nodes && s.nodes[n].tenant == t then Some(s.nodes[n]) else None
  }

  function LoadWorker(s: Cluster, w: WorkerId): Option<WorkerView> {
    if w !in s.workers || s.workers[w].node !in s.nodes then None
    else
      var row := s.workers[w];
      var job := if row.runningJob.Some? && row.runningJob.value in s.jobs
                 then Some(s.jobs[row.runningJob.value]) else None;
      Some(WorkerView(row, s.nodes[row.node], job))
  }

  function GetWorker(s: Cluster, w: WorkerId, t: Tenant): Option<WorkerView> {
    if w in s.workers && s.workers[w].tenant == t then LoadWorker(s, w) else None
  }

  function LeaseOfJob(s: Cluster, j: JobId, t: Tenant): Option<Lease> {
    if j in s.leases && s.leases[j].tenant == t then Some(s.leases[j]) else None
  }

  predicate IsLeaseOf(s: Cluster, j: JobId, w: WorkerId, t: Tenant) {
    j in s.leases && s.leases[j].worker == w && s.leases[j].tenant == t
  }

  ghost function LeaseOfWorker(s: Cluster, w: WorkerId, t: Tenant): (r: Option<Lease>)
    ensures r.Some? ==> exists j :: IsLeaseOf(s, j, w, t) && s.leases[j] == r.value
    ensures r.None? ==> forall j :: !IsLeaseOf(s, j, w, t)
  {
    if exists j :: IsLeaseOf(s, j, w, t) then
      var j :| IsLeaseOf(s, j, w, t);
      Some(s.leases[j])
    else None
  }

  predicate IsWorkerOf(s: Cluster, w: WorkerId, n: NodeId, t: Tenant) {
    w in s.workers && s.workers[w].node == n && s.workers[w].tenant == t
  }

  ghost function WorkerOfNode(s: Cluster, n: NodeId, t: Tenant): (r: Option<WorkerId>)
    ensures r.Some? ==> IsWorkerOf(s, r.value, n, t)
    ensures r.None? ==> forall w :: !IsWorkerOf(s, w, n, t)
  {
    if exists w :: IsWorkerOf(s, w, n, t) then
      var w :| IsWorkerOf(s, w, n, t);
      Some(w)
    else None
  }

  /** The node rows in listing order. */
  function NodesOf(s: Cluster, order: seq<NodeId>): seq<Node> {
    if order == [] then []
    else
      var last := |order| - 1;
      NodesOf(s, order[..last]) + if order[last] in s.nodes then [s.nodes[order[last]]] else []
  }

  /** The first idle worker on a node, in listing order. */
  function FirstIdle(s: Cluster, order: seq<WorkerId>, n: NodeId): (r: Option<WorkerId>)
    ensures r.Some? ==> r.value in order && r.value in s.workers && s.workers[r.value].node == n && s.workers[r.value].status == Idle
    ensures r.None? ==>
              forall w :: w in order && w in s.workers && s.workers[w].node == n ==> s.workers[w].status != Idle
  {
    if order == [] then None
    else if order[0] in s.workers && s.workers[order[0]].node == n && s.workers[order[0]].status == Idle
    then Some(order[0])
    else FirstIdle(s, order[1..], n)
  }

  predicate NodesSound(s: Cluster) {
    forall n :: n in s.nodes ==> Sound(s.nodes[n])
  }

  lemma {:induction false} NodesOfSound(s: Cluster, order: seq<NodeId>)
    requires NodesSound(s)
    ensures AllSound(NodesOf(s, order))
    ensures forall node :: node in NodesOf(s, order) ==> node in s.nodes.Values
  {
    if order != [] {
      var last := |order| - 1;
      NodesOfSound(s, order[..last]);
      var n := order[last];
      if n in s.nodes {
        assert Sound(s.nodes[n]);
      }
    }
  }

  //
  // Writes
  //

  function SaveJob(s: Cluster, job: Job): Cluster {
    s.(jobs := s.jobs[job.id := job])
  }

  function SaveWorker(s: Cluster, worker: Worker): Cluster {
    s.(workers := s.workers[worker.id := worker])
  }

  function SaveNode(s: Cluster, node: Node): Cluster {
    s.(nodes := s.nodes[node.id := node])
  }

  function SaveLease(s: Cluster, lease: Lease): Cluster {
    s.(leases := s.leases[lease.job := lease])
  }

  /** Handing out a fresh lease id. */
  function Issue(s: Cluster, lid: LeaseId, j: JobId): Cluster {
    s.(issued := s.issued[lid := j])
  }

  function DeleteLease(s: Cluster, j: JobId, t: Tenant): Cluster {
    if LeaseOfJob(s, j, t).Some? then s.(leases := s.leases - {j}) else s
  }

  //
  // Jobs: create, cancel, retry
  //

  function CreateJob(s: Cluster, id: JobId, t: Tenant, resources: Resources, priority: int,
                     constraints: map<string, string>, maxRetries: int): Step
  {
    if resources.cpu == 0 || resources.memory == 0 then Step(s, Raised(InvalidResources))
    else match NewJob(id, t, resources, priority, constraints, maxRetries).Queue()
      case Err(e) => Step(s, Raised(e))
      case Ok(job) => Step(SaveJob(s, job), AJob(Some(job)))
  }

  function CancelJob(s: Cluster, j: JobId, t: Tenant, now: Time): Step {
    match GetJob(s, j, t)
    case None => Step(s, AJob(None))
    case Some(job) =>
      var changed := if job.status == Running then job.RequestCancellation(now)
                     else if job.status != Cancelling then job.Cancel()
                     else Ok(job);
      match changed
      case Err(e) => Step(s, Raised(e))
      case Ok(job') => Step(SaveJob(s, job'), AJob(Some(job')))
  }

  function RetryJob(s: Cluster, j: JobId, t: Tenant): Step {
    match GetJob(s, j, t)
    case None => Step(s, AJob(None))
    case Some(job) =>
      if job.status != Failed || !job.CanRetry() then Step(s, AJob(Some(job)))
      else match job.Retry()
        case Err(e) => Step(s, Raised(e))
        case Ok(job') => Step(SaveJob(s, job'), AJob(Some(job')))
  }

  //
  // Nodes
  //

  function CreateNode(s: Cluster, id: NodeId, t: Tenant, capacity: Resources, labels: map<string, string>, now: Time): Step {
    var node := NewNode(id, t, capacity, labels, now);
    Step(SaveNode(s, node), ANode(Some(node)))
  }

  function HeartbeatNode(s: Cluster, n: NodeId, t: Tenant, now: Time): Step {
    match GetNode(s, n, t)
    case None => Step(s, ANode(None))
    case Some(node) => Step(SaveNode(s, node.Heartbeat(now)), ANode(Some(node.Heartbeat(now))))
  }

  function DrainNode(s: Cluster, n: NodeId, t: Tenant): Step {
    match GetNode(s, n, t)
    case None => Step(s, Raised(NodeNotFound))
    case Some(node) => Step(SaveNode(s, node.Drain()), ANode(Some(node.Drain())))
  }

  //
  // Leases
  //

  ghost function RenewLease(s: Cluster, w: WorkerId, expected: LeaseId, t: Tenant, duration: Time, now: Time): Step {
    match LeaseOfWorker(s, w, t)
    case None => Step(s, Raised(NoActiveLease))
    case Some(lease) =>
      if lease.id != expected then Step(s, Raised(LeaseNotFound))
      else Step(SaveLease(s, lease.Renew(now, duration)), Nothing)
  }

  ghost function ReleaseLease(s: Cluster, w: WorkerId, expected: LeaseId, t: Tenant): Step {
    match LeaseOfWorker(s, w, t)
    case None => Step(s, Raised(NoActiveLease))
    case Some(lease) =>
      if lease.id != expected then Step(s, Raised(LeaseNotFound))
      else if GetWorker(s, w, t).None? then Step(s, Raised(WorkerNotFound))
      else if GetJob(s, lease.job, t).None? then Step(s, Raised(JobNotFound))
      else Step(DeleteLease(s, lease.job, t), Nothing)
  }

  function AcquireLease(s: Cluster, worker: WorkerView, job: Job, lid: LeaseId, now: Time): Step {
    if job.tenant != worker.node.tenant then Step(s, Raised(TenantConflict))
    else if LeaseOfJob(s, job.id, job.tenant).Some? then Step(s, Raised(AlreadyLeased))
    else
      var lease := NewLease(lid, worker.row.id, job.id, worker.node.tenant, now);
      Step(SaveLease(Issue(s, lid, job.id), lease), Nothing)
  }

  //
  // Scheduling one queued job
  //

  datatype Placement = NoNode | NoWorker | Granted | Escaped

  datatype Placed = Placed(state: Cluster, placement: Placement)

  /** AssignWorkerService: the lease first, then the worker. */
  function AssignWorker(s: Cluster, job: Job, order: seq<WorkerId>, lid: LeaseId, now: Time): Step {
    if job.node.None? then Step(s, Raised(InvalidTransition))
    else match FirstIdle(s, order, job.node.value)
      case None => Step(s, Raised(NoAvailableNode))
      case Some(w) =>
        match LoadWorker(s, w)
        case None => Step(s, Raised(NoAvailableNode))
        case Some(view) =>
          var leased := AcquireLease(s, view, job, lid, now);
          match leased.answer
          case Raised(TenantConflict) => Step(s, Raised(NoAvailableNode))
          case Raised(e) => Step(s, Raised(e))
          case _ =>
            match view.row.Accept(job)
            case Err(e) => Step(leased.state, Raised(e))
            case Ok(worker) => Step(SaveWorker(leased.state, worker), AWorker(worker))
  }

  /** One iteration of the scheduler tick, undoing the placement when it is refused. */
  function ScheduleOne(s: Cluster, j: JobId, nodeOrder: seq<NodeId>, workerOrder: seq<WorkerId>,
                       lid: LeaseId, now: Time): Placed
    requires NodesSound(s)
  {
    NodesOfSound(s, nodeOrder);
    if j !in s.jobs || s.jobs[j].status != Queued then Placed(s, NoNode)
    else
      var job := s.jobs[j];
      match SelectNode(job, NodesOf(s, nodeOrder), now)
      case None => Placed(s, NoNode)
      case Some(node) => Place(s, job, node, workerOrder, lid, now)
  }

  function Place(s: Cluster, job: Job, node: Node, workerOrder: seq<WorkerId>, lid: LeaseId, now: Time): Placed {
    match node.Allocate(job.resources)
    case Err(_) => Placed(s, Escaped)
    case Ok(node1) =>
      match job.AssignTo(node.id)
      case Err(_) => Placed(s, Escaped)
      case Ok(job1) => OfferToWorker(SaveJob(SaveNode(s, node1), job1), job1, node1, workerOrder, lid, now)
  }

  function OfferToWorker(s: Cluster, job: Job, node: Node, workerOrder: seq<WorkerId>, lid: LeaseId, now: Time): Placed {
    var offered := AssignWorker(s, job, workerOrder, lid, now);
    match offered.answer
    case Raised(NoAvailableNode) =>
      (match job.Unschedule()
       case Err(_) => Placed(s, Escaped)
       case Ok(job') => Placed(SaveJob(SaveNode(s, node.Release(job.resources)), job'), NoWorker))
    case Raised(_) => Placed(offered.state, Escaped)
    case _ => Placed(offered.state, Granted)
  }

  //
  // Execution: start, report, and the in-process loop
  //

  function StartJob(s: Cluster, w: WorkerId, j: JobId, t: Tenant, now: Time): Step {
    match GetWorker(s, w, t)
    case None => Step(s, Raised(WorkerNotFound))
    case Some(view) =>
      if view.node.tenant != t then Step(s, Raised(WorkerNotFound))
      else if view.job.None? || view.job.value.id != j then Step(s, Raised(WorkerJobMismatch))
      else match view.job.value.Start(now)
        case Err(e) => Step(s, Raised(e))
        case Ok(job) => Step(SaveJob(SaveWorker(s, view.row), job), AWorker(view.row))
  }

  /** Keeps a recorded cancellation request that the local copy never saw. */
  function WithCancellation(job: Job, current: Option<Job>): Job {
    if current.Some? && current.value.cancelRequestedAt.Some? && job.cancelRequestedAt.None?
    then job.(cancelRequestedAt := current.value.cancelRequestedAt)
    else job
  }

  /** Release the lease, then free the worker, give the node its resources back, save the job.
      row and job are the caller's copies. Nothing is written when the release is refused. */
  ghost function Finish(s: Cluster, row: Worker, job: Job, expected: LeaseId, t: Tenant, merge: bool): (r: Step)
    ensures r.state.issued == s.issued
  {
    var released := ReleaseLease(s, row.id, expected, t);
    if released.answer.Raised? then Step(s, released.answer)
    else
      var s1 := SaveWorker(released.state, row.Freed());
      var node := if job.node.Some? then GetNode(s1, job.node.value, t) else None;
      var s2 := if node.Some? then SaveNode(s1, node.value.Release(job.resources)) else s1;
      var job' := if merge then WithCancellation(job, GetJob(s2, job.id, t)) else job;
      Step(SaveJob(s2, job'), AWorker(row.Freed()))
  }

  ghost function ReportOutcome(s: Cluster, outcome: Outcome, w: WorkerId, j: JobId, t: Tenant, expected: LeaseId,
                               exit: Option<int>, now: Time): Step
  {
    match GetWorker(s, w, t)
    case None => Step(s, Raised(WorkerNotFound))
    case Some(view) =>
      if view.node.tenant != t then Step(s, Raised(WorkerNotFound))
      else if view.job.None? || view.job.value.id != j then Step(s, Raised(WorkerJobMismatch))
      else match view.job.value.Conclude(outcome, exit, now)
        case Err(e) => Step(s, Raised(e))
        case Ok(job) => Finish(s, view.row, job, expected, t, false)
  }

  /** What one run of WorkerExecutionLoop keeps while its subprocess runs: its own copies of
      the worker and the job, and the lease it started with. */
  datatype Execution = Execution(row: Worker, job: Job, lease: LeaseId, lost: bool)

  datatype Begun = Begun(state: Cluster, execution: Option<Execution>)

  ghost function BeginExecution(s: Cluster, w: WorkerId, now: Time): Begun {
    match LoadWorker(s, w)
    case None => Begun(s, None)
    case Some(view) =>
      if view.job.None? then Begun(s, None)
      else match LeaseOfWorker(s, w, view.node.tenant)
        case None => Begun(s, None)
        case Some(lease) =>
          var job := view.job.value;
          if job.status == Running then Begun(s, Some(Execution(view.row, job, lease.id, false)))
          else match job.Start(now)
            case Err(_) => Begun(s, None)
            case Ok(started) => Begun(SaveJob(s, started), Some(Execution(view.row, started, lease.id, false)))
  }

  /** The renewal thread's call; a lease found under another id marks the execution lost. */
  ghost function RenewExecution(s: Cluster, e: Execution, now: Time): (Cluster, Execution) {
    var renewed := RenewLease(s, e.row.id, e.lease, e.row.tenant, LEASE_DURATION, now);
    (renewed.state, if renewed.answer == Raised(LeaseNotFound) then e.(lost := true) else e)
  }

  /** The renewal thread's look at the stored job for a cancellation request. */
  function ObserveCancellation(s: Cluster, e: Execution, now: Time): Execution {
    match GetJob(s, e.job.id, e.row.tenant)
    case None => e
    case Some(current) =>
      if current.status != Cancelling || e.job.status == Cancelling then e
      else match e.job.RequestCancellation(now)
        case Err(_) => e
        case Ok(job) => e.(job := job)
  }

  ghost function FinishExecution(s: Cluster, e: Execution, outcome: Outcome, exit: Option<int>, now: Time): Step {
    if e.lost then Step(s, Raised(LeaseLost))
    else match e.job.Conclude(outcome, exit, now)
      case Err(err) => Step(s, Raised(err))
      case Ok(job) => Finish(s, e.row, job, e.lease, e.row.tenant, true)
  }

  //
  // Workers: heartbeat, sweep, registration
  //

  function WorkerHeartbeat(s: Cluster, w: WorkerId, t: Tenant, now: Time): Step {
    match GetWorker(s, w, t)
    case None => Step(s, Raised(WorkerNotFound))
    case Some(view) =>
      if view.node.tenant != t then Step(s, Raised(WorkerNotFound))
      else
        // running_job is the resolved job, so a dangling link counts as no job.
        var row := if view.job.None? then view.row.(runningJob := None) else view.row;
        Step(SaveWorker(s, row.Heartbeat(now)), AWorker(row.Heartbeat(now)))
  }

  /** One iteration of MarkDeadWorkersService. */
  function MarkDead(s: Cluster, w: WorkerId, now: Time): Cluster {
    match LoadWorker(s, w)
    case None => s
    case Some(view) => if view.row.IsAlive(now) then s else SaveWorker(s, view.row.GoOffline())
  }

  /** reclaim_job on the caller's copies: delete the lease, release the node, reclaim the job. */
  function ReclaimJob(s: Cluster, job: Job, node: Option<Node>, leaseDeleted: bool, now: Time): (r: Cluster)
    ensures r.issued == s.issued
  {
    var s1 := if leaseDeleted then s else DeleteLease(s, job.id, job.tenant);
    var s2 := if node.Some? then SaveNode(s1, node.value.Release(job.resources)) else s1;
    match job.Reclaim(now)
    case Err(_) => s2
    case Ok(job') => SaveJob(s2, job')
  }

  /** CreateWorkerService on the caller's copy of the node: reclaim whatever the node's worker held
      and free it, or create one. */
  ghost function CreateWorker(s: Cluster, node: Node, managedBy: ManagedBy, newId: WorkerId, now: Time): (r: Step)
    ensures r.state.issued == s.issued
  {
    match WorkerOfNode(s, node.id, node.tenant)
    case None =>
      var worker := NewWorker(newId, node, managedBy, now);
      Step(SaveWorker(s, worker), AWorker(worker))
    case Some(w) =>
      match LoadWorker(s, w)
      case None => Step(s, Raised(WorkerNotFound))
      case Some(view) =>
        var s1 := if view.job.Some? then ReclaimJob(s, view.job.value, Some(node), false, now) else s;
        var worker := view.row.Freed().(managedBy := managedBy);
        Step(SaveWorker(s1, worker), AWorker(worker))
  }

  /** RegisterWorkerService on the caller's copy of the worker. */
  function ReadyWorker(s: Cluster, worker: Worker): (r: Step)
    ensures r.state.issued == s.issued
  {
    var s1 := SaveWorker(s, worker.(status := Idle));
    match GetWorker(s1, worker.id, worker.tenant)
    case None => Step(s1, Raised(WorkerNotFound))
    case Some(view) => Step(s1, AWorker(view.row))
  }

  //
  // Reconciliation
  //

  /** One iteration of RecoverExpiredLeaseService from the moment of delete_if_expired. The
      lease comes from the snapshot read at the start of the pass. */
  function RecoverLease(s: Cluster, snapshot: Lease, now: Time): (r: Cluster)
    ensures r.issued == s.issued
  {
    match LeaseOfJob(s, snapshot.job, snapshot.tenant)
    case None => s
    case Some(current) =>
      if !current.IsExpired(now) then s
      else
        var s1 := DeleteLease(s, snapshot.job, snapshot.tenant);
        var worker := GetWorker(s1, snapshot.worker, snapshot.tenant);
        var s2 := if worker.Some? then SaveWorker(s1, worker.value.row.Freed()) else s1;
        match GetJob(s1, snapshot.job, snapshot.tenant)
        case None => s2
        case Some(job) =>
          var node := if job.node.Some? then GetNode(s2, job.node.value, snapshot.tenant) else None;
          ReclaimJob(s2, job, node, true, now)
  }

  /** One iteration of RecoverOfflineNodeService on the worker as the pass listed it. */
  function RecoverWorker(s: Cluster, listed: WorkerView, now: Time): (r: Cluster)
    ensures r.issued == s.issued
  {
    if listed.job.None? then s
    else
      var job := listed.job.value;
      match LeaseOfJob(s, job.id, job.tenant)
      case Some(lease) =>
        if !lease.IsExpired(now) then s
        else
          ReclaimJob(SaveWorker(DeleteLease(s, job.id, job.tenant), listed.row.Freed()), job, Some(listed.node), true, now)
      case None =>
        ReclaimJob(SaveWorker(s, listed.row.Freed()), job, Some(listed.node), false, now)
  }
}
