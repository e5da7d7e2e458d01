/** The rows of the cluster and the domain commands on them (app/domain/entities).

A repository read hands out a copy and a save writes one back, so every entity is a
value and every command returns the changed copy or the error it raises. */
module Domain {
  import opened Options

  type Tenant = int
  type JobId = int
  type NodeId = int
  type WorkerId = int
  type LeaseId = int
  type Time = int

  const LEASE_DURATION: Time := 30
  const HEARTBEAT_TIMEOUT: Time := 60

  /** The errors the services raise. */
  datatype Failure =
    | InvalidTransition
    | RetriesExhausted
    | InsufficientCapacity
    | InvalidResources
    | WorkerNotFound
    | WorkerJobMismatch
    | NoActiveLease
    | LeaseNotFound
    | JobNotFound
    | AlreadyLeased
    | NoAvailableNode
    | NodeNotFound
    | TenantConflict
    | LeaseLost

  datatype Result<+T> = Ok(value: T) | Err(error: Failure)

  //
  // Resources
  //

  datatype Resources = Resources(cpu: nat, memory: nat, vram: nat) {
    predicate Within(limit: Resources) {
      cpu <= limit.cpu && memory <= limit.memory && vram <= limit.vram
    }

    function Plus(other: Resources): Resources {
      Resources(cpu + other.cpu, memory + other.memory, vram + other.vram)
    }

    function Minus(other: Resources): Resources
      requires other.Within(this)
    {
      Resources(cpu - other.cpu, memory - other.memory, vram - other.vram)
    }

    function Capped(limit: Resources): Resources {
      Resources(Min(cpu, limit.cpu), Min(memory, limit.memory), Min(vram, limit.vram))
    }
  }

  const NO_RESOURCES := Resources(0, 0, 0)

  function Min(a: nat, b: nat): nat {
    if a <= b then a else b
  }

  //
  // Nodes
  //

  datatype Node = Node(
    id: NodeId,
    tenant: Tenant,
    capacity: Resources,
    available: Resources,
    labels: map<string, string>,
    lastSeen: Time,
    draining: bool)
  {
    predicate IsAlive(now: Time) {
      now - lastSeen <= HEARTBEAT_TIMEOUT
    }

    predicate CanHost(wanted: Resources) {
      wanted.Within(available)
    }

    function Allocate(wanted: Resources): Result<Node> {
      if CanHost(wanted) then Ok(this.(available := available.Minus(wanted)))
      else Err(InsufficientCapacity)
    }

    /** Gives resources back, clamped at the capacity. */
    function Release(freed: Resources): Node {
      this.(available := available.Plus(freed).Capped(capacity))
    }

    function Heartbeat(now: Time): Node {
      this.(lastSeen := now)
    }

    function Drain(): Node {
      this.(draining := true)
    }
  }

  /** Node.register: a fully free node. */
  function NewNode(id: NodeId, tenant: Tenant, capacity: Resources, labels: map<string, string>, now: Time): Node {
    Node(id, tenant, capacity, capacity, labels, now, false)
  }

  //
  // Jobs
  //

  datatype Status = Submitted | Queued | Scheduled | Running | Cancelling | Completed | Failed | Cancelled

  /** The transition table of Job. */
  predicate Allowed(from: Status, to: Status) {
    match from
    case Submitted => to == Queued
    case Queued => to in {Scheduled, Cancelled}
    case Scheduled => to in {Running, Cancelled, Queued, Failed}
    case Running => to in {Completed, Failed, Queued, Cancelling}
    case Cancelling => to in {Completed, Failed, Cancelled}
    case Completed => false
    case Failed => to == Queued
    case Cancelled => false
  }

  /** The states in which a worker holds the job and may still be executing it. */
  predicate IsActive(status: Status) {
    status in {Scheduled, Running, Cancelling}
  }

  /** How an execution ended. */
  datatype Outcome = Succeeded | Errored | WasCancelled

  datatype Job = Job(
    id: JobId,
    tenant: Tenant,
    resources: Resources,
    priority: int,
    constraints: map<string, string>,
    maxRetries: int,
    retryCount: int,
    status: Status,
    node: Option<NodeId>,
    startedAt: Option<Time>,
    completedAt: Option<Time>,
    cancelRequestedAt: Option<Time>,
    exitCode: Option<int>)
  {
    function TransitionTo(to: Status): Result<Job> {
      if Allowed(status, to) then Ok(this.(status := to)) else Err(InvalidTransition)
    }

    function Queue(): Result<Job> {
      TransitionTo(Queued)
    }

    function AssignTo(target: NodeId): Result<Job> {
      this.(node := Some(target)).TransitionTo(Scheduled)
    }

    function Unschedule(): Result<Job> {
      if status != Scheduled then Err(InvalidTransition)
      else this.(node := None).TransitionTo(Queued)
    }

    function Start(now: Time): Result<Job> {
      this.(startedAt := Some(now)).TransitionTo(Running)
    }

    function Complete(exit: Option<int>, now: Time): Result<Job> {
      this.(completedAt := Some(now), exitCode := exit).TransitionTo(Completed)
    }

    function Fail(exit: Option<int>, now: Time): Result<Job> {
      this.(completedAt := Some(now), exitCode := exit).TransitionTo(Failed)
    }

    function Cancel(): Result<Job> {
      TransitionTo(Cancelled)
    }

    function RequestCancellation(now: Time): Result<Job> {
      this.(cancelRequestedAt := Some(now)).TransitionTo(Cancelling)
    }

    /** Not limited to Cancelling: the table also allows it from Queued and Scheduled. */
    function ConfirmCancelled(exit: Option<int>, now: Time): Result<Job> {
      this.(completedAt := Some(now), exitCode := exit).TransitionTo(Cancelled)
    }

    /** The transition a finished execution asks for. */
    function Conclude(outcome: Outcome, exit: Option<int>, now: Time): Result<Job> {
      match outcome
      case Succeeded => Complete(exit, now)
      case Errored => Fail(exit, now)
      case WasCancelled => ConfirmCancelled(exit, now)
    }

    predicate CanRetry() {
      retryCount < maxRetries
    }

    function RecordRetry(): Result<Job> {
      if CanRetry() then Ok(this.(retryCount := retryCount + 1)) else Err(RetriesExhausted)
    }

    function Retry(): Result<Job> {
      if status != Failed then Err(InvalidTransition)
      else match RecordRetry()
        case Err(e) => Err(e)
        case Ok(j) =>
          j.(node := None, startedAt := None, completedAt := None, exitCode := None,
             cancelRequestedAt := None).TransitionTo(Queued)
    }

    /** Takes a job back from a dead worker: a cancelling job ends cancelled, any other
        is queued again at the price of a retry, or fails when none is left. */
    function Reclaim(now: Time): Result<Job> {
      if status == Cancelling then
        this.(node := None, completedAt := Some(now)).TransitionTo(Cancelled)
      else if status !in {Scheduled, Running} then Err(InvalidTransition)
      else if !CanRetry() then
        this.(node := None, completedAt := Some(now)).TransitionTo(Failed)
      else match RecordRetry()
        case Err(e) => Err(e)
        case Ok(j) =>
          j.(node := None, startedAt := None, completedAt := None, exitCode := None)
          .TransitionTo(Queued)
    }
  }

  /** A submitted job, before Queue. */
  function NewJob(id: JobId, tenant: Tenant, resources: Resources, priority: int,
                  constraints: map<string, string>, maxRetries: int): Job
  {
    Job(id, tenant, resources, priority, constraints, maxRetries, 0, Submitted, None, None, None, None, None)
  }

  /** What no command on a job changes. */
  predicate SameIdentity(a: Job, b: Job) {
    && a.id == b.id && a.tenant == b.tenant && a.resources == b.resources
    && a.priority == b.priority && a.constraints == b.constraints && a.maxRetries == b.maxRetries
  }

  //
  // Workers
  //

  datatype WorkerStatus = Starting | Idle | Busy | Draining | Offline

  datatype ManagedBy = Dashboard | Agent

  /** A workers row. The job is a link, and reads resolve it against the jobs table. */
  datatype Worker = Worker(
    id: WorkerId,
    node: NodeId,
    tenant: Tenant,
    status: WorkerStatus,
    managedBy: ManagedBy,
    runningJob: Option<JobId>,
    lastSeen: Time)
  {
    predicate IsAlive(now: Time) {
      now - lastSeen <= HEARTBEAT_TIMEOUT
    }

    /** A heartbeat wakes an offline worker only when it carries no job. */
    function Heartbeat(now: Time): Worker {
      var seen := this.(lastSeen := now);
      if status == Offline && runningJob == None then seen.(status := Idle) else seen
    }

    function Accept(job: Job): Result<Worker> {
      if status != Idle || job.node != Some(node) then Err(NoAvailableNode)
      else Ok(this.(runningJob := Some(job.id), status := Busy))
    }

    /** Forgets the job and goes idle: complete, fail, cancel_job and recover all end here. */
    function Freed(): Worker {
      this.(runningJob := None, status := Idle)
    }

    function GoOffline(): Worker {
      this.(status := Offline)
    }
  }

  function NewWorker(id: WorkerId, node: Node, managedBy: ManagedBy, now: Time): Worker {
    Worker(id, node.id, node.tenant, Idle, managedBy, None, now)
  }

  //
  // Leases
  //

  datatype Lease = Lease(
    id: LeaseId,
    worker: WorkerId,
    job: JobId,
    tenant: Tenant,
    acquiredAt: Time,
    expiresAt: Time)
  {
    predicate IsExpired(now: Time) {
      now >= expiresAt
    }

    function Renew(now: Time, duration: Time): Lease {
      this.(expiresAt := now + duration)
    }
  }

  function NewLease(id: LeaseId, worker: WorkerId, job: JobId, tenant: Tenant, now: Time): Lease {
    Lease(id, worker, job, tenant, now, now + LEASE_DURATION)
  }
}
