# AetherGrid in Dafny

AetherGrid is a job orchestrator. Its hard part is who owns a job when things fail: a worker holds a
job under a lease that expires, every write that ends an execution is fenced by the lease id, a
reconciliation cycle takes abandoned jobs back, and nodes keep books on what their jobs occupy. This
project models that protocol as one state machine over four tables and proves what it promises over
every run. Smaller self-contained cores of the repository follow.

`dafny verify dfyconfig.toml` checks everything.

## How the model is laid out

| file | what it holds |
|---|---|
| `Options`, `Sequences` | optional values; filtering and stable sorting |
| `Domain` | the rows (jobs, workers, nodes, leases) and the domain commands on them |
| `Scheduling` | best-fit node selection, with real-valued scores |
| `ClusterModel` | the four tables, and every service call as one step on them |
| `Invariant`, `Steps` | one inductive invariant, and every step keeping it |
| `ListedWorkers` | a worker the offline-node pass listed some time ago: what stays true of it, and which turns on it are legal |
| `Answers` | what every call answers and leaves behind, read off the rows it finds |
| `Runs`, `Guarantees` | whole runs: any interleaving of all calls, execution loops and recovery passes, and what holds over them |
| `Tenancy`, `Tick` | what a tenant can see of the others; the scheduler tick over all tenants |
| `Reconciliation`, `StaleListings` | whole recovery passes and the cycle; what turns on old listings do over whole runs |
| `Removal`, `Utilization` | node removal; reported utilization |
| `Witnesses` | runs that reach the states in which a promise fails |
| `Services` | the services in the source's own form: a class over dictionaries, loops and in-place updates, each method proved equal to its step |
| `Client` | partner client: circuit breaker, attempt loop, deduplicating server |
| `RateLimiter` | token bucket per key |
| `Migrations` | planner and runner of versioned migrations, under crashes |
| `AgentLease` | how long the agent trusts a lease it cannot renew |
| `Leadership` | leader election by advisory lock |
| `ReadmeText`, `ReadmeBlocks` | the README block parser |

Choices a reader should know:

- A repository read hands out a copy and a save writes it, as with the Postgres backend. A worker's job
  is a link that reads resolve against the jobs table.
- A service's `execute` is one atomic step. Finer steps are taken where the interleaving is the point:
  an execution loop is begin, any number of renewals and cancellation checks, and finish, with its own
  stale copies, and any number of loops run at once; POST /workers is three calls, a read of the node, a
  creation on that copy and a second save of the created worker, and any number are under way; a pass
  over expired leases works from a listing of leases, and an offline-node pass from a reading of the
  nodes and then a listing of workers, that may be stale in every way, and any number are under way.
- Clock readings, fresh ids, listing orders, execution results, jitter draws, network replies and crash
  points are arguments. Times are whole seconds in the cluster and reals elsewhere. A renewal in a run
  extends the lease by the default 30 seconds.
- Fresh ids never repeat one in use, and the clock of a run does not go backwards.

Where the code and its own text differ, the model follows the code:

- `confirm_cancelled` is documented for CANCELLING only, but the transition table also allows it from
  QUEUED and SCHEDULED.
- In-memory `delete_if_expired` deletes at the expiry instant, as `Lease.is_expired` says; the Postgres
  query deletes only after it. The model has the former.
- A half-open circuit is described as letting one trial call through. It lets every call through until
  one reports a result (`HalfOpenAdmitsAll`).
- The reconciliation cycle marks dead workers OFFLINE first and is described as keeping their status
  honest, but recovering an expired lease then sets its worker IDLE, dead or not
  (`DeadWorkerReadsOffline`).

Promises that do not hold of the code as it is. Each comes with the exact condition under which it
holds, and with a run in which it fails:

- POST /workers keeps ownership and the books exactly when neither copy it saves has been overtaken.
  The copy of the node must, with the resources of the job taken back, reach the capacity, and must not
  forget a drain (`CreateIsLegalIff`, `CopyServesIff`); the created worker must have been given no job
  (`ReadyIsLegalIff`). Otherwise resources are lost (`CreateCanLoseResources`), or a worker forgets the
  job it was just given (`ReadyCanLoseAJob`).
- Recovering a listed lease keeps ownership exactly when the lease it deletes still belongs to the
  worker the listing names (`StaleSnapshotBreaksOwnership`, `ListedTurnIsLegalIff`). It fails only once
  jobs may retry: while every job has `max_retries` 0, which is what `CreateJobService` leaves it at, a
  pass may act on its listing at any time (`WithoutRetriesEveryTurnIsReached`). With one retry a pass
  that is late enough deletes another worker's lease (`ListedLeaseCanOutliveItsWorker`).
- The offline-node pass writes its listed copies back, so it can undo a completion
  (`StaleTurnCanUndoCompletion`), a cancellation request or a drain that came after the listing, and can
  free a worker that holds another job under a live lease by now, also when it was listed with a
  cancelled job and no job may retry (`StaleTurnCanLoseAJob`). `OfflineTurnIsLegalIff` says for every
  run, every listed worker and every delay exactly which turns are sound, and `OfflineTurnSparesIff`
  exactly which leave a live lease alone.
- Removing an offline node keeps the books exactly when no job is active on it
  (`RemovalIsSafeIffIdle`); the service only asks that the node be offline, and a scheduled job can be
  stranded (`RemovalCanStrand`).
- The agent gives up no later than the server's expiry exactly when the age of the lease it began with
  and one attempt fit into the margin of 5 seconds (`GivesUpInTimeIff`). The margin is one poll
  interval, which the age alone can use up (`FirstWindowCanOverrun`).
- The agent's bound of one attempt past the window holds for attempts of at most 15 seconds and no
  longer (`BoundNeedsFastAttempts`).

Runs take every turn of a pass and every save of a registration that is sound, and leave out exactly the
others (`OnlyIllegalStepsAreLeftOut`); that is what the guarantees over whole runs are about.

## Model

| member | source | states |
|---|---|---|
| Guarantees.OwnershipAlways | app/application/services/assign_worker_service.py:51-154 | at every point of every run, with registrations under way on copies of any age, a lease of job j for worker w exists exactly when w carries j; then w is not idle, j is assigned to w's node, and all four rows share a tenant; an active job has one lease, a queued, failed or completed one has none |
| Guarantees.ConservationAlways | app/domain/entities/node.py:165-206 | at every point of every run, on each node and in each dimension, available plus what the held job asked for is the capacity: no allocation is released twice or lost, also when a reclaim races a stale finish |
| Guarantees.RetiredForever | app/application/services/release_lease_service.py:86-136 | a lease id that left the table never comes back |
| Guarantees.RetiredWritesNothing | app/application/services/report_job_outcome_service.py:100-158 | from then on every renew, release, report or loop finish that carries the id is refused and writes nothing |
| Guarantees.RecordedOnce | app/application/services/report_job_outcome_service.py:100-280 | each lease yields at most one recorded outcome or reclaim, with any number of repeated reports and concurrent executions |
| Guarantees.RetriesBounded | app/domain/entities/job.py:343-455 | over any run a job is granted at most max_retries + 1 leases and its retry count stays within max_retries |
| Guarantees.GrantsAreLeaseIds | app/application/services/scheduler_loop_service.py:60-122 | the grants of a job in a run are exactly the lease ids ever issued for it |
| Guarantees.HistoryFollowsTable | app/domain/entities/job.py:103-165 | every persisted change of a job row follows the transition table, also when a loop saves a stale copy after a concurrent cancel; a row changes only with its status, a start or an end is stamped with the time of the step, going back to the queue clears the row and costs one retry, and only a retry takes a failed job back or forgets a cancellation request |
| Guarantees.TerminalForever | app/domain/entities/job.py:103-165 | the row of a completed or cancelled job never changes again in the run |
| Guarantees.OnlyRetryForgets | app/application/workers/worker_execution_loop.py:340-373 | until the job is retried, a failed job stays failed and a recorded cancellation request stays recorded, if not its time |
| Guarantees.RequestTimeStays | app/application/workers/worker_execution_loop.py:340-373 | in every step of every run but a retry the stored time of a cancellation request stays what it was, unless a loop that saw the request ends the job: then it is the time at which that loop saw it |
| Guarantees.CancellationIsDelivered | app/application/workers/worker_execution_loop.py:182-373 | in every run in which a running job is cancelled and the loop that runs it looks and then reports it cancelled, still under its lease and not marked lost, the job ends cancelled, whatever else happens in between |
| Guarantees.DrainedTakesNoJob | app/application/services/drain_node_service.py:26-56 | from the moment a node is drained it stays draining, and no step of the run takes a queued job to it |
| Guarantees.StampsAlways | app/domain/entities/job.py:229-455 | at every point of every run a job's start, completion and cancellation times and its exit code are those its status allows |
| Guarantees.RecoverySparesLiveLeases | app/application/reconciliation/recover_expired_lease_service.py:94-128 | whatever ran between a pass's listing and its turn, a turn that a run takes leaves a job whose lease is not expired at that instant its lease, worker, node and status |
| Guarantees.ListedTurnSparesIff | app/application/reconciliation/recover_offline_node_service.py:94-161 | a turn of the offline-node pass on a listed worker, sound or not, leaves a live lease with its job, worker and node alone if and only if it writes nothing or that worker does not hold the lease by now |
| Guarantees.InvConserves | app/domain/entities/node.py:165-206 | the invariant implies conservation on every node, with one held job per node |
| Guarantees.Reachable | app/application/services/cluster_tick_service.py:45-79 | every state of every run meets the invariant of tables, loops, listings, registrations and passes under way |
| Invariant.LeaseOfWorkerIs | app/infrastructure/repositories/in_memory_lease_repository.py:66-75 | under the invariant the lease found for a worker is that of the job it carries, and there is no other |
| Invariant.Settle | app/application/services/job_execution_support.py:114-137 | letting a held job go (lease deleted, worker freed, node refilled, job moved on) keeps the invariant |
| Invariant.Grant | app/application/services/assign_worker_service.py:64-150 | granting a queued job to an idle worker of an eligible node keeps the invariant |
| Steps.CreateJobKeeps | app/application/services/create_job_service.py:44-73 | creating a job with an id of its own adds and answers one queued row and nothing else, a job without CPU or memory is refused, and the invariant is kept |
| Steps.CancelOutcome | app/application/services/cancel_job_service.py:44-61 | what a cancel request does and answers in each state: running turns cancelling, queued and scheduled turn cancelled, cancelling stays, anything else is refused; no other row is touched |
| Steps.CancelJobKeeps | app/application/services/cancel_job_service.py:44-61 | cancelling keeps the invariant and changes rows only as the domain allows |
| Steps.RetryJobKeeps | app/application/services/retry_job_service.py:37-57 | a retry requeues exactly a failed job with a retry left, clears its times, exit code and request, uses one retry and answers the row as it is then; it changes no other row and keeps the invariant |
| Steps.StartJobStarts | app/application/services/start_job_service.py:59-97 | a start changes nothing, or starts exactly the job its worker holds under a lease |
| Answers.StartAnswers | app/application/services/start_job_service.py:44-97 | a start is accepted exactly from the worker that holds the job's lease while the job is scheduled, and stamps it running; a refusal says why |
| Steps.WorkerHeartbeatKeeps | app/application/services/worker_heartbeat_service.py:40-54 | a heartbeat records the time and wakes an offline worker only when that carries no job; it changes no other row and keeps the invariant |
| Steps.HeartbeatLasts | app/application/services/heartbeat_node_service.py:23-49 | a heartbeat makes a node or worker count as alive for exactly the next minute, and leaves a worker offline exactly when it carries a job |
| Answers.NodeAnswers | app/application/services/heartbeat_node_service.py:23-49 | registration, heartbeat and drain of a node: the row they leave, field by field, and no other change |
| Steps.MarkDeadKeeps | app/application/services/mark_dead_workers_service.py:27-35 | marking turns exactly a dead worker offline, which keeps its job; no lease and no other row changes, and the invariant is kept |
| Steps.RenewExtends | app/application/services/renew_lease_service.py:78-93 | a renewal is accepted exactly from the worker that holds the lease of that id, and then the lease is live for exactly the duration |
| Steps.RenewLeaseKeeps | app/application/services/renew_lease_service.py:78-93 | a renewal keeps the invariant and changes rows only as the domain allows |
| Steps.ReleaseIsExact | app/domain/entities/node.py:185-206 | releasing a held job's resources gives back the full capacity: the clamp never takes effect |
| Steps.FinishSettles | app/application/services/report_job_outcome_service.py:100-158 | finishing with current copies settles the job: lease gone, worker idle, node full, job saved with a concurrently recorded cancellation request kept |
| Steps.ReportSettles | app/application/services/report_job_outcome_service.py:69-280 | a report changes nothing, or settles exactly the job of the lease it names with the reported outcome |
| Steps.ReportRecords | app/application/services/report_job_outcome_service.py:100-280 | an accepted report records its outcome, exit code and time under the lease it names, frees that worker and refills its node, and touches no other row |
| Answers.ReportAnswers | app/application/services/report_job_outcome_service.py:69-280 | a report is accepted exactly from the worker that holds the job, under the id of its lease, when the pair of state and end is one of the seven allowed, and then records it; a refusal says why |
| Answers.ReleaseAnswers | app/application/services/release_lease_service.py:80-142 | a release is accepted exactly from the worker that holds the lease of that id, and takes that lease and nothing else |
| Steps.ReportKeeps | app/application/services/report_job_outcome_service.py:168-280 | a report keeps the invariant |
| Steps.ReclaimJobSettles | app/application/services/job_execution_support.py:39-137 | reclaim_job on current copies settles the job, with the lease deleted before or by it |
| Steps.ReclaimKeeps | app/domain/entities/job.py:388-455 | taking a job back keeps the invariant: a cancelling job ends cancelled, another is queued at the price of a retry or fails |
| Answers.ReclaimAnswers | app/domain/entities/job.py:388-455 | taking an active job back always succeeds: cancelling ends cancelled, a job with a retry left is queued with its fields cleared and one retry used, any other fails now |
| Steps.CreateAgainSettles | app/application/services/create_worker_service.py:67-92 | creating on a node that has a worker keeps that worker's id and frees it; a job it held is taken back with whatever the caller's copy of the node says |
| Answers.CreateAnswers | app/application/services/create_worker_service.py:94-106 | a node without a worker gets an idle one of its tenant under the new id |
| Answers.ReadyAnswers | app/application/services/register_worker_service.py:24-46 | the second save writes the copy back as idle and answers it |
| Steps.CreateIsLegalIff | app/application/services/create_worker_service.py:42-106 | on a copy of the node of any age, creating is a legal step if and only if the copy, with the resources of the job it takes back, reaches the capacity and forgets no drain |
| Steps.CopyServesIff | app/application/services/job_execution_support.py:114-137 | a copy read while some resources were missing serves if and only if the job taken back asked for at least those, in each dimension, and no drain came in between |
| Steps.ReadyIsLegalIff | app/application/services/register_worker_service.py:24-46 | saving the created worker once more as ready is a legal step if and only if it was given no job in between |
| Steps.RecoverLeaseSettles | app/application/reconciliation/recover_expired_lease_service.py:94-208 | recovering a lease whose listing names the right worker changes nothing while it is live and settles its job once it is expired |
| Steps.StaleSnapshotBreaksOwnership | app/application/reconciliation/recover_expired_lease_service.py:94-175 | recovering an expired lease keeps the invariant if and only if the listing names the lease's present worker |
| Steps.RecoverWorkerSettles | app/application/reconciliation/recover_offline_node_service.py:94-161 | an unchanged listed worker on an offline node is left alone while its lease is live, and settled once it is expired |
| Steps.ScheduleOneGrants | app/application/services/scheduler_loop_service.py:60-122 | a refused placement leaves every table as it was; a granted one is a grant to the first idle worker of the selected node; the "already has an active lease" error is unreachable |
| Steps.GrantedIff | app/application/services/scheduler_loop_service.py:60-122 | a job is granted exactly when it is queued, some listed node is eligible and the selected one has a listed idle worker |
| Steps.NodesOfAre | app/infrastructure/repositories/in_memory_node_repository.py:101-109 | a listed node is considered exactly when it has a row, in listing order |
| Steps.PlaceGrants | app/application/services/assign_worker_service.py:64-154 | allocate, assign and undo add up to a grant when the node has an idle worker and to nothing when it has none |
| Answers.AcquireAnswers | app/application/services/acquire_lease_service.py:28-74 | a lease is acquired exactly for a job of the worker's tenant that has none, for thirty seconds under the new id |
| Answers.AssignAnswers | app/application/services/assign_worker_service.py:51-154 | the first idle worker on the job's node gets the job and its lease; without one, or with one of another tenant, there is no available node; a leased job is refused |
| Steps.ScheduleOneKeeps | app/application/services/scheduler_loop_service.py:60-122 | scheduling a job keeps the invariant |
| Runs.BeginKeeps | app/application/workers/worker_execution_loop.py:106-177 | beginning an execution keeps the invariant and captures copies that match its lease |
| Answers.BeginAnswers | app/application/workers/worker_execution_loop.py:106-177 | a loop begins exactly when its worker carries a scheduled or running job, starts a scheduled one, and captures worker, job and lease |
| Answers.BegunLoopRuns | app/application/workers/worker_execution_loop.py:106-177 | in a run, a loop that begins is under way from then on with the row, the job and the lease of that moment |
| Runs.FinishExecutionSettles | app/application/workers/worker_execution_loop.py:251-373 | a loop's finish changes nothing, or settles its job under its own lease with the outcome it saw and a cancellation request it did not see |
| Runs.FinishExecutionRecords | app/application/workers/worker_execution_loop.py:251-373 | a loop that finishes records its outcome, exit code and time under its own lease, keeps the time of a cancellation request it never saw, and writes the time at which it saw one it did |
| Answers.FinishAnswers | app/application/workers/worker_execution_loop.py:251-373 | a loop's finish is accepted exactly when it was not marked lost, still holds its lease and its own copy allows the end |
| Answers.ObserveSees | app/application/workers/worker_execution_loop.py:208-233 | under its lease, a loop that looks sees a cancellation exactly when the row is cancelling and its copy running, and then takes it over with the time of the look |
| Answers.RenewLosesIff | app/application/workers/worker_execution_loop.py:182-207 | a renewal marks a loop lost exactly when its worker has a lease under another id |
| Runs.FinishExecutionKeeps | app/application/workers/worker_execution_loop.py:251-373 | a loop's finish keeps the invariant however stale its copies are |
| Runs.RecoverListedKeeps | app/application/reconciliation/recover_expired_lease_service.py:94-208 | within a lease duration of the listing, or with only renewals since, recovering a listed lease keeps the invariant |
| Runs.ListedTurnIsLegalIff | app/application/reconciliation/recover_expired_lease_service.py:94-208 | for every lease a pass ever listed, recovering it is a legal step if and only if runs allow it there: within a lease duration of the listing, or while the job is not under another worker's expired lease |
| Runs.SweptTurnIsLegalIff | app/application/reconciliation/recover_offline_node_service.py:80-161 | for every worker an offline-node pass ever listed, its turn is a legal step if and only if runs allow it there |
| Answers.SweepAnswers | app/application/reconciliation/recover_offline_node_service.py:80-93 | the pass lists exactly the workers, as they are, of the nodes whose last heartbeat is more than a minute old |
| Runs.PostIsLegalIff | app/presentation/routers/workers.py:178-203 | what a registration under way would save next is a legal step if and only if runs allow it there |
| Runs.StepKeeps | app/application/services/cluster_tick_service.py:45-79 | every action of every actor keeps tables, loops, listings, registrations and passes consistent and changes rows only as the domain allows |
| Tenancy.CallsAreIsolated | app/application/services/report_job_outcome_service.py:69-98 | a tenant's call answers, and leaves the tenant's rows, as on those rows alone, and leaves every other tenant's rows as they were |
| Tenancy.TenantsDoNotInterfere | app/infrastructure/repositories/in_memory_lease_repository.py:36-92 | two clusters that agree on a tenant answer its cancel, retry, start, renew, report, heartbeat, drain and registration calls alike and still agree afterwards |
| Tenancy.RestrictInv | app/infrastructure/repositories/in_memory_job_repository.py:28-61 | one tenant's rows alone meet the invariant |
| Tick.QueueIsStable | app/application/services/scheduler_loop_service.py:50-58 | the queue holds exactly the listed queued jobs, each once, highest priority first and in listing order among equals |
| Tick.LeftQueuedIff | app/application/services/scheduler_loop_service.py:48-122 | after a tick a listed queued job is still queued exactly when, at its turn, no listed node was eligible or the selected one had no listed idle worker; otherwise it is scheduled on the selected node |
| Tick.RefusedJobLeavesNoTrace | app/application/services/scheduler_loop_service.py:91-122 | dropping a job that is not placed from the queue leaves the final tables unchanged |
| Tick.TickIsPerTenant | app/application/services/scheduler_loop_service.py:48-122 | the tick over all tenants, restricted to one, is the tick on that tenant's rows alone |
| Tick.TurnKeeps | app/application/services/scheduler_loop_service.py:60-122 | a turn keeps the invariant and the freshness of the ids of the turns after it |
| Reconciliation.ExpiredPassRecovers | app/application/reconciliation/recover_expired_lease_service.py:94-208 | a pass over any listing, in any order, recovers the jobs whose listed lease is expired, each once, and touches nothing else |
| Reconciliation.ExpiredPassIsIdempotent | app/application/reconciliation/recover_expired_lease_service.py:94-208 | after a full pass no lease is expired, and another pass changes nothing |
| Reconciliation.ListingStaysCurrent | app/application/reconciliation/recover_offline_node_service.py:80-161 | with any renewals between its turns, every turn of the offline-node pass finds the rows it listed unchanged and the invariant kept |
| Reconciliation.EveryTurnIsLegal | app/application/reconciliation/recover_offline_node_service.py:80-161 | so with only renewals in between every turn of the pass is a legal step |
| Reconciliation.OfflinePassRecovers | app/application/reconciliation/recover_offline_node_service.py:80-161 | the pass on its own recovers exactly the jobs that listed workers hold on offline nodes under an expired lease |
| StaleListings.OfflineTurnIsLegalIff | app/application/reconciliation/recover_offline_node_service.py:94-161 | in every run, for every listed worker and however long ago it was listed, a turn is a legal step if and only if the worker had no job, or the job's lease is live, or it is expired and the job is as listed or was at most started since, or it is gone, the worker is free and the job already went the same way; and, where the turn writes, no drain came in between |
| StaleListings.OfflineTurnSparesIff | app/application/reconciliation/recover_offline_node_service.py:94-161 | in every run such a turn leaves a live lease and its rows alone if and only if it writes nothing or the listed worker does not hold that lease |
| StaleListings.OnlyIllegalStepsAreLeftOut | app/application/reconciliation/reconciliation_loop.py:35-58 | at every point of every run, a turn on any listed lease or worker and the next save of any registration are legal steps if and only if the run may take them there |
| ListedWorkers.ViewOkStays | app/application/reconciliation/recover_offline_node_service.py:80-93 | whatever a step does, a listed job keeps its identity, a later lease has cost it a retry, and without one it is under the listed lease and at most started or cancelled |
| ListedWorkers.TurnIsLegalIffOnlyStarted | app/application/reconciliation/recover_offline_node_service.py:94-161 | with the job under an expired lease, the turn is legal if and only if the job is as listed, active or cancelled, or was only started since and has a retry left, and no drain came in between |
| ListedWorkers.TurnIsLegalIffAlreadyRecovered | app/application/reconciliation/recover_offline_node_service.py:137-161 | with no lease left, writing the listed copies back is legal if and only if the worker is free, the node was not drained since, and the job was listed cancelled, or, if it had a retry, is queued with exactly that retry used, or else ended at this very instant, cancelled or failed as listed, without an exit code and with its start and request; so never after a completion |
| ListedWorkers.TurnOnLaterLeaseIsIllegal | app/application/reconciliation/recover_offline_node_service.py:104-161 | acting on an expired later lease of the listed job, for which it used a retry, always breaks the invariant or the history |
| StaleListings.ListingOnlyAges | app/application/reconciliation/recover_offline_node_service.py:80-161 | in every run, while the listed lease stays in the table, the listed worker holds it and the listed job is as listed or was only started or cancelled |
| ListedWorkers.SameWayIffSameRow | app/domain/entities/job.py:388-455 | under the invariant those conditions on status, retries and times hold if and only if the whole row is what reclaiming the listed job gives |
| StaleListings.WithoutRetriesEveryTurnIsReached | app/application/services/create_job_service.py:44-73 | in a run in which every job is created without retries, a pass may act on every lease it ever listed at any later time |
| Reconciliation.CycleRecovers | app/application/reconciliation/reconciliation_loop.py:35-58 | a cycle on its own marks the dead workers and recovers exactly the expired leases; its last pass finds nothing left |
| Reconciliation.DeadWorkerReadsOffline | app/application/reconciliation/reconciliation_loop.py:35-58 | a dead worker ends the cycle offline if and only if it held no expired lease, and idle otherwise |
| Reconciliation.MarkAllSweeps | app/application/services/mark_dead_workers_service.py:20-35 | the sweep turns exactly the listed dead workers offline |
| Removal.RemovalIsSafeIffIdle | app/application/services/remove_offline_node_service.py:28-58 | removing an offline node keeps the invariant if and only if no job is active on it |
| Removal.RemovalAnswers | app/application/services/remove_offline_node_service.py:28-58 | a node of the tenant is removed exactly when its last heartbeat is more than a minute old; its worker and that worker's lease go, jobs lose the link, nothing else changes |
| Removal.RemovalStrands | app/infrastructure/repositories/schema.sql:35-92 | a job active on a removed node is left active with no lease and no worker |
| Witnesses.ReadyCanLoseAJob | app/application/services/register_worker_service.py:24-46 | a run in which the second save of a registration makes a worker forget the job granted to it in between, and ownership and the books fail |
| Witnesses.CreateCanLoseResources | app/application/services/create_worker_service.py:67-92 | a run in which a node read under a larger job is saved with too little given back for a smaller one |
| Witnesses.ListedLeaseCanOutliveItsWorker | app/application/reconciliation/recover_expired_lease_service.py:94-175 | a run with one retry in which a pass would recover another worker's expired lease under the old listing and break the invariant |
| Witnesses.StaleTurnCanUndoCompletion | app/application/reconciliation/recover_offline_node_service.py:94-161 | a run in which a worker is listed, its job completes, and the turn on the listed rows makes the completed job failed |
| Witnesses.StaleTurnCanLoseAJob | app/application/reconciliation/recover_offline_node_service.py:94-161 | a run without retries in which a worker is listed with a cancelled job, is freed and given another, and the turn on the listed rows makes it forget that job under its live lease |
| Witnesses.RemovalCanStrand | app/application/services/remove_offline_node_service.py:28-58 | a run in which the offline node of a scheduled job is removed and the invariant fails |
| Utilization.UtilizationIsWhatJobsHold | app/application/services/cluster_utilization_service.py:40-55 | what a tenant's nodes are missing is, in each dimension, the sum of what its leased jobs asked for |
| Scheduling.FindBest | app/domain/services/scheduler.py:87-134 | the scan finds the selected index |
| Scheduling.SelectsEarliestBest | app/domain/services/scheduler.py:108-134 | an index is selected if and only if it is the earliest eligible node of minimal score, and none is selected if and only if none is eligible |
| Scheduling.SelectsTightest | app/domain/services/scheduler.py:46-134 | the same in whole numbers: the selected node is the earliest eligible one whose sum over requested dimensions of free-after-placement over capacity is least |
| Scheduling.LooserIsNotSelected | app/domain/services/scheduler.py:68-85 | a node is not selected while an eligible one is listed that is no looser, in proportion to capacity, in any requested dimension and tighter in one |
| Scheduling.ExactFitWins | app/domain/services/scheduler.py:68-85 | a node the job fills exactly is preferred to any looser one |
| Scheduling.SelectedCanRun | app/domain/services/scheduler.py:108-134 | a selected node has the job's tenant, a heartbeat within a minute, no drain, every label asked for and room in every dimension, and one is selected if any listed node does |
| Scheduling.EligibleScore | app/domain/services/scheduler.py:46-85 | an eligible node is scored without dividing by zero, in [0, 3) |
| Scheduling.VramIsIgnored | app/domain/services/scheduler.py:46-85 | for a job that requests no VRAM, the nodes' VRAM figures do not change the choice |
| Scheduling.SelectIgnoresIneligible | app/domain/services/scheduler.py:108-134 | leaving out nodes the job cannot use does not change the choice |
| Services.ControlPlane.DeleteIfExpired | app/infrastructure/repositories/in_memory_lease_repository.py:94-110 | deletes the named lease if and only if it is expired at this instant, and says so |
| Services.ControlPlane.FindLease | app/infrastructure/repositories/in_memory_lease_repository.py:66-75 | the scan finds the worker's lease |
| Services.ControlPlane.FindWorker | app/infrastructure/repositories/in_memory_worker_repository.py:73-86 | the scan finds the node's worker |
| Services.ControlPlane.Cancel | app/application/services/cancel_job_service.py:31-61 | is the cancel step and keeps the invariant |
| Services.ControlPlane.Retry | app/application/services/retry_job_service.py:24-57 | is the retry step and keeps the invariant |
| Services.ControlPlane.Renew | app/application/services/renew_lease_service.py:50-93 | is the renewal step and keeps the invariant |
| Services.ControlPlane.Release | app/application/services/release_lease_service.py:80-142 | is the release step; a refusal changes nothing |
| Services.ControlPlane.Acquire | app/application/services/acquire_lease_service.py:28-74 | is the acquisition step, with its tenant check and one lease per job |
| Services.ControlPlane.Assign | app/application/services/assign_worker_service.py:51-154 | the scan is the assignment step: lease first, then the worker |
| Services.ControlPlane.TakeTurn | app/application/services/scheduler_loop_service.py:60-122 | a turn on the tick's own node list, updated in place, is the turn that reads the table, and leaves the list equal to a fresh read |
| Services.ControlPlane.RunTick | app/application/services/scheduler_loop_service.py:42-122 | the loop with its node list read once is the tick, and keeps the invariant |
| Services.LocalUpdate | app/application/services/scheduler_loop_service.py:69-85 | updating one entry of the list keeps it equal to a fresh read |
| Services.SelectFromLocal | app/infrastructure/repositories/in_memory_node_repository.py:101-109 | listing only live, undrained nodes beforehand does not change the choice |
| Services.ControlPlane.ConfirmStart | app/application/services/start_job_service.py:44-97 | is the start step and keeps the invariant |
| Services.ControlPlane.FinishWith | app/application/services/report_job_outcome_service.py:100-158 | the ordered release and saves are the finish step |
| Services.ControlPlane.Report | app/application/services/report_job_outcome_service.py:69-280 | is the report step for each outcome and keeps the invariant |
| Services.ControlPlane.BeginRun | app/application/workers/worker_execution_loop.py:106-177 | is the begin step and leaves copies that match the lease |
| Services.ControlPlane.RenewRun | app/application/workers/worker_execution_loop.py:182-233 | one round of the renewal thread: lost exactly when the worker has a lease under another id; under its own lease a running copy of a cancelling job turns cancelling now; otherwise unchanged |
| Services.ControlPlane.FinishRun | app/application/workers/worker_execution_loop.py:251-373 | is the finish step and keeps the invariant |
| Services.ControlPlane.Heartbeat | app/application/services/worker_heartbeat_service.py:25-54 | is the heartbeat step and keeps the invariant |
| Services.ControlPlane.Reclaim | app/application/services/job_execution_support.py:39-137 | is reclaim_job in its fixed order, and succeeds exactly for an active job |
| Services.ControlPlane.CreateOn | app/application/services/create_worker_service.py:42-106 | is the creation step on the caller's copy of the node, legal if and only if the copy still serves |
| Services.ControlPlane.MakeReady | app/application/services/register_worker_service.py:24-46 | is the second save, legal if and only if the worker was given no job in between |
| Services.ControlPlane.MarkDeadWorkers | app/application/services/mark_dead_workers_service.py:20-35 | the loop turns exactly the dead workers offline |
| Services.ControlPlane.RecoverExpired | app/application/reconciliation/recover_expired_lease_service.py:50-208 | the loop recovers exactly the jobs whose lease is expired |
| Services.ControlPlane.RecoverOfflineNodes | app/application/reconciliation/recover_offline_node_service.py:74-161 | the loop recovers exactly the jobs held on offline nodes under an expired lease |
| Services.ControlPlane.Reconcile | app/application/reconciliation/reconciliation_loop.py:35-58 | the cycle marks the dead workers and recovers exactly the expired leases |
| Services.ControlPlane.Utilized | app/application/services/cluster_utilization_service.py:24-55 | the loop's three sums are what the tenant's leased jobs asked for |
| Client.BreakerFollowsStreak | integrations/resilient_client/resilient_api_client.py:146-206 | over any run of requests the circuit is closed exactly while fewer than threshold requests failed since the last success, and a request is turned away exactly while the streak is that long and its latest failure younger than the reset timeout |
| Client.OpensOnThreshold | integrations/resilient_client/resilient_api_client.py:191-206 | a closed circuit opens exactly on the threshold-th failure in a row, and a failed trial restarts the timeout |
| Client.OverlappingFollowsReports | integrations/resilient_client/resilient_api_client.py:146-206 | however requests overlap, the circuit is closed exactly while fewer than threshold failures were reported since the last success, and a request is turned away exactly while that many were and the latest is younger than the reset timeout |
| Client.HalfOpenAdmitsAll | integrations/resilient_client/resilient_api_client.py:169-183 | a half-open circuit turns no request away and stays half-open until one of them reports |
| Client.CircuitBreaker.OnFailure | integrations/resilient_client/resilient_api_client.py:191-206 | is the failure step on the breaker's fields |
| Client.CircuitBreaker.Look | integrations/resilient_client/resilient_api_client.py:169-183 | reading the state turns an open circuit half-open once its timeout has passed |
| Client.Request | integrations/resilient_client/resilient_api_client.py:482-581 | no attempt is made exactly when the circuit rejects; a success is reached through any replies that may be retried, and an attempt is the last only on a final answer, on one whose replay could repeat an effect, or when attempts run out; the answer names the last reply; the breaker hears at most one report; a request that is not replay-safe is acted on at most once, and never when its error claims to know that |
| Client.OneAnswer | integrations/resilient_client/resilient_api_client.py:535-574 | the last reply determines the answer: no two kinds of error name the same reply |
| Client.EffectAtMostOnce | integrations/resilient_client/resilient_api_client.py:497-574 | a request with an idempotency key, or one that is not replay-safe, takes effect at most once over all its attempts |
| Client.PaymentServer.ApplyPayment | integrations/resilient_client/mock_partner_server.py:83-95 | a repeated key is answered with its payment and applies nothing |
| Client.OnePaymentPerKey | integrations/resilient_client/mock_partner_server.py:83-95 | after any calls one payment was applied per distinct key and one per call without a key |
| Client.KeysKeepTheirPayment | integrations/resilient_client/mock_partner_server.py:83-95 | a key keeps its payment id forever and shares it with no other key |
| RateLimiter.WindowBound | app/application/services/rate_limiter_service.py:73-111 | in any window a key is admitted at most capacity + rate * length times, even if checks take the lock in another order than they read the clock |
| RateLimiter.BurstIsCapacity | app/application/services/rate_limiter_service.py:83-111 | a new key, or one idle for a full refill, is admitted capacity times at one instant and then refused |
| RateLimiter.PacedIsAdmitted | app/application/services/rate_limiter_service.py:73-111 | a key that asks no faster than the rate is never refused |
| RateLimiter.RefillTwice | app/application/services/rate_limiter_service.py:93-99 | refilling in steps is refilling once |
| RateLimiter.RefusedLeavesNoTrace | app/application/services/rate_limiter_service.py:93-111 | a refused check changes no later answer and no later bucket |
| RateLimiter.AdmittedWithoutRefused | app/application/services/rate_limiter_service.py:73-111 | had the refused checks never been made, every admitted one would still be admitted |
| RateLimiter.HintIsExact | app/application/services/rate_limiter_service.py:101-109 | with nothing admitted in between, a later check is admitted if and only if the hinted delay has passed |
| RateLimiter.KeysAreIndependent | app/application/services/rate_limiter_service.py:83-99 | a key's bucket depends on that key's own checks only |
| RateLimiter.Limiter.CheckKey | app/application/services/rate_limiter_service.py:73-111 | is one check on the bucket dictionary |
| Migrations.CheckVersions | app/infrastructure/migrations/runner.py:100-107 | accepts exactly the versions 1, 2, 3, ... and names the first one missing |
| Migrations.PlanMigrations | app/infrastructure/migrations/runner.py:125-173 | the loops compute the plan for any recorded rows and any set |
| Migrations.PlanByPosition | app/infrastructure/migrations/runner.py:125-173 | for a loaded set, a history is refused exactly for a hole, for an empty set or for a changed file; otherwise the rest of the set is pending and the rest of the history ahead, never both |
| Migrations.HistoryStaysExact | app/infrastructure/migrations/runner.py:273-312 | after any serialized runs of any builds, each stopped anywhere, the history is 1..K with the right names and checksums, SQL took effect in version order, and each recorded transactional migration exactly once |
| Migrations.RunStopsThere | app/infrastructure/migrations/runner.py:273-312 | a run applies the versions after the recorded ones up to the first that does not end well and none after it; what that one leaves depends only on where it stopped and on its transaction |
| Migrations.PlanIsExact | app/infrastructure/migrations/runner.py:125-173 | against such a history a build always gets a plan, with exactly its own rest pending |
| Migrations.CleanRunConverges | app/infrastructure/migrations/runner.py:273-296 | a run without failures leaves nothing pending, and another run changes nothing |
| Migrations.StartsIffReached | app/infrastructure/migrations/startup_check.py:58-65 | a build starts if and only if the bookkeeping table exists and the history reaches it, and is told the versions ahead of it |
| Migrations.Runner.ApplyMigrations | app/infrastructure/migrations/runner.py:273-312 | is one run, and returns the consecutive versions it applied |
| AgentLease.TrustIsBounded | scripts/run_agent.py:431-480 | with attempts of at most 15 seconds, a thread that still trusts its lease tries again within the window, and one that gave up did so within one attempt of its end |
| AgentLease.EveryRoundIsInTime | scripts/run_agent.py:431-480 | for every jitter draw and Retry-After, each round ends within the window and one attempt, and continues without a confirmation only inside the window |
| AgentLease.RoundOutcome | scripts/run_agent.py:431-480 | an attempt loses the lease exactly on a refusal, an error that is not transient, or any error 25 seconds after the last confirmation; a confirmation counts from the attempt; after a transient error the wait is at least the draw and the Retry-After, no longer than needed and never past the window |
| AgentLease.CeilingDoubles | scripts/run_agent.py:166-183 | the ceiling of the jitter doubles from one second up to thirty |
| AgentLease.BoundNeedsFastAttempts | scripts/run_agent.py:96-104 | the bound holds for attempts of at most d seconds if and only if d is at most 15 |
| AgentLease.GivesUpBeforeExpiry | scripts/run_agent.py:96-104 | if the age the lease had at the last confirmation and one attempt fit into 5 seconds, the agent gives up no later than the server's expiry; after a confirmed renewal the age is 0 |
| AgentLease.GivesUpInTimeIff | scripts/run_agent.py:96-104 | for attempts of any length and renewals made at any moment of a confirmed attempt, the agent gives up no later than the server's expiry in every run, or in every run without a confirmation, if and only if the age of the lease at the start and one attempt fit into 5 seconds |
| AgentLease.FirstWindowCanOverrun | scripts/run_agent.py:96-104 | before the first confirmation a lease one poll interval old can be outlasted by any attempt that takes time |
| AgentLease.KeepLeaseAlive | scripts/run_agent.py:431-480 | the loop and its variables give up exactly when the model does |
| Leadership.OneLeader | app/infrastructure/postgres_scheduler_leadership.py:73-133 | over any interleaving of calls, lost answers, session ends and process deaths, at most one process stores a live session and that session owns the lock; the lock's owner is live, and stored, just opened or being closed |
| Leadership.AnswersAreRight | app/infrastructure/postgres_scheduler_leadership.py:73-133 | a process told True leads alone at that moment; one told False stores nothing and has closed what it opened |
| Leadership.TryAcquireIsARun | app/infrastructure/postgres_scheduler_leadership.py:73-133 | in every run in which a process makes the calls of one try_acquire, whatever the others do in between, the object's field is the process's field in the machine; True means it leads alone at that moment, False that the session it opened is closing |
| Leadership.ReleaseIsARun | app/infrastructure/postgres_scheduler_leadership.py:86-103 | likewise for release: nothing is stored afterwards, the session is closing, and an answered unlock frees the lock its session owned at once |
| Leadership.PostgresLeadership.TryAcquire | app/infrastructure/postgres_scheduler_leadership.py:73-133 | stores the pinged connection, or a new one that got the lock, or none; answers whether it stores one, and closes every session but that |
| Leadership.PostgresLeadership.Release | app/infrastructure/postgres_scheduler_leadership.py:86-103 | unlocks if the database answers, closes the stored session and stores none |
| ReadmeBlocks.ReadMarker | scripts/readme_blocks.py:56-78 | the token loop parses a marker |
| ReadmeBlocks.ParseBlocks | scripts/readme_blocks.py:94-145 | the line loop parses the blocks |
| ReadmeBlocks.PrintThenParse | scripts/readme_blocks.py:56-145 | printing any valid blocks into any prose and parsing the result gives the same blocks |
| ReadmeBlocks.MarkersMatchFences | scripts/readme_blocks.py:94-145 | in an accepted text every bash fence opened outside a fence has a marker directly above, every marker outside a fence has a bash fence directly below, every fence is closed, and there is one block per such fence |
| ReadmeBlocks.RunOrderCountsUp | scripts/readme_blocks.py:81-91 | the run order of an accepted text holds its run blocks, each once, as steps 1 to N |
| ReadmeBlocks.ValidIff | scripts/readme_blocks.py:81-91 | blocks are valid exactly when their names differ, at least three are run, and the run ones have the steps 1 to their number, each |
| ReadmeBlocks.AcceptedMarkerPrints | scripts/readme_blocks.py:56-78 | an accepted marker can be printed and reads back as itself; its words are skip and keyed values, no key twice, with a reason and no step if it is skipped and a step and no reason otherwise |
| ReadmeText.DecimalRoundTrip | scripts/readme_blocks.py:76-78 | a printed step number reads back as itself |
| ReadmeText.StripIs | scripts/readme_blocks.py:105-128 | stripping takes off the white space around a text and nothing else |
| ReadmeText.MarkerBodyIs | scripts/readme_blocks.py:38-38 | a line is a marker exactly when, stripped, it is the prefix, a body and the suffix |
| ReadmeText.BashIs | scripts/readme_blocks.py:39-39 | a bash fence may be followed by white space and by nothing else |

## Left out

- Aliasing: the in-memory backend hands out the stored objects themselves, so a refused call can leave a changed one behind; jobs, workers, nodes and leases are values here, not objects.
- Interleavings inside one service call, and crashes between two of its writes: a call is atomic, and the code has no transaction there.
- Turns on listings and saves of registrations that are not sound are left out of runs; what they do is stated at every point of every run, not fed back into the run.
- Node removal in whole runs: it is a single step with its exact safety condition, since the services otherwise never delete a row.
- Reconciliation.DeadWorkerReadsOffline: says nothing about a cycle in which other calls interleave.
- Client.Request: waiting between attempts, Retry-After parsing and OAuth2 tokens do not affect which attempts are made and are not modelled; replay safety of the method is an argument, and a server is assumed to decline a 429 before acting on it.
- Migrations.HistoryStaysExact: SQL is a version in a log, so what a migration that stops halfway outside a transaction leaves behind is not described; taking the migration lock is the serialization of runs.
- Leadership.PostgresLeadership.TryAcquire: the answers of the database are arguments; `TryAcquireIsARun` ties them to the events of a run.
- AgentLease.KeepLeaseAlive: stopping the thread when the job ends, and cancellation pick-up; a wait lasts exactly as long as it is told to.
- ReadmeBlocks.PrintThenParse: a body is its lines, so the final newline and the joining of lines are not modelled; text is ASCII and already split into lines.
- Saving a row under an id of another tenant, which the in-memory repositories refuse: no step of the model does it.
- Release without an event recorder, which skips the look-up of the job.
- Floating-point rounding: scores, tokens and delays are reals.
- Event log, HTTP routers, schemas, authentication and API keys, logging, configuration checks: input plumbing without invariants of their own.
- Running the job's process: an execution is an arbitrary outcome and exit code.
- SQL, the Postgres and SQLite repositories and the frontend.
