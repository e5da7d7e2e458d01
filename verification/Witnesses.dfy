/** Runs that reach the states in which a promise fails. */
module Witnesses {
  import opened Options
  import opened Domain
  import opened Scheduling
  import opened ClusterModel
  import opened Invariant
  import opened Steps
  import opened ListedWorkers
  import opened Runs
  import opened Guarantees
  import Removal

  //
  // Building runs
  //

  ghost function End(r: Run): System
    requires IsRun(r)
  {
    r.states[|r.states| - 1]
  }

  function FirstRun(): Run {
    Run([Start(0)], [], [])
  }

  function JobOf(id: JobId, resources: Resources, maxRetries: int): Job {
    Job(id, 1, resources, 0, map[], maxRetries, 0, Queued, None, None, None, None, None)
  }

  lemma Then(r: Run, a: Action, now: Time) returns (r': Run)
    requires IsRun(r) && Enabled(End(r), a, now)
    ensures IsRun(r') && End(r') == Next(End(r), a, now) && r.states <= r'.states
  {
    var n := |r.actions|;
    r' := Run(r.states + [Next(End(r), a, now)], r.actions + [a], r.times + [now]);
    forall i | 0 <= i < |r'.actions| ensures StepsTo(r', i) {
      if i < n {
        assert StepsTo(r, i);
        assert r'.states[i] == r.states[i] && r'.states[i + 1] == r.states[i + 1];
        assert r'.actions[i] == r.actions[i] && r'.times[i] == r.times[i];
      } else {
        assert r'.states[i] == End(r) && r'.actions[i] == a && r'.times[i] == now;
      }
    }
  }

  /** A node joins. */
  lemma Joining(r: Run, n: NodeId, capacity: Resources, now: Time) returns (r': Run)
    requires IsRun(r) && End(r).clock <= now && n !in End(r).c.nodes
    ensures IsRun(r')
    ensures End(r') == End(r).(c := SaveNode(End(r).c, NewNode(n, 1, capacity, map[], now)), clock := now)
  {
    r' := Then(r, AddNode(n, 1, capacity, map[]), now);
  }

  /** A job is submitted. */
  lemma Submitting(r: Run, id: JobId, resources: Resources, maxRetries: int, now: Time) returns (r': Run)
    requires IsRun(r) && End(r).clock <= now && id !in End(r).c.jobs && resources.cpu > 0 && resources.memory > 0
    ensures IsRun(r')
    ensures End(r') == End(r).(c := SaveJob(End(r).c, JobOf(id, resources, maxRetries)), clock := now)
  {
    r' := Then(r, SubmitJob(id, 1, resources, 0, map[], maxRetries), now);
  }

  /** A registration reads its node. */
  lemma ReadingNode(r: Run, post: nat, n: NodeId, now: Time) returns (r': Run)
    requires IsRun(r) && End(r).clock <= now && post !in End(r).posts && n in End(r).c.nodes
    ensures IsRun(r')
    ensures End(r') == End(r).(clock := now, posts := End(r).posts[post := NodeRead(End(r).c.nodes[n])])
  {
    r' := Then(r, ReadNode(post, n, End(r).c.nodes[n].tenant), now);
  }

  /** A node sends a heartbeat. */
  lemma Beating(r: Run, n: NodeId, now: Time) returns (r': Run)
    requires IsRun(r) && End(r).clock <= now && n in End(r).c.nodes
    ensures IsRun(r')
    ensures End(r') == End(r).(c := SaveNode(End(r).c, End(r).c.nodes[n].Heartbeat(now)), clock := now)
  {
    r' := Then(r, NodeBeat(n, End(r).c.nodes[n].tenant), now);
  }

  /** A scheduled job is cancelled. */
  lemma Withdrawing(r: Run, j: JobId, now: Time) returns (r': Run)
    requires IsRun(r) && End(r).clock <= now && j in End(r).c.jobs && End(r).c.jobs[j].status == Scheduled
    ensures IsRun(r')
    ensures var s := End(r).c;
            End(r') == End(r).(c := s.(jobs := s.jobs[j := s.jobs[j].(status := Cancelled)]), clock := now)
  {
    Reachable(r, |r.states| - 1);
    CancelOutcome(End(r).c, j, End(r).c.jobs[j].tenant, now);
    r' := Then(r, RequestCancel(j, End(r).c.jobs[j].tenant), now);
  }

  lemma HeldStartStarts(s: Cluster, j: JobId, now: Time)
    requires Inv(s) && j in s.leases && j in s.jobs && s.jobs[j].status == Scheduled
    ensures StartJob(s, s.leases[j].worker, j, s.leases[j].tenant, now).state
            == s.(jobs := s.jobs[j := s.jobs[j].(status := Running, startedAt := Some(now))])
  {
    assert LeaseOk(s, j) && s.jobs[j].id == j && s.workers[s.leases[j].worker].id == s.leases[j].worker;
    assert s.workers[s.leases[j].worker := s.workers[s.leases[j].worker]] == s.workers;
  }

  /** The worker of a lease starts its job. */
  lemma Starting(r: Run, j: JobId, now: Time) returns (r': Run)
    requires IsRun(r) && End(r).clock <= now && j in End(r).c.leases
    requires j in End(r).c.jobs && End(r).c.jobs[j].status == Scheduled
    ensures IsRun(r')
    ensures var s := End(r).c;
            End(r') == End(r).(c := s.(jobs := s.jobs[j := s.jobs[j].(status := Running, startedAt := Some(now))]), clock := now)
  {
    Reachable(r, |r.states| - 1);
    HeldStartStarts(End(r).c, j, now);
    r' := Then(r, ConfirmStart(End(r).c.leases[j].worker, j, End(r).c.leases[j].tenant), now);
  }

  /** A pass lists the leases. */
  lemma Listing(r: Run, j: JobId, now: Time) returns (r': Run)
    requires IsRun(r) && End(r).clock <= now && j in End(r).c.leases
    ensures IsRun(r') && End(r') == End(r).(clock := now, listed := End(r').listed)
    ensures End(r).listed <= End(r').listed && Snapshot(End(r).c.leases[j], now) in End(r').listed
  {
    r' := Then(r, ListLeases, now);
  }

  lemma CreatesFirst(s: Cluster, node: Node, w: WorkerId, now: Time)
    requires forall v :: v in s.workers ==> s.workers[v].node != node.id
    ensures var made := NewWorker(w, node, Agent, now);
            CreateWorker(s, node, Agent, w, now) == Step(SaveWorker(s, made), AWorker(made))
    ensures MayGoOn(s, NodeRead(node))
  {
  }

  /** A worker is registered on a node that has none. */
  lemma Registering(r: Run, post: nat, n: NodeId, w: WorkerId, now: Time) returns (r': Run)
    requires IsRun(r) && End(r).clock <= now && post !in End(r).posts
    requires n in End(r).c.nodes && End(r).c.nodes[n].id == n && w !in End(r).c.workers
    requires forall v :: v in End(r).c.workers ==> End(r).c.workers[v].node != n
    ensures IsRun(r')
    ensures var made := NewWorker(w, End(r).c.nodes[n], Agent, now);
            End(r') == End(r).(c := SaveWorker(End(r).c, made), clock := now, posts := End(r).posts[post := WorkerMade(made)])
  {
    var node := End(r).c.nodes[n];
    CreatesFirst(End(r).c, node, w, now);
    r' := ReadingNode(r, post, n, now);
    r' := Then(r', MakeWorker(post, Agent, w), now);
  }

  lemma {:induction false} NodesOfListed(s: Cluster, order: seq<NodeId>)
    requires forall i :: 0 <= i < |order| ==> order[i] in s.nodes
    ensures |NodesOf(s, order)| == |order| && forall i :: 0 <= i < |order| ==> NodesOf(s, order)[i] == s.nodes[order[i]]
  {
    if order != [] {
      NodesOfListed(s, order[..|order| - 1]);
    }
  }

  lemma ListedAreSound(s: Cluster, order: seq<NodeId>)
    requires NodesSound(s) && forall i :: 0 <= i < |order| ==> order[i] in s.nodes
    ensures AllSound(NodesOf(s, order))
  {
    NodesOfListed(s, order);
    forall i | 0 <= i < |order| ensures Sound(NodesOf(s, order)[i]) {
      var n := order[i];
      assert n in s.nodes && Sound(s.nodes[n]);
    }
  }

  lemma ScheduleGrants(s: Cluster, j: JobId, order: seq<NodeId>, k: nat, workers: seq<WorkerId>, w: WorkerId,
                       lid: LeaseId, now: Time)
    requires Inv(s) && lid !in s.issued && j in s.jobs && s.jobs[j].status == Queued
    requires k < |order| && forall i :: 0 <= i < |order| ==>
               order[i] in s.nodes && (Eligible(s.jobs[j], s.nodes[order[i]], now) <==> i == k)
    requires FirstIdle(s, workers, order[k]) == Some(w)
    ensures NodesSound(s) && s.jobs[j].resources.Within(s.nodes[order[k]].available)
    ensures ScheduleOne(s, j, order, workers, lid, now).state == GrantTo(s, s.jobs[j], s.nodes[order[k]], w, lid, now)
  {
    InvSound(s);
    NodesOfListed(s, order);
    NodesOfRows(s, order);
    ListedAreSound(s, order);
    var nodes := NodesOf(s, order);
    assert nodes[k] in nodes && s.jobs[j].id == j;
    SelectsEarliestBest(s.jobs[j], nodes, now, k);
    SelectNodeIsSelectIndex(s.jobs[j], nodes, now);
    PlaceGrants(s, s.jobs[j], s.nodes[order[k]], workers, lid, now);
  }

  /** A job is granted to an idle worker of the only node that is eligible for it. */
  lemma Granting(r: Run, j: JobId, order: seq<NodeId>, k: nat, workers: seq<WorkerId>, w: WorkerId, lid: LeaseId, now: Time)
    returns (r': Run)
    requires IsRun(r) && End(r).clock <= now && lid !in End(r).c.issued
    requires j in End(r).c.jobs && End(r).c.jobs[j].status == Queued
    requires k < |order| && forall i :: 0 <= i < |order| ==>
               && order[i] in End(r).c.nodes
               && (Eligible(End(r).c.jobs[j], End(r).c.nodes[order[i]], now) <==> i == k)
    requires FirstIdle(End(r).c, workers, order[k]) == Some(w)
    ensures IsRun(r') && End(r).c.jobs[j].resources.Within(End(r).c.nodes[order[k]].available)
    ensures var s := End(r).c;
            End(r') == End(r).(c := GrantTo(s, s.jobs[j], s.nodes[order[k]], w, lid, now), clock := now)
  {
    Reachable(r, |r.states| - 1);
    ScheduleGrants(End(r).c, j, order, k, workers, w, lid, now);
    r' := Then(r, ScheduleJob(j, order, workers, lid), now);
  }

  lemma HeldReportSettles(s: Cluster, outcome: Outcome, j: JobId, exit: Option<int>, now: Time)
    requires Inv(s) && j in s.leases && j in s.jobs && s.jobs[j].Conclude(outcome, exit, now).Ok?
    ensures var lease := s.leases[j];
            && lease.worker in s.workers && s.workers[lease.worker].node in s.nodes
            && ReportOutcome(s, outcome, lease.worker, j, lease.tenant, lease.id, exit, now).state
               == Settled(s, s.workers[lease.worker].Freed(), Refilled(s.nodes[s.workers[lease.worker].node]),
                          s.jobs[j].Conclude(outcome, exit, now).value)
  {
    assert LeaseOk(s, j) && s.jobs[j].id == j;
    var lease := s.leases[j];
    assert s.workers[lease.worker].id == lease.worker;
    FinishSettles(s, s.workers[lease.worker], s.jobs[j].Conclude(outcome, exit, now).value, lease.id, false);
  }

  /** The worker of a lease reports under it an outcome that the table allows. */
  lemma Reporting(r: Run, outcome: Outcome, j: JobId, exit: Option<int>, now: Time) returns (r': Run)
    requires IsRun(r) && End(r).clock <= now && j in End(r).c.leases && j in End(r).c.jobs
    requires End(r).c.jobs[j].Conclude(outcome, exit, now).Ok?
    ensures var w := End(r).c.leases[j].worker;
            w in End(r).c.workers && End(r).c.workers[w].node in End(r).c.nodes
    ensures IsRun(r') && r.states <= r'.states
    ensures var s := End(r).c;
            var row := s.workers[s.leases[j].worker];
            var ended := s.jobs[j].Conclude(outcome, exit, now).value;
            End(r') == End(r).(c := Settled(s, row.Freed(), Refilled(s.nodes[row.node]), ended), clock := now)
  {
    Reachable(r, |r.states| - 1);
    HeldReportSettles(End(r).c, outcome, j, exit, now);
    var lease := End(r).c.leases[j];
    r' := Then(r, ReportEnd(outcome, lease.worker, j, lease.tenant, lease.id, exit), now);
  }

  /** A pass lists the leases and recovers an expired one at once. */
  lemma Recovering(r: Run, j: JobId, now: Time) returns (r': Run)
    requires IsRun(r) && End(r).clock <= now && j in End(r).c.leases && End(r).c.leases[j].IsExpired(now)
    ensures var w := End(r).c.leases[j].worker;
            w in End(r).c.workers && End(r).c.workers[w].node in End(r).c.nodes && j in End(r).c.jobs
    ensures IsRun(r') && End(r').clock == now && End(r').posts == End(r).posts && End(r').sweeps == End(r).sweeps
    ensures End(r).listed <= End(r').listed
    ensures var s := End(r).c;
            var row := s.workers[s.leases[j].worker];
            End(r').c == Settled(s, row.Freed(), Refilled(s.nodes[row.node]), Reclaimed(s.jobs[j], now))
  {
    var s := End(r).c;
    Reachable(r, |r.states| - 1);
    assert LeaseOk(s, j);
    r' := Listing(r, j, now);
    RecoverLeaseSettles(s, s.leases[j], now);
    var snap := Snapshot(s.leases[j], now);
    r' := Then(r', RecoverListed(snap), now);
  }

  /** An offline-node pass reads the nodes and then the workers, one of which is on an offline node. */
  lemma Sweeping(r: Run, sweep: nat, w: WorkerId, now: Time) returns (r': Run)
    requires IsRun(r) && End(r).clock <= now && sweep !in End(r).sweeps
    requires w in End(r).c.workers
    requires var n := End(r).c.workers[w].node; n in End(r).c.nodes && !End(r).c.nodes[n].IsAlive(now)
    ensures IsRun(r') && sweep in End(r').sweeps && End(r').sweeps[sweep].WorkersRead?
    ensures LoadWorker(End(r).c, w).Some? && LoadWorker(End(r).c, w).value in End(r').sweeps[sweep].listing
    ensures End(r') == End(r).(clock := now, sweeps := End(r').sweeps)
  {
    var n := End(r).c.workers[w].node;
    r' := Then(r, ReadOffline(sweep), now);
    assert n in End(r').sweeps[sweep].offline && End(r').c == End(r).c;
    r' := Then(r', ReadWorkers(sweep), now);
  }

  //
  // One node, one worker, one job granted to it
  //

  const SMALL := Resources(1, 1, 0)
  const NODE := Node(1, 1, SMALL, SMALL, map[], 0, false)
  const WORKER := Worker(1, 1, 1, Idle, Agent, None, 0)

  function Held(maxRetries: int): Cluster {
    Cluster(map[1 := JobOf(1, SMALL, maxRetries).(node := Some(1), status := Scheduled)],
            map[1 := WORKER.(runningJob := Some(1), status := Busy)],
            map[1 := NODE.(available := NO_RESOURCES)],
            map[1 := Lease(1, 1, 1, 1, 0, 30)],
            map[1 := 1])
  }

  lemma RegisteredRun(capacity: Resources) returns (r: Run)
    ensures IsRun(r)
    ensures End(r) == System(Cluster(map[], map[1 := WORKER],
                                     map[1 := NODE.(capacity := capacity, available := capacity)], map[], map[]),
                             0, map[], {}, map[0 := WorkerMade(WORKER)], map[])
  {
    r := Joining(FirstRun(), 1, capacity, 0);
    r := Registering(r, 0, 1, 1, 0);
    assert End(r).c.workers == map[1 := WORKER] && End(r).posts == map[0 := WorkerMade(WORKER)];
  }

  lemma SubmittedRun(capacity: Resources, resources: Resources, maxRetries: int) returns (r: Run)
    requires resources.cpu > 0 && resources.memory > 0
    ensures IsRun(r)
    ensures End(r) == System(Cluster(map[1 := JobOf(1, resources, maxRetries)], map[1 := WORKER],
                                     map[1 := NODE.(capacity := capacity, available := capacity)], map[], map[]),
                             0, map[], {}, map[0 := WorkerMade(WORKER)], map[])
  {
    r := RegisteredRun(capacity);
    r := Submitting(r, 1, resources, maxRetries, 0);
    assert End(r).c.jobs == map[1 := JobOf(1, resources, maxRetries)];
  }

  lemma HeldRun(maxRetries: int) returns (r: Run)
    ensures IsRun(r) && End(r) == System(Held(maxRetries), 0, map[], {}, map[0 := WorkerMade(WORKER)], map[])
  {
    r := SubmittedRun(SMALL, SMALL, maxRetries);
    r := Granting(r, 1, [1], 0, [1], 1, 1, 0);
    assert End(r).c == Held(maxRetries);
  }

  //
  // Registration
  //

  /** Nobody on the node holds a job, so its books must be full. */
  lemma UnheldLoses(s: Cluster, n: NodeId)
    requires n in s.nodes && s.nodes[n].available != s.nodes[n].capacity
    requires forall w, j :: !CarriesOn(s, n, w, j)
    ensures !Conserved(s)
  {
    assert HeldOn(s, n) == NO_RESOURCES;
  }

  lemma SecondSaveBreaks()
    ensures var s' := ReadyWorker(Held(0), WORKER).state;
            !ExclusiveOwnership(s') && !Conserved(s')
  {
    var s' := ReadyWorker(Held(0), WORKER).state;
    assert Leased(s', 1, 1) && !Carries(s', 1, 1);
    UnheldLoses(s', 1);
  }

  /** POST /workers lets go of a job: a worker that is given one between its creation and the second
      save loses it, and with it ownership and the books of its node. */
  lemma ReadyCanLoseAJob() returns (r: Run)
    ensures IsRun(r) && 0 in End(r).posts && End(r).posts[0].WorkerMade?
    ensures ExclusiveOwnership(End(r).c) && Conserved(End(r).c)
    ensures var s' := ReadyWorker(End(r).c, End(r).posts[0].worker).state;
            !ExclusiveOwnership(s') && !Conserved(s')
  {
    r := HeldRun(0);
    OwnershipAlways(r, |r.states| - 1);
    ConservationAlways(r, |r.states| - 1);
    SecondSaveBreaks();
  }

  const BIG := Resources(2, 2, 0)
  const BIG_NODE := NODE.(capacity := BIG, available := BIG)
  const OLD_COPY := BIG_NODE.(available := NO_RESOURCES)

  function HeldLater(maxRetries: int): Cluster {
    Cluster(map[1 := JobOf(1, BIG, maxRetries).(node := Some(1), status := Failed, completedAt := Some(0)),
                2 := JobOf(2, SMALL, maxRetries).(node := Some(1), status := Scheduled)],
            map[1 := WORKER.(runningJob := Some(2), status := Busy)],
            map[1 := BIG_NODE.(available := SMALL)],
            map[2 := Lease(2, 1, 2, 1, 0, 30)],
            map[1 := 1, 2 := 2])
  }

  /** The node is read while a job fills it. */
  lemma ReadRun() returns (r: Run)
    ensures IsRun(r) && End(r).clock == 0 && 1 in End(r).posts && End(r).posts[1] == NodeRead(OLD_COPY)
    ensures End(r).c == Cluster(map[1 := JobOf(1, BIG, 0).(node := Some(1), status := Scheduled)],
                                map[1 := WORKER.(runningJob := Some(1), status := Busy)],
                                map[1 := OLD_COPY],
                                map[1 := Lease(1, 1, 1, 1, 0, 30)],
                                map[1 := 1])
  {
    r := SubmittedRun(BIG, BIG, 0);
    r := Granting(r, 1, [1], 0, [1], 1, 1, 0);
    assert End(r).c.nodes == map[1 := OLD_COPY];
    r := ReadingNode(r, 1, 1, 0);
  }

  /** The job ends. */
  lemma EndedRun() returns (r: Run)
    ensures IsRun(r) && End(r).clock == 0 && 1 in End(r).posts && End(r).posts[1] == NodeRead(OLD_COPY)
    ensures End(r).c == Cluster(map[1 := HeldLater(0).jobs[1]], map[1 := WORKER], map[1 := BIG_NODE], map[], map[1 := 1])
  {
    r := ReadRun();
    r := Reporting(r, Errored, 1, None, 0);
    assert End(r).c == Cluster(map[1 := HeldLater(0).jobs[1]], map[1 := WORKER], map[1 := BIG_NODE], map[], map[1 := 1]);
  }

  /** A smaller job takes its place. */
  lemma HeldLaterRun() returns (r: Run)
    ensures IsRun(r) && 1 in End(r).posts && End(r).posts[1] == NodeRead(OLD_COPY) && End(r).c == HeldLater(0)
  {
    r := EndedRun();
    r := Submitting(r, 2, SMALL, 0, 0);
    assert End(r).c.jobs[2] == JobOf(2, SMALL, 0);
    r := Granting(r, 2, [1], 0, [1], 1, 2, 0);
    assert End(r).c == HeldLater(0);
  }

  lemma SettledLoses(s: Cluster, row: Worker, node: Node, job: Job)
    requires row.runningJob.None? && node.available != node.capacity
    requires forall w :: w in s.workers && w != row.id ==> s.workers[w].node != node.id
    ensures !Conserved(Settled(s, row, node, job))
  {
    UnheldLoses(Settled(s, row, node, job), node.id);
  }

  /** Creating on a copy that, with the job's resources, does not reach the capacity. */
  lemma CreatingAgainLoses(r: Run, post: nat, w: WorkerId, managedBy: ManagedBy, newId: WorkerId, now: Time)
    requires IsRun(r) && post in End(r).posts && End(r).posts[post].NodeRead?
    requires IsWorkerOf(End(r).c, w, End(r).posts[post].node.id, End(r).posts[post].node.tenant)
    requires End(r).c.workers[w].runningJob.Some? && End(r).c.workers[w].runningJob.value in End(r).c.jobs
    requires var node := End(r).posts[post].node;
             node.Release(End(r).c.jobs[End(r).c.workers[w].runningJob.value].resources).available != node.capacity
    ensures !Conserved(CreateWorker(End(r).c, End(r).posts[post].node, managedBy, newId, now).state)
  {
    var s, node := End(r).c, End(r).posts[post].node;
    Reachable(r, |r.states| - 1);
    assert PostOk(s, End(r).posts[post]);
    var other := WorkerOfNode(s, node.id, node.tenant).value;
    assert other == w && s.workers[w].id == w;
    CreateAgainSettles(s, w, node, managedBy, newId, now);
    var job := s.jobs[s.workers[w].runningJob.value];
    SettledLoses(s, s.workers[w].Freed().(managedBy := managedBy), node.Release(job.resources), Reclaimed(job, now));
  }

  lemma FallsShort(node: Node, freed: Resources)
    requires node.available == NO_RESOURCES && freed.Within(node.capacity) && freed != node.capacity
    ensures node.Release(freed).available != node.capacity
  {
  }

  /** POST /workers loses resources: a copy of the node read under a larger job gives back too little
      when a smaller one is taken back with it. */
  lemma CreateCanLoseResources() returns (r: Run)
    ensures IsRun(r) && 1 in End(r).posts && End(r).posts[1].NodeRead? && Conserved(End(r).c)
    ensures !Conserved(CreateWorker(End(r).c, End(r).posts[1].node, Agent, 2, 0).state)
  {
    r := HeldLaterRun();
    FallsShort(OLD_COPY, SMALL);
    CreatingAgainLoses(r, 1, 1, Agent, 2, 0);
    ConservationAlways(r, |r.states| - 1);
  }

  //
  // Node removal
  //

  lemma Strands(s: Cluster, n: NodeId, t: Tenant, j: JobId, now: Time)
    requires Inv(s) && Removal.RemoveNode(s, n, t, now).Removed?
    requires j in s.jobs && s.jobs[j].node == Some(n) && IsActive(s.jobs[j].status)
    ensures Removal.HoldsActiveJob(s, n) && !Inv(Removal.RemoveNode(s, n, t, now).state)
  {
    Removal.RemovalIsSafeIffIdle(s, n, t, now);
  }

  lemma HeldNodeGoes()
    ensures Removal.RemoveNode(Held(0), 1, 1, 61).Removed?
  {
  }

  /** Removing an offline node, as the service does, can strand a scheduled job. */
  lemma RemovalCanStrand() returns (r: Run)
    ensures IsRun(r)
    ensures Removal.RemoveNode(End(r).c, 1, 1, 61).Removed? && Removal.HoldsActiveJob(End(r).c, 1)
    ensures !Inv(Removal.RemoveNode(End(r).c, 1, 1, 61).state)
  {
    r := HeldRun(0);
    Reachable(r, |r.states| - 1);
    HeldNodeGoes();
    Strands(Held(0), 1, 1, 1, 61);
  }

  //
  // The offline-node pass after a completion
  //

  function Begun(maxRetries: int): Cluster {
    Held(maxRetries).(jobs := map[1 := Held(maxRetries).jobs[1].(status := Running, startedAt := Some(0))])
  }

  function ListedThen(maxRetries: int): WorkerView {
    WorkerView(Begun(maxRetries).workers[1], Begun(maxRetries).nodes[1], Some(Begun(maxRetries).jobs[1]))
  }

  lemma StartedRun() returns (r: Run)
    ensures IsRun(r) && End(r).c == Begun(0) && End(r).clock == 0 && End(r).sweeps == map[]
  {
    r := HeldRun(0);
    r := Starting(r, 1, 0);
    assert End(r).c == Begun(0);
  }

  /** A turn on a listed running job that has completed since and may not retry. */
  lemma StaleTurnFails(s: Cluster, listed: WorkerView, now: Time)
    requires listed.job.Some? && listed.job.value.status == Running && !listed.job.value.CanRetry()
    requires var j := listed.job.value.id; j in s.jobs && s.jobs[j].status == Completed && j !in s.leases
    ensures var s' := RecoverWorker(s, listed, now);
            var j := listed.job.value.id;
            j in s'.jobs && s'.jobs[j].status == Failed && !Good(s, s', None, now)
  {
    var s', j := RecoverWorker(s, listed, now), listed.job.value.id;
    assert s'.jobs[j].status == Failed;
    assert !JobEvolves(s.jobs[j], s'.jobs[j], false, now);
  }

  lemma SweptRun() returns (r: Run)
    ensures IsRun(r) && End(r).c == Begun(0) && End(r).clock == 61
    ensures 0 in End(r).sweeps && End(r).sweeps[0].WorkersRead? && ListedThen(0) in End(r).sweeps[0].listing
  {
    r := StartedRun();
    r := Sweeping(r, 0, 1, 61);
  }

  /** The job of a lease has completed. */
  lemma CompletedRun() returns (r: Run)
    ensures IsRun(r) && End(r).clock == 61
    ensures 0 in End(r).sweeps && End(r).sweeps[0].WorkersRead? && ListedThen(0) in End(r).sweeps[0].listing
    ensures 1 in End(r).c.jobs && End(r).c.jobs[1].status == Completed && 1 !in End(r).c.leases
  {
    r := SweptRun();
    r := Reporting(r, Succeeded, 1, Some(0), 61);
  }

  lemma ListedThenRuns()
    ensures var job := ListedThen(0).job;
            job.Some? && job.value.id == 1 && job.value.status == Running && !job.value.CanRetry()
  {
  }

  /** The offline-node pass can take a completed job back: here the worker is listed, the job
      completes, and the turn on the listed rows makes it failed. */
  lemma StaleTurnCanUndoCompletion() returns (r: Run, view: WorkerView)
    ensures IsRun(r) && 0 in End(r).sweeps && End(r).sweeps[0].WorkersRead? && view in End(r).sweeps[0].listing
    ensures End(r).clock == 61 && 1 in End(r).c.jobs && End(r).c.jobs[1].status == Completed
    ensures var s' := RecoverWorker(End(r).c, view, 61);
            1 in s'.jobs && s'.jobs[1].status == Failed && !Good(End(r).c, s', None, 61)
  {
    r := CompletedRun();
    view := ListedThen(0);
    ListedThenRuns();
    StaleTurnFails(End(r).c, view, 61);
  }

  //
  // The offline-node pass after a cancellation
  //

  function Withdrawn(maxRetries: int): Cluster {
    Held(maxRetries).(jobs := map[1 := Held(maxRetries).jobs[1].(status := Cancelled)])
  }

  function WithdrawnView(maxRetries: int): WorkerView {
    WorkerView(Withdrawn(maxRetries).workers[1], Withdrawn(maxRetries).nodes[1], Some(Withdrawn(maxRetries).jobs[1]))
  }

  /** A scheduled job is cancelled, which leaves its lease and its worker, and the worker is listed. */
  lemma WithdrawnRun() returns (r: Run)
    ensures IsRun(r) && End(r).c == Withdrawn(0) && End(r).clock == 61
    ensures 0 in End(r).sweeps && End(r).sweeps[0].WorkersRead? && WithdrawnView(0) in End(r).sweeps[0].listing
  {
    r := HeldRun(0);
    r := Withdrawing(r, 1, 0);
    assert End(r).c == Withdrawn(0);
    r := Sweeping(r, 0, 1, 61);
  }

  /** Another pass recovers the expired lease, and the node is back. */
  lemma FreedRun() returns (r: Run)
    ensures IsRun(r) && End(r).clock == 61
    ensures 0 in End(r).sweeps && End(r).sweeps[0].WorkersRead? && WithdrawnView(0) in End(r).sweeps[0].listing
    ensures End(r).c == Cluster(Withdrawn(0).jobs, map[1 := WORKER], map[1 := NODE.(lastSeen := 61)], map[], map[1 := 1])
  {
    r := WithdrawnRun();
    r := Recovering(r, 1, 61);
    assert End(r).c == Cluster(Withdrawn(0).jobs, map[1 := WORKER], map[1 := NODE], map[], map[1 := 1]);
    r := Beating(r, 1, 61);
    assert End(r).c.nodes == map[1 := NODE.(lastSeen := 61)];
  }

  /** The worker is given the next job. */
  lemma ReusedRun() returns (r: Run)
    ensures IsRun(r) && End(r).clock == 61
    ensures 0 in End(r).sweeps && End(r).sweeps[0].WorkersRead? && WithdrawnView(0) in End(r).sweeps[0].listing
    ensures 2 in End(r).c.leases && End(r).c.leases[2] == Lease(2, 1, 2, 1, 61, 91) && 1 !in End(r).c.leases
  {
    r := FreedRun();
    r := Submitting(r, 2, SMALL, 0, 61);
    assert End(r).c.jobs[2] == JobOf(2, SMALL, 0);
    r := Granting(r, 2, [1], 0, [1], 1, 2, 61);
  }

  /** A turn that writes while its worker holds another job makes the worker forget that job. */
  lemma WritingOverBreaks(r: Run, sweep: nat, view: WorkerView, now: Time, j: JobId)
    requires IsRun(r) && sweep in End(r).sweeps && End(r).sweeps[sweep].WorkersRead? && view in End(r).sweeps[sweep].listing
    requires view.job.Some? && view.job.value.id !in End(r).c.leases
    requires j in End(r).c.leases && End(r).c.leases[j].worker == view.row.id
    ensures !Inv(RecoverWorker(End(r).c, view, now)) && !Untouched(End(r).c, RecoverWorker(End(r).c, view, now), j)
  {
    var s := End(r).c;
    Reachable(r, |r.states| - 1);
    assert SweepOk(s, End(r).sweeps[sweep]) && ViewOk(s, view);
    UnleasedTurnWritesBack(s, view, now);
    WritesOver(s, view, now, j);
    assert !LeaseOk(RecoverWorker(s, view, now), j);
  }

  lemma WithdrawnViewIsCancelled()
    ensures var view := WithdrawnView(0);
            view.row.id == 1 && view.job.Some? && view.job.value.id == 1 && view.job.value.status == Cancelled
  {
  }

  /** The offline-node pass can take a job from a worker that has just been given it: here the worker
      was listed with a job that was cancelled before it started, and has moved on. */
  lemma StaleTurnCanLoseAJob() returns (r: Run, view: WorkerView)
    ensures IsRun(r) && 0 in End(r).sweeps && End(r).sweeps[0].WorkersRead? && view in End(r).sweeps[0].listing
    ensures End(r).clock == 61 && view.job.Some? && view.job.value.status == Cancelled
    ensures 2 in End(r).c.leases && !End(r).c.leases[2].IsExpired(61) && End(r).c.leases[2].worker == view.row.id
    ensures !Inv(RecoverWorker(End(r).c, view, 61)) && !Untouched(End(r).c, RecoverWorker(End(r).c, view, 61), 2)
  {
    r := ReusedRun();
    view := WithdrawnView(0);
    WithdrawnViewIsCancelled();
    WritingOverBreaks(r, 0, view, 61, 2);
  }

  //
  // A listed lease acted on too late
  //

  const OLD_LEASE := Snapshot(Lease(1, 1, 1, 1, 0, 30), 0)
  const SECOND_NODE := NODE.(id := 2, lastSeen := 61)
  const SECOND_WORKER := Worker(2, 2, 1, Idle, Agent, None, 61)

  lemma ListedRun() returns (r: Run)
    ensures IsRun(r) && OLD_LEASE in End(r).listed
    ensures End(r).c == Held(1) && End(r).clock == 0 && 1 !in End(r).posts
  {
    r := HeldRun(1);
    r := Listing(r, 1, 0);
    assert OLD_LEASE.lease == Held(1).leases[1];
  }

  /** One pass has listed the lease; another recovers it when it expires. */
  lemma RequeuedRun() returns (r: Run)
    ensures IsRun(r) && End(r).clock == 30 && OLD_LEASE in End(r).listed && 1 !in End(r).posts
    ensures End(r).c == Cluster(map[1 := JobOf(1, SMALL, 1).(retryCount := 1)],
                                map[1 := WORKER], map[1 := NODE], map[], map[1 := 1])
  {
    r := ListedRun();
    r := Recovering(r, 1, 30);
    assert End(r).c.nodes == map[1 := NODE];
  }

  /** The job goes to a second node while the first is offline. */
  lemma RegrantedRun() returns (r: Run)
    ensures IsRun(r) && End(r).clock == 61 && OLD_LEASE in End(r).listed
    ensures 1 in End(r).c.leases && End(r).c.leases[1] == Lease(2, 2, 1, 1, 61, 91)
  {
    r := RequeuedRun();
    r := Joining(r, 2, SMALL, 61);
    r := Registering(r, 1, 2, 2, 61);
    var order, workers: seq<WorkerId> := [1, 2], [1, 2];
    assert End(r).c.nodes[1] == NODE && End(r).c.nodes[2] == SECOND_NODE && End(r).c.workers[2] == SECOND_WORKER;
    assert order[1] == 2 && workers[1..] == [2];
    r := Granting(r, 1, order, 1, workers, 2, 2, 61);
  }

  /** Once jobs may retry, a listed lease can outlive its worker: the recovery of another worker's
      expired lease under the old snapshot breaks ownership. */
  lemma ListedLeaseCanOutliveItsWorker() returns (r: Run)
    ensures IsRun(r) && OLD_LEASE in End(r).listed && !Reaches(End(r).c, OLD_LEASE, 91)
    ensures Inv(End(r).c) && !Inv(RecoverIfExpired(End(r).c, OLD_LEASE.lease, 91))
  {
    r := RegrantedRun();
    Reachable(r, |r.states| - 1);
    StaleSnapshotBreaksOwnership(End(r).c, OLD_LEASE.lease, 91);
  }
}
