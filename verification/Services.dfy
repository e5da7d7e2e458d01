/** The services as they run: dictionaries updated in place, in the order of the source, each
call proved to be its step of ClusterModel and to keep the invariant. */
module Services {
  import opened Options
  import opened Domain
  import opened Sequences
  import opened Scheduling
  import opened ClusterModel
  import opened Invariant
  import opened Steps
  import opened Runs
  import opened Answers
  import opened Reconciliation
  import opened Utilization
  import opened Tick

  /** The keys of a dictionary in insertion order. */
  ghost predicate Lists(order: seq<int>, keys: set<int>) {
    NoRepeats(order) && forall k :: k in order <==> k in keys
  }

  function WithKey(order: seq<int>, k: int): (r: seq<int>)
    ensures NoRepeats(order) ==> NoRepeats(r)
    ensures forall x :: x in r <==> x in order || x == k
  {
    if k in order then order else order + [k]
  }

  function WithoutKey(order: seq<int>, k: int): (r: seq<int>)
    ensures forall x :: x in r <==> x in order && x != k
    ensures NoRepeats(order) ==> NoRepeats(r)
  {
    if order == [] then []
    else
      var last := |order| - 1;
      var front := WithoutKey(order[..last], k);
      assert NoRepeats(order) ==> order[last] !in order[..last];
      assert NoRepeats(order) ==> NoRepeats(order[..last]);
      if order[last] == k then front else front + [order[last]]
  }

  /** What list_available_across_tenants keeps. */
  predicate Available(node: Node, now: Time) {
    !node.draining && node.IsAlive(now)
  }

  /** The node list a tick works from. */
  function LocalNodes(nodes: map<NodeId, Node>, order: seq<NodeId>, now: Time): seq<Node> {
    if order == [] then []
    else
      var last := |order| - 1;
      LocalNodes(nodes, order[..last], now)
      + if order[last] in nodes && Available(nodes[order[last]], now) then [nodes[order[last]]] else []
  }

  lemma {:induction false} LocalIsKept(s: Cluster, order: seq<NodeId>, now: Time)
    ensures LocalNodes(s.nodes, order, now) == Keep((node: Node) => Available(node, now), NodesOf(s, order))
  {
    if order != [] {
      var last := |order| - 1;
      LocalIsKept(s, order[..last], now);
      var front := NodesOf(s, order[..last]);
      if order[last] in s.nodes {
        KeepSnoc((node: Node) => Available(node, now), front, s.nodes[order[last]]);
      } else {
        assert front + [] == front;
      }
    }
  }

  /** Leaving out draining and dead nodes beforehand does not change the choice. */
  lemma SelectFromLocal(s: Cluster, job: Job, order: seq<NodeId>, now: Time)
    requires Inv(s)
    ensures AllSound(LocalNodes(s.nodes, order, now)) && AllSound(NodesOf(s, order))
    ensures SelectNode(job, LocalNodes(s.nodes, order, now), now) == SelectNode(job, NodesOf(s, order), now)
  {
    InvSound(s);
    NodesOfSound(s, order);
    LocalIsKept(s, order, now);
    SelectIgnoresIneligible(job, NodesOf(s, order), now, (node: Node) => Available(node, now));
  }

  lemma {:induction false} OthersLocal(nodes: map<NodeId, Node>, order: seq<NodeId>, node: Node, now: Time)
    requires node.id !in order
    ensures LocalNodes(nodes[node.id := node], order, now) == LocalNodes(nodes, order, now)
  {
    if order != [] {
      OthersLocal(nodes, order[..|order| - 1], node, now);
    }
  }

  lemma {:induction false} LocalIds(nodes: map<NodeId, Node>, order: seq<NodeId>, k: nat, now: Time)
    requires k < |LocalNodes(nodes, order, now)|
    requires forall n :: n in nodes ==> nodes[n].id == n
    ensures var node := LocalNodes(nodes, order, now)[k];
            node.id in order && node.id in nodes && nodes[node.id] == node
  {
    var last := |order| - 1;
    if k < |LocalNodes(nodes, order[..last], now)| {
      LocalIds(nodes, order[..last], k, now);
    } else {
      var n := order[last];
      assert nodes[n].id == n && LocalNodes(nodes, order, now)[k] == nodes[n];
    }
  }

  /** Updating one entry of the list keeps it equal to what a fresh read would give. */
  lemma {:induction false} LocalUpdate(nodes: map<NodeId, Node>, order: seq<NodeId>, k: nat, node: Node, now: Time)
    requires NoRepeats(order) && forall n :: n in nodes ==> nodes[n].id == n
    requires k < |LocalNodes(nodes, order, now)| && node.id == LocalNodes(nodes, order, now)[k].id && Available(node, now)
    ensures LocalNodes(nodes[node.id := node], order, now) == LocalNodes(nodes, order, now)[k := node]
  {
    var front, n := order[..|order| - 1], order[|order| - 1];
    var before := LocalNodes(nodes, front, now);
    assert n !in front;
    if k < |before| {
      LocalIds(nodes, front, k, now);
      assert node.id in front && node.id != n;
      LocalUpdate(nodes, front, k, node, now);
    } else {
      assert LocalNodes(nodes, order, now)[k] == nodes[n];
      assert node.id == n;
      OthersLocal(nodes, front, node, now);
    }
  }

  /** Placing a job writes one node row, and of it only what is available. */
  lemma PlacedNode(s: Cluster, job: Job, node: Node, workerOrder: seq<WorkerId>, lid: LeaseId, now: Time)
    requires Inv(s) && CanPlace(s, job, node, now)
    ensures var s' := Place(s, job, node, workerOrder, lid, now).state;
            && node.id in s'.nodes && s'.nodes == s.nodes[node.id := s'.nodes[node.id]]
            && s'.nodes[node.id] == node.(available := s'.nodes[node.id].available)
  {
    PlaceGrants(s, job, node, workerOrder, lid, now);
    assert s.nodes[node.id := node] == s.nodes;
  }

  lemma SweepsAll(s: Cluster, order: seq<WorkerId>, now: Time)
    requires Inv(s) && Lists(order, s.workers.Keys)
    ensures MarkAll(s, order, now) == Swept(s, s.workers.Keys, now)
  {
    var all := set w | w in order;
    forall w ensures w in all <==> w in s.workers.Keys {
      assert w in order <==> w in s.workers.Keys;
    }
    assert {} + all == s.workers.Keys;
    assert Swept(s, {}, now).workers == s.workers;
    MarkAllSweeps(s, {}, order, now);
  }

  ghost predicate StillQueued(s: Cluster, queue: seq<Job>) {
    forall i :: 0 <= i < |queue| ==> queue[i].id in s.jobs && s.jobs[queue[i].id] == queue[i] && queue[i].status == Queued
  }

  lemma RestStillQueued(s: Cluster, queue: seq<Job>, orders: Orders, ids: JobId -> LeaseId, now: Time)
    requires Inv(s) && queue != [] && FreshIds(s, queue, ids) && StillQueued(s, queue)
    ensures StillQueued(Turn(s, queue[0], orders, ids, now).state, queue[1..])
  {
    ScheduleOneGrants(s, queue[0].id, orders.nodes, orders.workers, ids(queue[0].id), now);
  }

  lemma QueueIsQueued(s: Cluster, listing: seq<JobId>)
    requires KeysOk(s)
    ensures StillQueued(s, Queue(s, listing))
  {
    var queue := Queue(s, listing);
    QueuedAreRows(s, listing);
    QueueSorts(s, listing);
    forall i | 0 <= i < |queue| ensures queue[i].id in s.jobs && s.jobs[queue[i].id] == queue[i] && queue[i].status == Queued {
      assert queue[i] in multiset(queue);
      assert queue[i] in QueuedJobs(s, listing);
    }
  }

  class ControlPlane {
    var jobs: map<JobId, Job>
    var workers: map<WorkerId, Worker>
    var nodes: map<NodeId, Node>
    var leases: map<JobId, Lease>
    var jobOrder: seq<JobId>
    var workerOrder: seq<WorkerId>
    var nodeOrder: seq<NodeId>
    var leaseOrder: seq<JobId>
    ghost var issued: map<LeaseId, JobId>

    ghost function State(): Cluster
      reads this
    {
      Cluster(jobs, workers, nodes, leases, issued)
    }

    ghost predicate Ordered()
      reads this
    {
      Lists(jobOrder, jobs.Keys) && Lists(workerOrder, workers.Keys) && Lists(nodeOrder, nodes.Keys)
      && Lists(leaseOrder, leases.Keys)
    }

    ghost predicate Valid()
      reads this
    {
      Ordered() && Inv(State())
    }

    constructor ()
      ensures Valid() && State() == EMPTY
    {
      jobs, workers, nodes, leases := map[], map[], map[], map[];
      jobOrder, workerOrder, nodeOrder, leaseOrder := [], [], [], [];
      issued := map[];
    }

    //
    // Repositories
    //

    method PutJob(job: Job)
      requires Ordered()
      modifies `jobs, `jobOrder
      ensures Ordered() && State() == SaveJob(old(State()), job)
      ensures job.id in old(jobs) ==> jobOrder == old(jobOrder)
    {
      jobOrder := WithKey(jobOrder, job.id);
      jobs := jobs[job.id := job];
    }

    method PutWorker(row: Worker)
      requires Ordered()
      modifies `workers, `workerOrder
      ensures Ordered() && State() == SaveWorker(old(State()), row)
      ensures row.id in old(workers) ==> workerOrder == old(workerOrder)
    {
      workerOrder := WithKey(workerOrder, row.id);
      workers := workers[row.id := row];
    }

    method PutNode(node: Node)
      requires Ordered()
      modifies `nodes, `nodeOrder
      ensures Ordered() && State() == SaveNode(old(State()), node)
      ensures node.id in old(nodes) ==> nodeOrder == old(nodeOrder)
    {
      nodeOrder := WithKey(nodeOrder, node.id);
      nodes := nodes[node.id := node];
    }

    method PutLease(lease: Lease)
      requires Ordered()
      modifies `leases, `leaseOrder
      ensures Ordered() && State() == SaveLease(old(State()), lease)
    {
      leaseOrder := WithKey(leaseOrder, lease.job);
      leases := leases[lease.job := lease];
    }

    method Delete(j: JobId, t: Tenant)
      requires Ordered()
      modifies `leases, `leaseOrder
      ensures Ordered() && State() == DeleteLease(old(State()), j, t)
    {
      if j in leases && leases[j].tenant == t {
        leaseOrder := WithoutKey(leaseOrder, j);
        leases := leases - {j};
      }
    }

    /** Deletes at most the named lease, and only if it is expired at this very moment. */
    method DeleteIfExpired(j: JobId, t: Tenant, now: Time) returns (deleted: bool)
      requires Ordered()
      modifies `leases, `leaseOrder
      ensures Ordered()
      ensures deleted <==> LeaseOfJob(old(State()), j, t).Some? && old(leases)[j].IsExpired(now)
      ensures State() == if deleted then DeleteLease(old(State()), j, t) else old(State())
    {
      if j !in leases || leases[j].tenant != t || !leases[j].IsExpired(now) {
        return false;
      }
      leaseOrder := WithoutKey(leaseOrder, j);
      leases := leases - {j};
      return true;
    }

    /** The scan of get_by_worker_id: the invariant leaves only one lease to find. */
    method FindLease(w: WorkerId, t: Tenant) returns (r: Option<Lease>)
      requires Valid()
      ensures r == LeaseOfWorker(State(), w, t)
    {
      LeaseOfWorkerIs(State(), w, t);
      for i := 0 to |leaseOrder|
        invariant forall k :: 0 <= k < i ==> !IsLeaseOf(State(), leaseOrder[k], w, t)
      {
        var j := leaseOrder[i];
        assert j in leaseOrder;
        assert j in leases.Keys;
        var lease := leases[j];
        if lease.worker == w && lease.tenant == t {
          assert IsLeaseOf(State(), j, w, t);
          return Some(lease);
        }
      }
      forall j ensures !IsLeaseOf(State(), j, w, t) {
        assert j in leases ==> j in leaseOrder;
      }
      return None;
    }

    /** The scan of get_by_node_id. */
    method FindWorker(n: NodeId, t: Tenant) returns (r: Option<WorkerId>)
      requires Valid()
      ensures r == WorkerOfNode(State(), n, t)
    {
      for i := 0 to |workerOrder|
        invariant forall k :: 0 <= k < i ==> !IsWorkerOf(State(), workerOrder[k], n, t)
      {
        var w := workerOrder[i];
        assert w in workerOrder;
        assert w in workers.Keys;
        var row := workers[w];
        if row.node == n && row.tenant == t {
          assert IsWorkerOf(State(), w, n, t);
          return Some(w);
        }
      }
      forall w ensures !IsWorkerOf(State(), w, n, t) {
        assert w in workers ==> w in workerOrder;
      }
      return None;
    }

    //
    // Jobs
    //

    method Cancel(j: JobId, t: Tenant, now: Time) returns (a: Answer)
      requires Valid()
      modifies this
      ensures Valid() && Step(State(), a) == CancelJob(old(State()), j, t, now)
    {
      CancelJobKeeps(State(), j, t, now);
      if j !in jobs || jobs[j].tenant != t {
        return AJob(None);
      }
      var job := jobs[j];
      if job.status == Running {
        match job.RequestCancellation(now) {
          case Err(e) => return Raised(e);
          case Ok(changed) => job := changed;
        }
      } else if job.status != Cancelling {
        match job.Cancel() {
          case Err(e) => return Raised(e);
          case Ok(changed) => job := changed;
        }
      }
      PutJob(job);
      return AJob(Some(job));
    }

    method Retry(j: JobId, t: Tenant, now: Time) returns (a: Answer)
      requires Valid()
      modifies this
      ensures Valid() && Step(State(), a) == RetryJob(old(State()), j, t)
    {
      RetryJobKeeps(State(), j, t, now);
      if j !in jobs || jobs[j].tenant != t {
        return AJob(None);
      }
      var job := jobs[j];
      if job.status != Failed || !job.CanRetry() {
        return AJob(Some(job));
      }
      match job.Retry() {
        case Err(e) => return Raised(e);
        case Ok(changed) =>
          PutJob(changed);
          return AJob(Some(changed));
      }
    }

    //
    // Leases
    //

    method Renew(w: WorkerId, expected: LeaseId, t: Tenant, now: Time) returns (a: Answer)
      requires Valid()
      modifies this
      ensures Valid() && Step(State(), a) == RenewLease(old(State()), w, expected, t, LEASE_DURATION, now)
    {
      RenewLeaseKeeps(State(), w, expected, t, now);
      var found := FindLease(w, t);
      if found.None? {
        return Raised(NoActiveLease);
      }
      if found.value.id != expected {
        return Raised(LeaseNotFound);
      }
      PutLease(found.value.Renew(now, LEASE_DURATION));
      return Nothing;
    }

    /** Leaves the invariant to its callers, who free the worker next. */
    method Release(w: WorkerId, expected: LeaseId, t: Tenant) returns (a: Answer)
      requires Valid()
      modifies `leases, `leaseOrder
      ensures Ordered() && Step(State(), a) == ReleaseLease(old(State()), w, expected, t)
      ensures a.Raised? ==> Valid()
    {
      var found := FindLease(w, t);
      if found.None? {
        return Raised(NoActiveLease);
      }
      var lease := found.value;
      if lease.id != expected {
        return Raised(LeaseNotFound);
      }
      if w !in workers || workers[w].tenant != t || workers[w].node !in nodes {
        return Raised(WorkerNotFound);
      }
      if lease.job !in jobs || jobs[lease.job].tenant != t {
        return Raised(JobNotFound);
      }
      Delete(lease.job, t);
      return Nothing;
    }

    method Acquire(worker: WorkerView, job: Job, lid: LeaseId, now: Time) returns (a: Answer)
      requires Ordered()
      modifies `leases, `leaseOrder, `issued
      ensures Ordered() && Step(State(), a) == AcquireLease(old(State()), worker, job, lid, now)
    {
      if job.tenant != worker.node.tenant {
        return Raised(TenantConflict);
      }
      if job.id in leases && leases[job.id].tenant == job.tenant {
        return Raised(AlreadyLeased);
      }
      issued := issued[lid := job.id];
      PutLease(NewLease(lid, worker.row.id, job.id, worker.node.tenant, now));
      return Nothing;
    }

    //
    // The scheduler tick
    //

    /** The scan of AssignWorkerService; the worker accepts only once the lease is held. */
    method Assign(job: Job, lid: LeaseId, now: Time) returns (a: Answer)
      requires Ordered() && KeysOk(State())
      modifies `workers, `workerOrder, `leases, `leaseOrder, `issued
      ensures Ordered() && Step(State(), a) == AssignWorker(old(State()), job, old(workerOrder), lid, now)
      ensures workerOrder == old(workerOrder)
    {
      if job.node.None? {
        return Raised(InvalidTransition);
      }
      var i := 0;
      while i < |workerOrder|
        invariant 0 <= i <= |workerOrder|
        invariant Ordered() && State() == old(State()) && workerOrder == old(workerOrder)
        invariant FirstIdle(State(), workerOrder, job.node.value) == FirstIdle(State(), workerOrder[i..], job.node.value)
      {
        var w := workerOrder[i];
        assert w in workerOrder;
        var row := workers[w];
        assert workerOrder[i..][0] == w && workerOrder[i..][1..] == workerOrder[i + 1..];
        if row.node == job.node.value && row.status == Idle {
          if row.node !in nodes {
            return Raised(NoAvailableNode);
          }
          var held := if row.runningJob.Some? && row.runningJob.value in jobs then Some(jobs[row.runningJob.value]) else None;
          a := Acquire(WorkerView(row, nodes[row.node], held), job, lid, now);
          if a == Raised(TenantConflict) {
            return Raised(NoAvailableNode);
          }
          if a.Raised? {
            return a;
          }
          match row.Accept(job) {
            case Err(e) => return Raised(e);
            case Ok(busy) =>
              PutWorker(busy);
              return AWorker(busy);
          }
        }
        i := i + 1;
      }
      return Raised(NoAvailableNode);
    }

    /** The queue of the tick, before sorting. */
    method ListQueued() returns (r: seq<Job>)
      requires Ordered()
      ensures r == QueuedJobs(State(), jobOrder)
    {
      r := [];
      var i := |jobOrder|;
      while i > 0
        invariant 0 <= i <= |jobOrder|
        invariant r == QueuedJobs(State(), jobOrder[i..])
      {
        i := i - 1;
        var j := jobOrder[i];
        assert j in jobOrder;
        assert j in jobs.Keys;
        assert jobOrder[i..][1..] == jobOrder[i + 1..];
        if jobs[j].status == Queued {
          r := [jobs[j]] + r;
        }
      }
    }

    method ListAvailable(now: Time) returns (r: seq<Node>)
      requires Ordered()
      ensures r == LocalNodes(nodes, nodeOrder, now)
    {
      r := [];
      for i := 0 to |nodeOrder|
        invariant r == LocalNodes(nodes, nodeOrder[..i], now)
      {
        var n := nodeOrder[i];
        assert n in nodeOrder;
        assert n in nodes.Keys;
        assert nodeOrder[..i + 1][..i] == nodeOrder[..i];
        var node := nodes[n];
        if Available(node, now) {
          r := r + [node];
        }
      }
      assert nodeOrder[..|nodeOrder|] == nodeOrder;
    }

    /** Offers a placed job to a worker of its node, and undoes the placement when none takes it. */
    method OfferJob(job: Job, node: Node, lid: LeaseId, now: Time) returns (left: Node)
      requires Ordered() && KeysOk(State())
      requires node.id in nodes && nodes[node.id] == node && job.id in jobs && job.status == Scheduled
      modifies this
      ensures Ordered() && workerOrder == old(workerOrder) && nodeOrder == old(nodeOrder) && jobOrder == old(jobOrder)
      ensures State() == OfferToWorker(old(State()), job, node, old(workerOrder), lid, now).state
      ensures node.id in nodes && left == nodes[node.id]
    {
      left := node;
      var a := Assign(job, lid, now);
      if a == Raised(NoAvailableNode) {
        left := node.Release(job.resources);
        PutNode(left);
        PutJob(job.Unschedule().value);
      }
    }

    /** One job of the tick; left is the node as the tick's own list holds it from here on. */
    method PlaceJob(job: Job, node: Node, lid: LeaseId, now: Time) returns (left: Node)
      requires Ordered() && KeysOk(State())
      requires node.id in nodes && nodes[node.id] == node && job.id in jobs && job.status == Queued
      modifies this
      ensures Ordered() && workerOrder == old(workerOrder) && nodeOrder == old(nodeOrder) && jobOrder == old(jobOrder)
      ensures State() == Place(old(State()), job, node, old(workerOrder), lid, now).state
      ensures node.id in nodes && left == nodes[node.id]
    {
      match node.Allocate(job.resources) {
        case Err(_) => return node;
        case Ok(less) =>
          var placed := job.AssignTo(node.id).value;
          PutNode(less);
          PutJob(placed);
          left := OfferJob(placed, less, lid, now);
      }
    }

    /** A turn that reads the tick's own list is the turn that reads the table. */
    method TakeTurn(job: Job, local: seq<Node>, lid: LeaseId, now: Time) returns (left: seq<Node>)
      requires Valid() && lid !in issued && local == LocalNodes(nodes, nodeOrder, now)
      requires job.id in jobs && jobs[job.id] == job && job.status == Queued
      modifies this
      ensures Valid() && workerOrder == old(workerOrder) && nodeOrder == old(nodeOrder) && jobOrder == old(jobOrder)
      ensures NodesSound(old(State()))
      ensures State() == ScheduleOne(old(State()), job.id, nodeOrder, workerOrder, lid, now).state
      ensures left == LocalNodes(nodes, nodeOrder, now)
    {
      ScheduleOneGrants(State(), job.id, nodeOrder, workerOrder, lid, now);
      ScheduleOneKeeps(State(), job.id, nodeOrder, workerOrder, lid, now);
      SelectFromLocal(State(), job, nodeOrder, now);
      SelectNodeIsSelectIndex(job, local, now);
      var k := FindBest(job, local, now);
      if k.None? {
        return local;
      }
      ghost var before := State();
      LocalIds(nodes, nodeOrder, k.value, now);
      var node := PlaceJob(job, local[k.value], lid, now);
      left := local[k.value := node];
      PlacedNode(before, job, local[k.value], workerOrder, lid, now);
      LocalUpdate(before.nodes, nodeOrder, k.value, node, now);
    }

    /** The whole tick over every tenant's queue. */
    method RunTick(ids: JobId -> LeaseId, now: Time)
      requires Valid() && FreshIds(State(), Queue(State(), jobOrder), ids)
      modifies this
      ensures Valid()
      ensures State() == Tick.Tick(old(State()), old(jobOrder), Orders(old(nodeOrder), old(workerOrder)), ids, now)
    {
      var local := ListAvailable(now);
      var queued := ListQueued();
      var queue := SortBy(Urgency, queued);
      ghost var orders := Orders(nodeOrder, workerOrder);
      ghost var end := ScheduleAll(State(), queue, orders, ids, now);
      QueueIsQueued(State(), jobOrder);
      assert queue[0..] == queue;
      for i := 0 to |queue|
        invariant Valid() && orders == Orders(nodeOrder, workerOrder)
        invariant FreshIds(State(), queue[i..], ids) && StillQueued(State(), queue[i..])
        invariant local == LocalNodes(nodes, nodeOrder, now)
        invariant ScheduleAll(State(), queue[i..], orders, ids, now) == end
      {
        ghost var rest := queue[i..];
        assert rest[0] == queue[i] && rest[1..] == queue[i + 1..];
        TurnKeeps(State(), rest, orders, ids, now);
        RestStillQueued(State(), rest, orders, ids, now);
        local := TakeTurn(queue[i], local, ids(queue[i].id), now);
      }
    }

    //
    // Execution
    //

    /** A worker with its node and its job resolved. */
    function View(w: WorkerId): (r: Option<WorkerView>)
      reads this
      ensures r == LoadWorker(State(), w)
    {
      if w !in workers || workers[w].node !in nodes then None
      else
        var row := workers[w];
        var job := if row.runningJob.Some? && row.runningJob.value in jobs then Some(jobs[row.runningJob.value]) else None;
        Some(WorkerView(row, nodes[row.node], job))
    }

    method ConfirmStart(w: WorkerId, j: JobId, t: Tenant, now: Time) returns (a: Answer)
      requires Valid()
      modifies this
      ensures Valid() && Step(State(), a) == StartJob(old(State()), w, j, t, now)
    {
      StartJobKeeps(State(), w, j, t, now);
      var view := View(w);
      if view.None? || view.value.row.tenant != t || view.value.node.tenant != t {
        return Raised(WorkerNotFound);
      }
      if view.value.job.None? || view.value.job.value.id != j {
        return Raised(WorkerJobMismatch);
      }
      match view.value.job.value.Start(now) {
        case Err(e) => return Raised(e);
        case Ok(job) =>
          PutWorker(view.value.row);
          PutJob(job);
          return AWorker(view.value.row);
      }
    }

    /** Returns a job's resources to its node, if that is still there. */
    method GiveBack(job: Job, t: Tenant)
      requires Ordered()
      modifies `nodes, `nodeOrder
      ensures Ordered()
      ensures var node := if job.node.Some? then GetNode(old(State()), job.node.value, t) else None;
              State() == if node.Some? then SaveNode(old(State()), node.value.Release(job.resources)) else old(State())
    {
      if job.node.Some? && job.node.value in nodes && nodes[job.node.value].tenant == t {
        PutNode(nodes[job.node.value].Release(job.resources));
      }
    }

    /** The lease goes first, then the worker, the node and the job are saved. */
    method FinishWith(row: Worker, job: Job, expected: LeaseId, t: Tenant, merge: bool) returns (a: Answer)
      requires Valid()
      modifies this
      ensures Ordered() && Step(State(), a) == Finish(old(State()), row, job, expected, t, merge)
    {
      a := Release(row.id, expected, t);
      if a.Raised? {
        return;
      }
      PutWorker(row.Freed());
      GiveBack(job, t);
      var final := job;
      if merge && job.id in jobs && jobs[job.id].tenant == t {
        final := WithCancellation(job, Some(jobs[job.id]));
      }
      PutJob(final);
      return AWorker(row.Freed());
    }

    method Report(outcome: Outcome, w: WorkerId, j: JobId, t: Tenant, expected: LeaseId, exit: Option<int>, now: Time)
      returns (a: Answer)
      requires Valid()
      modifies this
      ensures Valid() && Step(State(), a) == ReportOutcome(old(State()), outcome, w, j, t, expected, exit, now)
    {
      ReportKeeps(State(), outcome, w, j, t, expected, exit, now);
      var view := View(w);
      if view.None? || view.value.row.tenant != t || view.value.node.tenant != t {
        return Raised(WorkerNotFound);
      }
      if view.value.job.None? || view.value.job.value.id != j {
        return Raised(WorkerJobMismatch);
      }
      match view.value.job.value.Conclude(outcome, exit, now) {
        case Err(e) => return Raised(e);
        case Ok(job) => a := FinishWith(view.value.row, job, expected, t, false);
      }
    }

    /** The start of WorkerExecutionLoop: copies and the lease id are captured once. */
    method BeginRun(w: WorkerId, now: Time) returns (e: Option<Execution>)
      requires Valid()
      modifies this
      ensures Valid() && Begun(State(), e) == BeginExecution(old(State()), w, now)
      ensures e.Some? ==> LoopOk(State(), e.value)
    {
      BeginKeeps(State(), w, now);
      var view := View(w);
      if view.None? || view.value.job.None? {
        return None;
      }
      var lease := FindLease(w, view.value.node.tenant);
      if lease.None? {
        return None;
      }
      var job := view.value.job.value;
      if job.status != Running {
        match job.Start(now) {
          case Err(_) => return None;
          case Ok(started) => job := started;
        }
        PutJob(job);
      }
      return Some(Execution(view.value.row, job, lease.value.id, false));
    }

    /** One round of the renewal thread: renew, then look for a cancellation. */
    method RenewRun(e: Execution, now: Time) returns (r: Execution)
      requires Valid() && LoopOk(State(), e)
      modifies this
      ensures Valid() && LoopOk(State(), r)
      ensures State() == RenewExecution(old(State()), e, now).0
      ensures r == if exists j :: IsLeaseOf(old(State()), j, e.row.id, e.row.tenant) && old(State()).leases[j].id != e.lease
                   then e.(lost := true)
                   else if Holds(old(State()), e.lease, e.job.id)
                           && e.job.id in old(jobs) && old(jobs)[e.job.id].status == Cancelling && e.job.status == Running
                   then e.(job := e.job.(status := Cancelling, cancelRequestedAt := Some(now)))
                   else e
    {
      RenewalKeepsLoop(State(), e, now);
      RoundAnswers(State(), e, now);
      var a := Renew(e.row.id, e.lease, e.row.tenant, now);
      r := e;
      if a == Raised(LeaseNotFound) {
        return e.(lost := true);
      }
      if a.Raised? {
        return;
      }
      ObserveKeeps(State(), e, now);
      if e.job.id in jobs && jobs[e.job.id].tenant == e.row.tenant && jobs[e.job.id].status == Cancelling {
        if e.job.status != Cancelling {
          match e.job.RequestCancellation(now) {
            case Err(_) => return;
            case Ok(job) => return e.(job := job);
          }
        }
      }
    }

    method FinishRun(e: Execution, outcome: Outcome, exit: Option<int>, now: Time) returns (a: Answer)
      requires Valid() && LoopOk(State(), e)
      modifies this
      ensures Valid() && Step(State(), a) == FinishExecution(old(State()), e, outcome, exit, now)
    {
      FinishExecutionKeeps(State(), e, outcome, exit, now);
      if e.lost {
        return Raised(LeaseLost);
      }
      match e.job.Conclude(outcome, exit, now) {
        case Err(err) => return Raised(err);
        case Ok(job) => a := FinishWith(e.row, job, e.lease, e.row.tenant, true);
      }
    }

    //
    // Workers
    //

    method Heartbeat(w: WorkerId, t: Tenant, now: Time) returns (a: Answer)
      requires Valid()
      modifies this
      ensures Valid() && Step(State(), a) == WorkerHeartbeat(old(State()), w, t, now)
    {
      WorkerHeartbeatKeeps(State(), w, t, now);
      var view := View(w);
      if view.None? || view.value.row.tenant != t || view.value.node.tenant != t {
        return Raised(WorkerNotFound);
      }
      var row := view.value.row;
      if view.value.job.None? {
        row := row.(runningJob := None);
      }
      row := row.Heartbeat(now);
      PutWorker(row);
      return AWorker(row);
    }

    /** Lease, node, job: the fixed order of reclaim_job. */
    method Reclaim(job: Job, node: Option<Node>, leaseDeleted: bool, now: Time) returns (reclaimed: bool)
      requires Ordered()
      modifies this
      ensures Ordered() && State() == ReclaimJob(old(State()), job, node, leaseDeleted, now)
      ensures node.Some? && node.value.id in old(nodes) ==> nodeOrder == old(nodeOrder)
      ensures workers == old(workers) && workerOrder == old(workerOrder)
      ensures reclaimed <==> IsActive(job.status)
    {
      if !leaseDeleted {
        Delete(job.id, job.tenant);
      }
      if node.Some? {
        PutNode(node.value.Release(job.resources));
      }
      match job.Reclaim(now) {
        case Err(_) => return false;
        case Ok(changed) =>
          PutJob(changed);
          return true;
      }
    }

    /** CreateWorkerService on the caller's copy of the node. The worker of a node that registers
        again keeps its id. */
    method CreateOn(node: Node, managedBy: ManagedBy, newId: WorkerId, now: Time) returns (a: Answer)
      requires Valid() && newId !in workers && NodeCopy(State(), node)
      modifies this
      ensures Ordered() && Step(State(), a) == CreateWorker(old(State()), node, managedBy, newId, now)
      ensures Good(old(State()), State(), None, now) <==> CopyServes(old(State()), node)
    {
      CreateIsLegalIff(State(), node, managedBy, newId, now);
      var existing := FindWorker(node.id, node.tenant);
      if existing.None? {
        var worker := NewWorker(newId, node, managedBy, now);
        PutWorker(worker);
        return AWorker(worker);
      }
      var view := View(existing.value);
      if view.None? {
        return Raised(WorkerNotFound);
      }
      if view.value.job.Some? {
        var _ := Reclaim(view.value.job.value, Some(node), false, now);
      }
      var freed := view.value.row.Freed().(managedBy := managedBy);
      PutWorker(freed);
      return AWorker(freed);
    }

    /** RegisterWorkerService on the caller's copy of the worker. */
    method MakeReady(worker: Worker, ghost now: Time) returns (a: Answer)
      requires Valid() && WorkerCopy(State(), worker)
      modifies this
      ensures Ordered() && Step(State(), a) == ReadyWorker(old(State()), worker)
      ensures Good(old(State()), State(), None, now) <==> old(workers)[worker.id].runningJob.None?
    {
      ReadyIsLegalIff(State(), worker, now);
      PutWorker(worker.(status := Idle));
      var view := View(worker.id);
      if view.None? || view.value.row.tenant != worker.tenant {
        return Raised(WorkerNotFound);
      }
      return AWorker(view.value.row);
    }

    //
    // Reconciliation
    //

    method ListLeases() returns (r: seq<Lease>)
      requires Valid()
      ensures Complete(State(), r)
    {
      r := [];
      for i := 0 to |leaseOrder|
        invariant AreRows(State(), r)
        invariant forall k :: 0 <= k < i ==> leaseOrder[k] in leases && leases[leaseOrder[k]] in r
      {
        var j := leaseOrder[i];
        assert j in leaseOrder;
        assert j in leases.Keys;
        r := r + [leases[j]];
      }
      forall j | j in leases ensures leases[j] in r {
        assert j in leaseOrder;
      }
    }

    method ListWorkers() returns (r: seq<WorkerView>)
      requires Valid()
      ensures AreCurrent(State(), r) && Distinct(r)
      ensures forall w :: w in workers ==> exists listed :: listed in r && listed.row.id == w
    {
      r := [];
      for i := 0 to |workerOrder|
        invariant |r| == i && AreCurrent(State(), r)
        invariant forall k :: 0 <= k < i ==> r[k].row.id == workerOrder[k]
      {
        assert workerOrder[i] in workerOrder;
        r := r + [View(workerOrder[i]).value];
      }
      forall w | w in workers ensures exists listed :: listed in r && listed.row.id == w {
        var k :| 0 <= k < |workerOrder| && workerOrder[k] == w;
        assert r[k] in r;
      }
    }

    method MarkIfDead(w: WorkerId, now: Time)
      requires Valid() && w in workers
      modifies `workers, `workerOrder
      ensures Valid() && State() == MarkDead(old(State()), w, now) && workers.Keys == old(workers).Keys
    {
      MarkDeadKeeps(State(), w, now);
      if !workers[w].IsAlive(now) {
        PutWorker(workers[w].GoOffline());
      }
    }

    method MarkDeadWorkers(now: Time)
      requires Valid()
      modifies `workers, `workerOrder
      ensures Valid() && State() == Swept(old(State()), old(workers).Keys, now)
    {
      var order := workerOrder;
      assert order[0..] == order;
      for i := 0 to |order|
        invariant Valid() && workers.Keys == old(workers).Keys
        invariant MarkAll(State(), order[i..], now) == MarkAll(old(State()), order, now)
      {
        assert order[i] in order && order[i..][0] == order[i] && order[i..][1..] == order[i + 1..];
        MarkIfDead(order[i], now);
      }
      SweepsAll(old(State()), order, now);
    }

    /** One listed lease of the pass: the delete is fenced, everything after it reads the tables. */
    method RecoverOne(lease: Lease, now: Time)
      requires Ordered() && KeysOk(State()) && WorkersOk(State())
      modifies this
      ensures Ordered() && State() == RecoverIfExpired(old(State()), lease, now)
    {
      if !lease.IsExpired(now) {
        return;
      }
      var deleted := DeleteIfExpired(lease.job, lease.tenant, now);
      if !deleted {
        return;
      }
      ghost var s1 := State();
      if lease.worker in workers && workers[lease.worker].tenant == lease.tenant {
        PutWorker(workers[lease.worker].Freed());
      }
      if lease.job !in jobs || jobs[lease.job].tenant != lease.tenant {
        return;
      }
      var job := jobs[lease.job];
      var node := None;
      if job.node.Some? && job.node.value in nodes && nodes[job.node.value].tenant == lease.tenant {
        node := Some(nodes[job.node.value]);
      }
      var _ := Reclaim(job, node, true, now);
    }

    /** The pass reclaims exactly the jobs whose lease is expired. */
    method RecoverExpired(now: Time)
      requires Valid()
      modifies this
      ensures Valid() && State() == Recovered(old(State()), ExpiredIn(old(State()), now), now)
    {
      var listing := ListLeases();
      ExpiredPassRecovers(State(), listing, now);
      CompleteListing(State(), listing, now);
      RecoveredNone(State(), now);
      ghost var gone: set<JobId> := {};
      assert listing[0..] == listing;
      for i := 0 to |listing|
        invariant Ordered() && State() == Recovered(old(State()), gone, now) && Inv(State())
        invariant ExpiredPass(State(), listing[i..], now) == ExpiredPass(old(State()), listing, now)
      {
        assert listing[i] in listing && listing[i..][0] == listing[i] && listing[i..][1..] == listing[i + 1..];
        ExpiredTurn(old(State()), gone, listing[i], now);
        RecoverOne(listing[i], now);
        gone := ExpiredAfter(gone, listing[i], now);
      }
    }

    /** One listed worker of the offline-node pass. */
    method RecoverOffline(listed: WorkerView, now: Time)
      requires Ordered()
      modifies this
      ensures Ordered() && State() == RecoverWorker(old(State()), listed, now)
    {
      if listed.job.None? {
        return;
      }
      var job := listed.job.value;
      var deleted := false;
      if job.id in leases && leases[job.id].tenant == job.tenant {
        if !leases[job.id].IsExpired(now) {
          return;
        }
        deleted := DeleteIfExpired(job.id, job.tenant, now);
        if !deleted {
          return;
        }
      }
      PutWorker(listed.row.Freed());
      var _ := Reclaim(job, Some(listed.node), deleted, now);
    }

    /** The pass reclaims exactly the jobs held on offline nodes under an expired lease. */
    method RecoverOfflineNodes(now: Time)
      requires Valid()
      modifies this
      ensures Valid() && State() == Recovered(old(State()), AbandonedIn(old(State()), now), now)
    {
      var listing := ListWorkers();
      var offline := set n | n in nodes && !nodes[n].IsAlive(now);
      ghost var gone: set<JobId> := {};
      RecoveredNone(State(), now);
      assert listing[0..] == listing;
      for i := 0 to |listing|
        invariant Ordered() && OfflineProgress(old(State()), State(), gone, listing[i..], now)
        invariant OfflinePass(State(), listing[i..], offline, now) == OfflinePass(old(State()), listing, offline, now)
      {
        assert listing[i..][0] == listing[i] && listing[i..][1..] == listing[i + 1..];
        OfflineProgresses(old(State()), State(), gone, listing[i..], offline, now);
        gone := GoneAfter(old(State()), gone, listing[i], offline, now);
        if listing[i].node.id in offline {
          RecoverOffline(listing[i], now);
        }
      }
      OfflinePassRecovers(old(State()), listing, offline, now);
      CompleteViews(old(State()), listing, now);
    }

    /** The cycle: dead workers are marked, and then exactly the expired leases are recovered. */
    method Reconcile(now: Time)
      requires Valid()
      modifies this
      ensures Valid()
      ensures State() == Recovered(Swept(old(State()), old(workers).Keys, now), ExpiredIn(old(State()), now), now)
    {
      MarkDeadWorkers(now);
      RecoverExpired(now);
      assert AbandonedIn(State(), now) == {};
      RecoveredNone(State(), now);
      RecoverOfflineNodes(now);
    }

    //
    // Utilization
    //

    /** What the tenant's nodes are missing, which is what its leased jobs asked for. */
    method Utilized(t: Tenant) returns (cpu: int, memory: int, vram: int)
      requires Valid()
      ensures cpu == HoldingTotal(State(), t, CPU, leaseOrder)
      ensures memory == HoldingTotal(State(), t, MEMORY, leaseOrder)
      ensures vram == HoldingTotal(State(), t, VRAM, leaseOrder)
    {
      ghost var s := State();
      cpu, memory, vram := 0, 0, 0;
      assert nodeOrder[0..] == nodeOrder;
      for i := 0 to |nodeOrder|
        invariant cpu + MissingTotal(s, t, CPU, nodeOrder[i..]) == MissingTotal(s, t, CPU, nodeOrder)
        invariant memory + MissingTotal(s, t, MEMORY, nodeOrder[i..]) == MissingTotal(s, t, MEMORY, nodeOrder)
        invariant vram + MissingTotal(s, t, VRAM, nodeOrder[i..]) == MissingTotal(s, t, VRAM, nodeOrder)
      {
        assert nodeOrder[i] in nodeOrder && nodeOrder[i..][1..] == nodeOrder[i + 1..];
        MissingFirst(s, t, CPU, nodeOrder[i..]);
        MissingFirst(s, t, MEMORY, nodeOrder[i..]);
        MissingFirst(s, t, VRAM, nodeOrder[i..]);
        var node := nodes[nodeOrder[i]];
        if node.tenant == t {
          cpu := cpu + node.capacity.cpu - node.available.cpu;
          memory := memory + node.capacity.memory - node.available.memory;
          vram := vram + node.capacity.vram - node.available.vram;
        }
      }
      SizesAreAdditive();
      UtilizationIsWhatJobsHold(s, t, CPU, nodeOrder, leaseOrder);
      UtilizationIsWhatJobsHold(s, t, MEMORY, nodeOrder, leaseOrder);
      UtilizationIsWhatJobsHold(s, t, VRAM, nodeOrder, leaseOrder);
    }
  }
}
