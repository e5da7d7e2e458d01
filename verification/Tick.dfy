/** The scheduler tick over all tenants (app/application/services/scheduler_loop_service.py). */
module Tick {
  import opened Options
  import opened Domain
  import opened Sequences
  import opened Scheduling
  import opened ClusterModel
  import opened Invariant
  import opened Steps
  import opened Tenancy

  //
  // The queue: queued jobs by priority, highest first, listing order among equals
  //

  function QueuedJobs(s: Cluster, listing: seq<JobId>): seq<Job> {
    if listing == [] then []
    else
      var rest := QueuedJobs(s, listing[1..]);
      if listing[0] in s.jobs && s.jobs[listing[0]].status == Queued then [s.jobs[listing[0]]] + rest else rest
  }

  function Urgency(job: Job): int {
    -job.priority
  }

  function Queue(s: Cluster, listing: seq<JobId>): seq<Job> {
    SortBy(Urgency, QueuedJobs(s, listing))
  }

  ghost predicate Descending(queue: seq<Job>) {
    forall i, k :: 0 <= i < k < |queue| ==> queue[i].priority >= queue[k].priority
  }

  lemma QueueSorts(s: Cluster, listing: seq<JobId>)
    ensures multiset(Queue(s, listing)) == multiset(QueuedJobs(s, listing)) && Descending(Queue(s, listing))
  {
    Sorts(Urgency, QueuedJobs(s, listing));
    var queue := Queue(s, listing);
    forall i, k | 0 <= i < k < |queue| ensures queue[i].priority >= queue[k].priority {
      assert Urgency(queue[i]) <= Urgency(queue[k]);
    }
  }

  lemma {:induction false} QueuedAreRows(s: Cluster, listing: seq<JobId>)
    requires KeysOk(s)
    ensures forall job :: job in QueuedJobs(s, listing) <==>
                            job.id in listing && job.id in s.jobs && s.jobs[job.id] == job && job.status == Queued
  {
    if listing != [] {
      QueuedAreRows(s, listing[1..]);
      var j := listing[0];
      assert j in s.jobs ==> s.jobs[j].id == j;
      assert listing == [j] + listing[1..];
    }
  }

  lemma {:induction false} QueuedInListingOrder(s: Cluster, listing: seq<JobId>, i: nat, k: nat)
    requires KeysOk(s) && i < k < |QueuedJobs(s, listing)|
    ensures Precedes(listing, QueuedJobs(s, listing)[i].id, QueuedJobs(s, listing)[k].id)
  {
    var queued, rest := QueuedJobs(s, listing), QueuedJobs(s, listing[1..]);
    var j := listing[0];
    var first := if j in s.jobs && s.jobs[j].status == Queued then 1 else 0;
    if first == 1 && i == 0 {
      QueuedAreRows(s, listing[1..]);
      assert queued[k] == rest[k - 1] && rest[k - 1] in rest && s.jobs[j].id == j;
      var b :| 0 <= b < |listing[1..]| && listing[1..][b] == queued[k].id;
      PrecedesIn(listing, j, queued[k].id, 0, b + 1);
    } else {
      QueuedInListingOrder(s, listing[1..], i - first, k - first);
      PrecedesLater(listing, queued[i].id, queued[k].id);
    }
  }

  lemma QueueInOrder(s: Cluster, listing: seq<JobId>, i: nat, k: nat)
    requires KeysOk(s) && i < k < |Queue(s, listing)|
    ensures var first, second := Queue(s, listing)[i], Queue(s, listing)[k];
            first.priority > second.priority || (first.priority == second.priority && Precedes(listing, first.id, second.id))
  {
    var queue, queued := Queue(s, listing), QueuedJobs(s, listing);
    QueueSorts(s, listing);
    if queue[i].priority == queue[k].priority {
      assert Urgency(queue[i]) == Urgency(queue[k]);
      SortKeepsOrder(Urgency, queued, i, k);
      var a, b :| 0 <= a < b < |queued| && queued[a] == queue[i] && queued[b] == queue[k];
      QueuedInListingOrder(s, listing, a, b);
    }
  }

  lemma QueuedOnce(s: Cluster, listing: seq<JobId>)
    requires KeysOk(s) && NoRepeats(listing)
    ensures NoRepeats(QueuedJobs(s, listing)) && NoRepeats(Queue(s, listing))
    ensures forall i, k :: 0 <= i < k < |Queue(s, listing)| ==> Queue(s, listing)[i].id != Queue(s, listing)[k].id
  {
    var queue, queued := Queue(s, listing), QueuedJobs(s, listing);
    forall i, k | 0 <= i < k < |queued| ensures queued[i] != queued[k] {
      QueuedInListingOrder(s, listing, i, k);
      NoRepeatsDiffer(listing, queued[i].id, queued[k].id);
    }
    QueueSorts(s, listing);
    SortKeepsNoRepeats(Urgency, queued);
    QueuedAreRows(s, listing);
    forall i, k | 0 <= i < k < |queue| ensures queue[i].id != queue[k].id {
      assert queue[i] in multiset(queue) && queue[k] in multiset(queue);
      assert queue[i] in queued && queue[k] in queued;
    }
  }

  /** The queue holds exactly the listed queued jobs, each once, highest priority first and in listing
      order among equals. */
  lemma QueueIsStable(s: Cluster, listing: seq<JobId>)
    requires KeysOk(s) && NoRepeats(listing)
    ensures forall j :: j in s.jobs ==> (s.jobs[j] in Queue(s, listing) <==> j in listing && s.jobs[j].status == Queued)
    ensures forall i :: 0 <= i < |Queue(s, listing)| ==>
              var job := Queue(s, listing)[i]; job.id in s.jobs && s.jobs[job.id] == job
    ensures forall i, k :: 0 <= i < k < |Queue(s, listing)| ==>
              var first, second := Queue(s, listing)[i], Queue(s, listing)[k];
              && first.id != second.id
              && (first.priority > second.priority || (first.priority == second.priority && Precedes(listing, first.id, second.id)))
  {
    var queue, queued := Queue(s, listing), QueuedJobs(s, listing);
    QueueSorts(s, listing);
    QueuedAreRows(s, listing);
    QueuedOnce(s, listing);
    forall job ensures job in queue <==> job in queued {
      assert job in queue <==> job in multiset(queue);
      assert job in queued <==> job in multiset(queued);
    }
    forall j | j in s.jobs ensures s.jobs[j] in queue <==> j in listing && s.jobs[j].status == Queued {
      assert s.jobs[j].id == j;
    }
    forall i, k | 0 <= i < k < |queue|
      ensures queue[i].priority > queue[k].priority
              || (queue[i].priority == queue[k].priority && Precedes(listing, queue[i].id, queue[k].id))
    {
      QueueInOrder(s, listing, i, k);
    }
  }

  //
  // The tick
  //

  /** Every queued job would get a lease id of its own that was never handed out. */
  ghost predicate FreshIds(s: Cluster, queue: seq<Job>, ids: JobId -> LeaseId) {
    && (forall i :: 0 <= i < |queue| ==> ids(queue[i].id) !in s.issued)
    && (forall i, k :: 0 <= i < k < |queue| ==> ids(queue[i].id) != ids(queue[k].id))
  }

  datatype Orders = Orders(nodes: seq<NodeId>, workers: seq<WorkerId>)

  ghost function ScheduleAll(s: Cluster, queue: seq<Job>, orders: Orders, ids: JobId -> LeaseId, now: Time): (r: Cluster)
    requires Inv(s) && FreshIds(s, queue, ids)
    ensures Inv(r)
    decreases |queue|
  {
    if queue == [] then s
    else
      TurnKeeps(s, queue, orders, ids, now);
      ScheduleAll(Turn(s, queue[0], orders, ids, now).state, queue[1..], orders, ids, now)
  }

  ghost function Turn(s: Cluster, job: Job, orders: Orders, ids: JobId -> LeaseId, now: Time): Placed
    requires Inv(s)
  {
    InvSound(s);
    ScheduleOne(s, job.id, orders.nodes, orders.workers, ids(job.id), now)
  }

  lemma TurnKeeps(s: Cluster, queue: seq<Job>, orders: Orders, ids: JobId -> LeaseId, now: Time)
    requires Inv(s) && queue != [] && FreshIds(s, queue, ids)
    ensures Inv(Turn(s, queue[0], orders, ids, now).state)
    ensures FreshIds(Turn(s, queue[0], orders, ids, now).state, queue[1..], ids)
    ensures Turn(s, queue[0], orders, ids, now).state.jobs.Keys == s.jobs.Keys
  {
    ScheduleOneGrants(s, queue[0].id, orders.nodes, orders.workers, ids(queue[0].id), now);
    ScheduleOneKeeps(s, queue[0].id, orders.nodes, orders.workers, ids(queue[0].id), now);
  }

  ghost function Tick(s: Cluster, listing: seq<JobId>, orders: Orders, ids: JobId -> LeaseId, now: Time): (r: Cluster)
    requires Inv(s) && FreshIds(s, Queue(s, listing), ids)
    ensures Inv(r)
  {
    ScheduleAll(s, Queue(s, listing), orders, ids, now)
  }

  //
  // A refused job leaves no trace
  //

  lemma {:induction false} SplitQueue(s: Cluster, first: seq<Job>, rest: seq<Job>, orders: Orders, ids: JobId -> LeaseId, now: Time)
    requires Inv(s) && FreshIds(s, first + rest, ids)
    ensures FreshIds(s, first, ids)
    ensures FreshIds(ScheduleAll(s, first, orders, ids, now), rest, ids)
    ensures ScheduleAll(s, first + rest, orders, ids, now)
            == ScheduleAll(ScheduleAll(s, first, orders, ids, now), rest, orders, ids, now)
    decreases |first|
  {
    var all := first + rest;
    assert forall i :: 0 <= i < |first| ==> all[i] == first[i];
    if first == [] {
      assert all == rest;
    } else {
      TurnKeeps(s, all, orders, ids, now);
      assert all[1..] == first[1..] + rest;
      SplitQueue(Turn(s, first[0], orders, ids, now).state, first[1..], rest, orders, ids, now);
    }
  }

  lemma FreshWithout(s: Cluster, before: seq<Job>, job: Job, after: seq<Job>, ids: JobId -> LeaseId)
    requires FreshIds(s, before + ([job] + after), ids)
    ensures FreshIds(s, before + after, ids)
  {
    var full, short := before + ([job] + after), before + after;
    forall i, k | 0 <= i < k < |short| ensures ids(short[i].id) != ids(short[k].id) {
      assert short[i] == full[if i < |before| then i else i + 1];
      assert short[k] == full[if k < |before| then k else k + 1];
    }
    forall i | 0 <= i < |short| ensures ids(short[i].id) !in s.issued {
      assert short[i] == full[if i < |before| then i else i + 1];
    }
  }

  lemma RefusedTurnIsNoTurn(s: Cluster, job: Job, after: seq<Job>, orders: Orders, ids: JobId -> LeaseId, now: Time)
    requires Inv(s) && FreshIds(s, [job] + after, ids) && FreshIds(s, after, ids)
    requires Turn(s, job, orders, ids, now).placement != Granted
    ensures ScheduleAll(s, [job] + after, orders, ids, now) == ScheduleAll(s, after, orders, ids, now)
  {
    assert ([job] + after)[0] == job && ([job] + after)[1..] == after;
    ScheduleOneGrants(s, job.id, orders.nodes, orders.workers, ids(job.id), now);
  }

  /** Dropping a job that is not placed from the queue changes nothing: the allocation it was
      given is undone exactly. */
  lemma RefusedJobLeavesNoTrace(s: Cluster, before: seq<Job>, job: Job, after: seq<Job>, orders: Orders,
                                ids: JobId -> LeaseId, now: Time)
    requires Inv(s) && FreshIds(s, before + ([job] + after), ids) && FreshIds(s, before, ids)
    requires Turn(ScheduleAll(s, before, orders, ids, now), job, orders, ids, now).placement != Granted
    ensures FreshIds(s, before + after, ids)
    ensures ScheduleAll(s, before + ([job] + after), orders, ids, now) == ScheduleAll(s, before + after, orders, ids, now)
  {
    FreshWithout(s, before, job, after, ids);
    SplitQueue(s, before, [job] + after, orders, ids, now);
    SplitQueue(s, before, after, orders, ids, now);
    RefusedTurnIsNoTurn(ScheduleAll(s, before, orders, ids, now), job, after, orders, ids, now);
  }

  //
  // Who is left queued
  //

  lemma TurnTouchesOneJob(s: Cluster, job: Job, orders: Orders, ids: JobId -> LeaseId, now: Time, j: JobId)
    requires Inv(s) && ids(job.id) !in s.issued && j in s.jobs && j != job.id
    ensures var s' := Turn(s, job, orders, ids, now).state;
            j in s'.jobs && s'.jobs[j] == s.jobs[j]
  {
    ScheduleOneGrants(s, job.id, orders.nodes, orders.workers, ids(job.id), now);
    assert job.id in s.jobs ==> s.jobs[job.id].id == job.id;
  }

  lemma {:induction false} OthersTakeNoTurn(s: Cluster, queue: seq<Job>, orders: Orders, ids: JobId -> LeaseId, now: Time, j: JobId)
    requires Inv(s) && FreshIds(s, queue, ids) && j in s.jobs && forall i :: 0 <= i < |queue| ==> queue[i].id != j
    ensures var s' := ScheduleAll(s, queue, orders, ids, now);
            j in s'.jobs && s'.jobs[j] == s.jobs[j]
    decreases |queue|
  {
    if queue != [] {
      TurnKeeps(s, queue, orders, ids, now);
      TurnTouchesOneJob(s, queue[0], orders, ids, now, j);
      OthersTakeNoTurn(Turn(s, queue[0], orders, ids, now).state, queue[1..], orders, ids, now, j);
    }
  }

  /** A turn leaves its job queued if no listed node is eligible or the selected one has no listed idle
      worker, and otherwise schedules it on the selected node. */
  lemma TurnPlacesIff(s: Cluster, job: Job, orders: Orders, ids: JobId -> LeaseId, now: Time)
    requires Inv(s) && ids(job.id) !in s.issued && job.id in s.jobs && s.jobs[job.id] == job && job.status == Queued
    ensures AllSound(NodesOf(s, orders.nodes))
    ensures var chosen := SelectNode(job, NodesOf(s, orders.nodes), now);
            var s' := Turn(s, job, orders, ids, now).state;
            && (chosen.Some? <==> SomeEligible(s, job, orders.nodes, now))
            && job.id in s'.jobs
            && s'.jobs[job.id] == if chosen.Some? && HasIdle(s, orders.workers, chosen.value.id)
                                  then job.(status := Scheduled, node := Some(chosen.value.id)) else job
  {
    ScheduleOneGrants(s, job.id, orders.nodes, orders.workers, ids(job.id), now);
    GrantedIff(s, job.id, orders.nodes, orders.workers, ids(job.id), now);
    ChosenIffEligible(s, job, orders.nodes, now);
  }

  lemma MiddleTurn(s: Cluster, before: seq<Job>, job: Job, after: seq<Job>, orders: Orders, ids: JobId -> LeaseId, now: Time)
    requires Inv(s) && FreshIds(s, before + ([job] + after), ids) && FreshIds(s, before, ids)
    requires job.id in s.jobs && s.jobs[job.id] == job
    requires forall other :: other in before || other in after ==> other.id != job.id
    ensures var at := ScheduleAll(s, before, orders, ids, now);
            && job.id in at.jobs && at.jobs[job.id] == job && ids(job.id) !in at.issued
            && var end := ScheduleAll(s, before + ([job] + after), orders, ids, now);
               job.id in end.jobs && job.id in Turn(at, job, orders, ids, now).state.jobs
               && end.jobs[job.id] == Turn(at, job, orders, ids, now).state.jobs[job.id]
  {
    var rest := [job] + after;
    SplitQueue(s, before, rest, orders, ids, now);
    OthersTakeNoTurn(s, before, orders, ids, now, job.id);
    var at := ScheduleAll(s, before, orders, ids, now);
    assert rest[0] == job && rest[1..] == after;
    TurnKeeps(at, rest, orders, ids, now);
    OthersTakeNoTurn(Turn(at, job, orders, ids, now).state, after, orders, ids, now, job.id);
  }

  /** The tables when the job at p has its turn. */
  ghost function AtTurn(s: Cluster, queue: seq<Job>, orders: Orders, ids: JobId -> LeaseId, now: Time, p: nat): (r: Cluster)
    requires Inv(s) && FreshIds(s, queue, ids) && p <= |queue|
    ensures Inv(r)
  {
    ScheduleAll(s, queue[..p], orders, ids, now)
  }

  lemma QueuedAt(s: Cluster, listing: seq<JobId>, j: JobId) returns (p: nat)
    requires KeysOk(s) && NoRepeats(listing) && j in listing && j in s.jobs && s.jobs[j].status == Queued
    ensures var queue := Queue(s, listing);
            && p < |queue| && queue[p] == s.jobs[j] && queue == queue[..p] + ([queue[p]] + queue[p + 1..])
            && forall other :: other in queue[..p] || other in queue[p + 1..] ==> other.id != j
  {
    var queue := Queue(s, listing);
    QueueIsStable(s, listing);
    p :| 0 <= p < |queue| && queue[p] == s.jobs[j];
    assert s.jobs[j].id == j;
    assert [queue[p]] + queue[p + 1..] == queue[p..];
  }

  /** After a tick a listed queued job is still queued if and only if, at its turn, no listed node was
      eligible or the selected one had no listed idle worker; otherwise it is scheduled there. */
  lemma LeftQueuedIff(s: Cluster, listing: seq<JobId>, orders: Orders, ids: JobId -> LeaseId, now: Time, j: JobId) returns (p: nat)
    requires Inv(s) && NoRepeats(listing) && FreshIds(s, Queue(s, listing), ids)
    requires j in listing && j in s.jobs && s.jobs[j].status == Queued
    ensures p < |Queue(s, listing)| && Queue(s, listing)[p] == s.jobs[j]
    ensures var at := AtTurn(s, Queue(s, listing), orders, ids, now, p);
            && AllSound(NodesOf(at, orders.nodes))
            && var chosen := SelectNode(s.jobs[j], NodesOf(at, orders.nodes), now);
               && (chosen.Some? <==> SomeEligible(at, s.jobs[j], orders.nodes, now))
               && j in Tick(s, listing, orders, ids, now).jobs
               && Tick(s, listing, orders, ids, now).jobs[j]
                  == if chosen.Some? && HasIdle(at, orders.workers, chosen.value.id)
                     then s.jobs[j].(status := Scheduled, node := Some(chosen.value.id)) else s.jobs[j]
  {
    p := QueuedAt(s, listing, j);
    var queue := Queue(s, listing);
    assert s.jobs[j].id == j;
    MiddleTurn(s, queue[..p], queue[p], queue[p + 1..], orders, ids, now);
    TurnPlacesIff(AtTurn(s, queue, orders, ids, now, p), s.jobs[j], orders, ids, now);
  }

  //
  // A tick over all tenants is a tick of each tenant
  //

  lemma {:induction false} NodesOfRestrict(s: Cluster, t: Tenant, order: seq<NodeId>)
    ensures NodesOf(Restrict(s, t), order) == Keep((node: Node) => node.tenant == t, NodesOf(s, order))
  {
    if order != [] {
      var last := |order| - 1;
      NodesOfRestrict(s, t, order[..last]);
      var front := NodesOf(s, order[..last]);
      if order[last] in s.nodes {
        KeepSnoc((node: Node) => node.tenant == t, front, s.nodes[order[last]]);
      } else {
        assert front + [] == front;
      }
    }
  }

  lemma {:induction false} FirstIdleRestrict(s: Cluster, t: Tenant, order: seq<WorkerId>, n: NodeId)
    requires Inv(s) && n in s.nodes && s.nodes[n].tenant == t
    ensures FirstIdle(Restrict(s, t), order, n) == FirstIdle(s, order, n)
  {
    if order != [] {
      FirstIdleRestrict(s, t, order[1..], n);
      var w := order[0];
      assert w in s.workers && s.workers[w].node == n ==> s.workers[w].tenant == t;
    }
  }

  lemma GrantToRestrict(s: Cluster, job: Job, node: Node, w: WorkerId, lid: LeaseId, now: Time, u: Tenant)
    requires Inv(s) && lid !in s.issued && CanPlace(s, job, node, now)
    requires w in s.workers && s.workers[w].node == node.id
    ensures w in Restrict(s, job.tenant).workers
    ensures Restrict(GrantTo(s, job, node, w, lid, now), u)
            == if u == job.tenant then GrantTo(Restrict(s, u), job, node, w, lid, now) else Restrict(s, u)
  {
    var row := s.workers[w].(runningJob := Some(job.id), status := Busy);
    var node1 := node.(available := node.available.Minus(job.resources));
    var job1 := job.(node := Some(node.id), status := Scheduled);
    var lease := NewLease(lid, w, job.id, job.tenant, now);
    var s1 := Issue(s, lid, job.id);
    var s2 := SaveLease(s1, lease);
    var s3 := SaveNode(s2, node1);
    var s4 := SaveWorker(s3, row);
    assert JobOk(s, job.id);
    assert job.id !in s.leases;
    IssueRestricts(s, lid, job.id, u);
    SaveLeaseRestricts(s1, lease, u);
    SaveNodeRestricts(s2, node1, u);
    SaveWorkerRestricts(s3, row, u);
    SaveJobRestricts(s4, job1, u);
    assert SaveJob(s4, job1) == GrantTo(s, job, node, w, lid, now);
  }

  /** One turn, seen by one tenant. */
  lemma TurnRestricts(s: Cluster, job: Job, orders: Orders, ids: JobId -> LeaseId, now: Time, t: Tenant)
    requires Inv(s) && ids(job.id) !in s.issued
    ensures Inv(Restrict(s, t))
    ensures Restrict(Turn(s, job, orders, ids, now).state, t) == Turn(Restrict(s, t), job, orders, ids, now).state
  {
    RestrictInv(s, t);
    var there := Restrict(s, t);
    ScheduleOneGrants(s, job.id, orders.nodes, orders.workers, ids(job.id), now);
    ScheduleOneGrants(there, job.id, orders.nodes, orders.workers, ids(job.id), now);
    if job.id in s.jobs && s.jobs[job.id].status == Queued {
      SameTurn(s, s.jobs[job.id], orders, ids(job.id), now, t);
    }
  }

  /** Foreign nodes are never chosen, so they may as well not be listed. */
  lemma SameChoice(s: Cluster, job: Job, order: seq<NodeId>, now: Time)
    requires NodesSound(s) && NodesSound(Restrict(s, job.tenant))
    ensures AllSound(NodesOf(s, order)) && AllSound(NodesOf(Restrict(s, job.tenant), order))
    ensures SelectNode(job, NodesOf(Restrict(s, job.tenant), order), now) == SelectNode(job, NodesOf(s, order), now)
  {
    NodesOfSound(s, order);
    NodesOfSound(Restrict(s, job.tenant), order);
    NodesOfRestrict(s, job.tenant, order);
    SelectIgnoresIneligible(job, NodesOf(s, order), now, (node: Node) => node.tenant == job.tenant);
  }

  lemma PlaceRestricts(s: Cluster, job: Job, node: Node, workerOrder: seq<WorkerId>, lid: LeaseId, now: Time, t: Tenant)
    requires Inv(s) && Inv(Restrict(s, t)) && lid !in s.issued && CanPlace(s, job, node, now)
    ensures Restrict(Place(s, job, node, workerOrder, lid, now).state, t)
            == if t == job.tenant then Place(Restrict(s, t), job, node, workerOrder, lid, now).state else Restrict(s, t)
  {
    PlaceGrants(s, job, node, workerOrder, lid, now);
    var w := FirstIdle(s, workerOrder, node.id);
    if w.Some? {
      GrantToRestrict(s, job, node, w.value, lid, now, t);
    }
    if job.tenant == t {
      FirstIdleRestrict(s, t, workerOrder, node.id);
      PlaceGrants(Restrict(s, t), job, node, workerOrder, lid, now);
    }
  }

  lemma SameTurn(s: Cluster, job: Job, orders: Orders, lid: LeaseId, now: Time, t: Tenant)
    requires Inv(s) && Inv(Restrict(s, t)) && NodesSound(s) && NodesSound(Restrict(s, t)) && lid !in s.issued
    requires job.id in s.jobs && s.jobs[job.id] == job && job.status == Queued
    ensures Restrict(ScheduleOne(s, job.id, orders.nodes, orders.workers, lid, now).state, t)
            == ScheduleOne(Restrict(s, t), job.id, orders.nodes, orders.workers, lid, now).state
  {
    NodesOfSound(s, orders.nodes);
    NodesOfRows(s, orders.nodes);
    var chosen := SelectNode(job, NodesOf(s, orders.nodes), now);
    if job.tenant == t {
      SameChoice(s, job, orders.nodes, now);
    }
    if chosen.Some? {
      PlaceRestricts(s, job, chosen.value, orders.workers, lid, now, t);
    }
  }

  lemma {:induction false} ScheduleAllRestricts(s: Cluster, queue: seq<Job>, orders: Orders, ids: JobId -> LeaseId, now: Time, t: Tenant)
    requires Inv(s) && FreshIds(s, queue, ids)
    ensures Inv(Restrict(s, t)) && FreshIds(Restrict(s, t), queue, ids)
    ensures Restrict(ScheduleAll(s, queue, orders, ids, now), t) == ScheduleAll(Restrict(s, t), queue, orders, ids, now)
    decreases |queue|
  {
    RestrictInv(s, t);
    if queue != [] {
      TurnKeeps(s, queue, orders, ids, now);
      TurnRestricts(s, queue[0], orders, ids, now, t);
      ScheduleAllRestricts(Turn(s, queue[0], orders, ids, now).state, queue[1..], orders, ids, now, t);
    }
  }

  /** Jobs without a row take no turn. */
  lemma {:induction false} ForeignJobsTakeNoTurn(s: Cluster, queue: seq<Job>, orders: Orders, ids: JobId -> LeaseId, now: Time, t: Tenant)
    requires Inv(s) && FreshIds(s, queue, ids)
    requires forall i :: 0 <= i < |queue| && queue[i].tenant != t ==> queue[i].id !in s.jobs
    ensures FreshIds(s, Keep((job: Job) => job.tenant == t, queue), ids)
    ensures ScheduleAll(s, queue, orders, ids, now)
            == ScheduleAll(s, Keep((job: Job) => job.tenant == t, queue), orders, ids, now)
    decreases |queue|
  {
    var mine := (job: Job) => job.tenant == t;
    KeepFresh(s, queue, ids, mine);
    if queue != [] {
      TurnKeeps(s, queue, orders, ids, now);
      ForeignJobsTakeNoTurn(Turn(s, queue[0], orders, ids, now).state, queue[1..], orders, ids, now, t);
      var kept := Keep(mine, queue[1..]);
      if mine(queue[0]) {
        assert ([queue[0]] + kept)[1..] == kept;
      } else {
        assert [] + kept == kept;
      }
    }
  }

  lemma {:induction false} KeepFresh(s: Cluster, queue: seq<Job>, ids: JobId -> LeaseId, p: Job -> bool)
    requires FreshIds(s, queue, ids)
    ensures FreshIds(s, Keep(p, queue), ids)
  {
    if queue != [] {
      KeepFresh(s, queue[1..], ids, p);
      var kept := Keep(p, queue[1..]);
      forall k | 0 <= k < |kept| ensures ids(kept[k].id) != ids(queue[0].id) {
        var m := KeepFrom(p, queue[1..], k);
        assert queue[m + 1] == kept[k];
      }
    }
  }

  lemma {:induction false} QueuedRestrict(s: Cluster, listing: seq<JobId>, t: Tenant)
    ensures QueuedJobs(Restrict(s, t), listing) == Keep((job: Job) => job.tenant == t, QueuedJobs(s, listing))
  {
    if listing != [] {
      QueuedRestrict(s, listing[1..], t);
      var j := listing[0];
      var rest := QueuedJobs(s, listing[1..]);
      if j in s.jobs && s.jobs[j].status == Queued {
        assert ([s.jobs[j]] + rest)[1..] == rest;
      }
    }
  }

  lemma ForeignJobsHaveNoRow(s: Cluster, listing: seq<JobId>, t: Tenant)
    requires KeysOk(s)
    ensures forall i :: 0 <= i < |Queue(s, listing)| && Queue(s, listing)[i].tenant != t ==>
                          Queue(s, listing)[i].id !in Restrict(s, t).jobs
  {
    var queue := Queue(s, listing);
    QueuedAreRows(s, listing);
    QueueSorts(s, listing);
    forall i | 0 <= i < |queue| && queue[i].tenant != t ensures queue[i].id !in Restrict(s, t).jobs {
      assert queue[i] in multiset(queue);
      assert queue[i] in QueuedJobs(s, listing);
    }
  }

  lemma QueueRestricts(s: Cluster, listing: seq<JobId>, t: Tenant)
    ensures Queue(Restrict(s, t), listing) == Keep((job: Job) => job.tenant == t, Queue(s, listing))
  {
    QueuedRestrict(s, listing, t);
    KeepSorted((job: Job) => job.tenant == t, Urgency, QueuedJobs(s, listing));
  }

  /** The tick over every tenant, restricted to one, is the tick on that tenant's rows alone. */
  lemma TickIsPerTenant(s: Cluster, listing: seq<JobId>, orders: Orders, ids: JobId -> LeaseId, now: Time, t: Tenant)
    requires Inv(s) && FreshIds(s, Queue(s, listing), ids)
    ensures Inv(Restrict(s, t)) && FreshIds(Restrict(s, t), Queue(Restrict(s, t), listing), ids)
    ensures Restrict(Tick(s, listing, orders, ids, now), t) == Tick(Restrict(s, t), listing, orders, ids, now)
  {
    var queue := Queue(s, listing);
    ScheduleAllRestricts(s, queue, orders, ids, now, t);
    ForeignJobsHaveNoRow(s, listing, t);
    ForeignJobsTakeNoTurn(Restrict(s, t), queue, orders, ids, now, t);
    QueueRestricts(s, listing, t);
  }
}
