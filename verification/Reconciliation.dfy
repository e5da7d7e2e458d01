/** Whole reconciliation passes and the cycle that runs them (app/application/reconciliation). */
module Reconciliation {
  import opened Options
  import opened Domain
  import opened ClusterModel
  import opened Invariant
  import opened Steps
  import opened ListedWorkers
  import opened Runs

  //
  // What recovering a set of jobs means, with no order in it
  //

  predicate HoldsOneOf(row: Worker, gone: set<JobId>) {
    row.runningJob.Some? && row.runningJob.value in gone
  }

  ghost predicate Frees(workers: map<WorkerId, Worker>, gone: set<JobId>, n: NodeId) {
    exists w :: w in workers && workers[w].node == n && HoldsOneOf(workers[w], gone)
  }

  ghost function Recovered(s: Cluster, gone: set<JobId>, now: Time): Cluster {
    Cluster(map j | j in s.jobs :: if j in gone then Reclaimed(s.jobs[j], now) else s.jobs[j],
            map w | w in s.workers :: if HoldsOneOf(s.workers[w], gone) then s.workers[w].Freed() else s.workers[w],
            map n | n in s.nodes :: if Frees(s.workers, gone, n) then Refilled(s.nodes[n]) else s.nodes[n],
            s.leases - gone,
            s.issued)
  }

  lemma RecoveredNone(s: Cluster, now: Time)
    ensures Recovered(s, {}, now) == s
  {
    var r := Recovered(s, {}, now);
    assert r.jobs == s.jobs && r.leases == s.leases;
    forall w | w in s.workers ensures r.workers[w] == s.workers[w] {
      assert !HoldsOneOf(s.workers[w], {});
    }
    assert r.workers == s.workers;
    forall n | n in s.nodes ensures r.nodes[n] == s.nodes[n] {
      assert !Frees(s.workers, {}, n);
    }
    assert r.nodes == s.nodes;
  }

  /** The rows of a job that is still held, in a partly recovered cluster. */
  lemma HeldRows(s: Cluster, gone: set<JobId>, j: JobId, now: Time)
    requires Inv(s) && j in s.leases && j !in gone
    ensures var c, w := Recovered(s, gone, now), s.leases[j].worker;
            && j in c.leases && c.leases[j] == s.leases[j]
            && j in s.jobs && j in c.jobs && c.jobs[j] == s.jobs[j]
            && w in s.workers && w in c.workers && c.workers[w] == s.workers[w] && s.workers[w].runningJob == Some(j)
            && s.workers[w].node in s.nodes && s.workers[w].node in c.nodes
            && c.nodes[s.workers[w].node] == s.nodes[s.workers[w].node]
  {
    assert LeaseOk(s, j);
  }

  lemma RecoveredStep(s: Cluster, gone: set<JobId>, j: JobId, now: Time)
    requires Inv(s) && j in s.leases && j !in gone
    ensures s.leases[j].worker in s.workers && j in s.jobs && s.workers[s.leases[j].worker].node in s.nodes
    ensures var row := s.workers[s.leases[j].worker];
            Settled(Recovered(s, gone, now), row.Freed(), Refilled(s.nodes[row.node]), Reclaimed(s.jobs[j], now))
            == Recovered(s, gone + {j}, now)
  {
    assert LeaseOk(s, j);
    var w := s.leases[j].worker;
    var c, more, r := Recovered(s, gone, now), gone + {j}, Recovered(s, gone + {j}, now);
    var row := s.workers[w];
    assert c.jobs[j := Reclaimed(s.jobs[j], now)] == r.jobs;
    forall v | v in s.workers ensures HoldsOneOf(s.workers[v], more) <==> HoldsOneOf(s.workers[v], gone) || v == w {
      if v != w && s.workers[v].runningJob.Some? {
        assert s.workers[v].runningJob.value != j;
      }
    }
    assert c.workers[w := row.Freed()] == r.workers;
    forall n | n in s.nodes ensures Frees(s.workers, more, n) <==> Frees(s.workers, gone, n) || n == row.node {
      if Frees(s.workers, gone, n) {
        var v :| v in s.workers && s.workers[v].node == n && HoldsOneOf(s.workers[v], gone);
        assert HoldsOneOf(s.workers[v], more);
      }
    }
    assert c.nodes[row.node := Refilled(s.nodes[row.node])] == r.nodes;
    assert c.leases - {j} == r.leases;
  }

  //
  // The expired-lease pass
  //

  function ExpiredPass(s: Cluster, listing: seq<Lease>, now: Time): Cluster
    decreases |listing|
  {
    if listing == [] then s else ExpiredPass(RecoverIfExpired(s, listing[0], now), listing[1..], now)
  }

  function ExpiredJobs(listing: seq<Lease>, now: Time): set<JobId> {
    set lease | lease in listing && lease.IsExpired(now) :: lease.job
  }

  ghost predicate AreRows(s: Cluster, listing: seq<Lease>) {
    forall lease :: lease in listing ==> lease.job in s.leases && s.leases[lease.job] == lease
  }

  lemma ExpiredTurn(s: Cluster, gone: set<JobId>, lease: Lease, now: Time)
    requires Inv(s) && Inv(Recovered(s, gone, now))
    requires lease.job in s.leases && s.leases[lease.job] == lease
    ensures RecoverIfExpired(Recovered(s, gone, now), lease, now)
            == Recovered(s, ExpiredAfter(gone, lease, now), now)
    ensures Inv(RecoverIfExpired(Recovered(s, gone, now), lease, now))
  {
    var c, j := Recovered(s, gone, now), lease.job;
    if lease.IsExpired(now) {
      if j in gone {
        assert gone + {j} == gone;
      } else {
        assert LeaseOk(s, j);
        HeldRows(s, gone, j, now);
        RecoverLeaseSettles(c, lease, now);
        RecoverLeaseKeeps(c, lease, now);
        RecoveredStep(s, gone, j, now);
      }
    }
  }

  ghost function ExpiredAfter(gone: set<JobId>, lease: Lease, now: Time): set<JobId> {
    if lease.IsExpired(now) then gone + {lease.job} else gone
  }

  lemma ExpiredFirst(gone: set<JobId>, listing: seq<Lease>, now: Time)
    requires listing != []
    ensures gone + ExpiredJobs(listing, now) == ExpiredAfter(gone, listing[0], now) + ExpiredJobs(listing[1..], now)
  {
    assert listing == [listing[0]] + listing[1..];
  }

  lemma {:induction false} ExpiredPassFrom(s: Cluster, gone: set<JobId>, listing: seq<Lease>, now: Time)
    requires Inv(s) && Inv(Recovered(s, gone, now)) && AreRows(s, listing)
    ensures ExpiredPass(Recovered(s, gone, now), listing, now) == Recovered(s, gone + ExpiredJobs(listing, now), now)
    ensures Inv(ExpiredPass(Recovered(s, gone, now), listing, now))
    decreases |listing|
  {
    if listing == [] {
      assert gone + ExpiredJobs(listing, now) == gone;
    } else {
      assert listing[0] in listing;
      ExpiredTurn(s, gone, listing[0], now);
      ExpiredPassFrom(s, ExpiredAfter(gone, listing[0], now), listing[1..], now);
      ExpiredFirst(gone, listing, now);
    }
  }

  /** One pass over any listing, in any order, recovers the jobs whose listed lease is expired,
      each once, and touches nothing else. */
  lemma ExpiredPassRecovers(s: Cluster, listing: seq<Lease>, now: Time)
    requires Inv(s) && AreRows(s, listing)
    ensures ExpiredPass(s, listing, now) == Recovered(s, ExpiredJobs(listing, now), now)
    ensures Inv(ExpiredPass(s, listing, now))
  {
    RecoveredNone(s, now);
    ExpiredPassFrom(s, {}, listing, now);
    assert {} + ExpiredJobs(listing, now) == ExpiredJobs(listing, now);
  }

  ghost predicate Complete(s: Cluster, listing: seq<Lease>) {
    AreRows(s, listing) && forall j :: j in s.leases ==> s.leases[j] in listing
  }

  ghost function ExpiredIn(s: Cluster, now: Time): set<JobId> {
    set j | j in s.leases && s.leases[j].IsExpired(now)
  }

  lemma CompleteListing(s: Cluster, listing: seq<Lease>, now: Time)
    requires KeysOk(s) && Complete(s, listing)
    ensures ExpiredJobs(listing, now) == ExpiredIn(s, now)
  {
    forall j | j in ExpiredIn(s, now) ensures j in ExpiredJobs(listing, now) {
      assert s.leases[j] in listing && s.leases[j].job == j;
    }
  }

  /** After a full pass no lease is expired, so another pass at that moment finds nothing. */
  lemma ExpiredPassIsIdempotent(s: Cluster, listing: seq<Lease>, again: seq<Lease>, now: Time)
    requires Inv(s) && Complete(s, listing)
    requires AreRows(ExpiredPass(s, listing, now), again)
    ensures ExpiredIn(ExpiredPass(s, listing, now), now) == {}
    ensures ExpiredPass(ExpiredPass(s, listing, now), again, now) == ExpiredPass(s, listing, now)
  {
    var r := ExpiredPass(s, listing, now);
    ExpiredPassRecovers(s, listing, now);
    CompleteListing(s, listing, now);
    ExpiredPassRecovers(r, again, now);
    RecoveredNone(r, now);
    assert ExpiredJobs(again, now) == {};
  }

  //
  // The offline-node pass, on workers listed once at its start
  //

  function OfflineTurn(s: Cluster, listed: WorkerView, offline: set<NodeId>, now: Time): Cluster {
    if listed.node.id in offline then RecoverWorker(s, listed, now) else s
  }

  ghost predicate AreCurrent(s: Cluster, listing: seq<WorkerView>) {
    forall listed :: listed in listing ==> IsCurrent(s, listed)
  }

  predicate Distinct(listing: seq<WorkerView>) {
    forall i, k :: 0 <= i < k < |listing| ==> listing[i].row.id != listing[k].row.id
  }

  /** Renewals, any number of them: the same leases up to their expiry, and nothing else. */
  ghost predicate OnlyRenewed(s: Cluster, s': Cluster) {
    && s' == s.(leases := s'.leases)
    && s'.leases.Keys == s.leases.Keys
    && forall j :: j in s.leases ==> s'.leases[j] == s.leases[j].(expiresAt := s'.leases[j].expiresAt)
  }

  lemma RenewalsKeep(s: Cluster, s': Cluster)
    requires Inv(s) && OnlyRenewed(s, s')
    ensures Inv(s')
  {
    forall j | j in s'.leases ensures LeaseOk(s', j) {
      assert LeaseOk(s, j);
    }
    forall j | j in s'.jobs ensures JobOk(s', j) {
      assert JobOk(s, j);
    }
    forall w | w in s'.workers && s'.workers[w].runningJob.Some?
      ensures Covers(s', w) && s'.workers[w].runningJob.value in s'.leases
      ensures s'.leases[s'.workers[w].runningJob.value].worker == w
    {
      var j := s.workers[w].runningJob.value;
      assert Covers(s, w);
      assert j in s.leases && s.leases[j].worker == w;
      assert s'.leases[j] == s.leases[j].(expiresAt := s'.leases[j].expiresAt);
    }
  }

  lemma OtherWorkersUntouched(s: Cluster, listed: WorkerView, other: WorkerView, offline: set<NodeId>, now: Time)
    requires Inv(s) && IsCurrent(s, listed) && IsCurrent(s, other) && other.row.id != listed.row.id
    ensures IsCurrent(OfflineTurn(s, listed, offline, now), other)
  {
    RecoverWorkerSettles(s, listed, now);
    if other.job.Some? && listed.job.Some? {
      CurrentHolds(s, other);
      CurrentHolds(s, listed);
    }
  }

  lemma TurnKeepsCurrent(s: Cluster, listed: WorkerView, offline: set<NodeId>, now: Time)
    requires Inv(s) && IsCurrent(s, listed)
    ensures Good(s, OfflineTurn(s, listed, offline, now), None, now)
  {
    if listed.node.id in offline {
      RecoverWorkerKeeps(s, listed, now);
    } else {
      Stutter(s, now);
    }
  }

  lemma TurnThenRenewals(s: Cluster, s': Cluster, listing: seq<WorkerView>, offline: set<NodeId>, now: Time)
    requires Inv(s) && listing != [] && AreCurrent(s, listing) && Distinct(listing)
    requires OnlyRenewed(OfflineTurn(s, listing[0], offline, now), s')
    ensures Inv(s') && AreCurrent(s', listing[1..])
  {
    assert listing[0] in listing;
    TurnKeepsCurrent(s, listing[0], offline, now);
    RenewalsKeep(OfflineTurn(s, listing[0], offline, now), s');
    forall listed | listed in listing[1..] ensures IsCurrent(s', listed) {
      var i :| 1 <= i < |listing| && listing[i] == listed;
      OtherWorkersUntouched(s, listing[0], listed, offline, now);
    }
  }

  /** A pass with renewals between its turns: before[k] and after[k] surround turn k. */
  ghost predicate IsOfflinePass(before: seq<Cluster>, after: seq<Cluster>, times: seq<Time>,
                                listing: seq<WorkerView>, offline: set<NodeId>)
  {
    && |before| == |after| == |times| == |listing|
    && (forall k :: 0 <= k < |before| ==> after[k] == OfflineTurn(before[k], listing[k], offline, times[k]))
    && (forall k :: 0 < k < |before| ==> OnlyRenewed(after[k - 1], before[k]))
  }

  /** However leases are renewed in between, every turn of the pass finds the rows it listed
      unchanged, so working from the listing is working from the tables. */
  lemma {:induction false} ListingStaysCurrent(before: seq<Cluster>, after: seq<Cluster>, times: seq<Time>,
                                               listing: seq<WorkerView>, offline: set<NodeId>, k: nat)
    requires IsOfflinePass(before, after, times, listing, offline) && k < |before|
    requires Inv(before[0]) && AreCurrent(before[0], listing) && Distinct(listing)
    ensures Inv(before[k]) && AreCurrent(before[k], listing[k..])
  {
    if k > 0 {
      ListingStaysCurrent(before, after, times, listing, offline, k - 1);
      TurnThenRenewals(before[k - 1], before[k], listing[k - 1..], offline, times[k - 1]);
      assert listing[k - 1..][1..] == listing[k..];
    }
  }

  lemma EveryTurnIsLegal(before: seq<Cluster>, after: seq<Cluster>, times: seq<Time>,
                         listing: seq<WorkerView>, offline: set<NodeId>, k: nat)
    requires IsOfflinePass(before, after, times, listing, offline) && k < |before|
    requires Inv(before[0]) && AreCurrent(before[0], listing) && Distinct(listing)
    ensures Good(before[k], after[k], None, times[k])
  {
    ListingStaysCurrent(before, after, times, listing, offline, k);
    assert listing[k] in listing[k..];
    TurnKeepsCurrent(before[k], listing[k], offline, times[k]);
  }

  function OfflinePass(s: Cluster, listing: seq<WorkerView>, offline: set<NodeId>, now: Time): Cluster
    decreases |listing|
  {
    if listing == [] then s
    else OfflinePass(OfflineTurn(s, listing[0], offline, now), listing[1..], offline, now)
  }

  /** The jobs held by listed workers on offline nodes whose lease is expired. */
  ghost function Abandoned(s: Cluster, listing: seq<WorkerView>, offline: set<NodeId>, now: Time): set<JobId> {
    set listed | listed in listing && IsAbandoned(s, listed, offline, now) :: listed.job.value.id
  }

  predicate IsAbandoned(s: Cluster, listed: WorkerView, offline: set<NodeId>, now: Time) {
    && listed.node.id in offline && listed.job.Some?
    && listed.job.value.id in s.leases && s.leases[listed.job.value.id].IsExpired(now)
  }

  lemma OfflineTurnRecovers(s: Cluster, gone: set<JobId>, listed: WorkerView, offline: set<NodeId>, now: Time)
    requires Inv(s) && Inv(Recovered(s, gone, now)) && IsCurrent(s, listed)
    requires listed.job.Some? ==> listed.job.value.id !in gone
    ensures OfflineTurn(Recovered(s, gone, now), listed, offline, now)
            == Recovered(s, GoneAfter(s, gone, listed, offline, now), now)
    ensures Inv(OfflineTurn(Recovered(s, gone, now), listed, offline, now))
  {
    var c := Recovered(s, gone, now);
    if listed.node.id in offline && listed.job.Some? {
      var j := listed.job.value.id;
      CurrentHolds(s, listed);
      HeldRows(s, gone, j, now);
      assert IsCurrent(c, listed);
      RecoverWorkerSettles(c, listed, now);
      RecoverWorkerKeeps(c, listed, now);
      RecoveredStep(s, gone, j, now);
    }
  }

  ghost predicate NotGone(listing: seq<WorkerView>, gone: set<JobId>) {
    forall listed :: listed in listing && listed.job.Some? ==> listed.job.value.id !in gone
  }

  ghost function GoneAfter(s: Cluster, gone: set<JobId>, listed: WorkerView, offline: set<NodeId>, now: Time): set<JobId> {
    if IsAbandoned(s, listed, offline, now) then gone + {listed.job.value.id} else gone
  }

  lemma RestNotGone(s: Cluster, gone: set<JobId>, listing: seq<WorkerView>, offline: set<NodeId>, now: Time)
    requires Inv(s) && listing != [] && AreCurrent(s, listing) && Distinct(listing) && NotGone(listing, gone)
    ensures AreCurrent(s, listing[1..]) && NotGone(listing[1..], GoneAfter(s, gone, listing[0], offline, now))
  {
    var first := listing[0];
    assert first in listing;
    forall listed | listed in listing[1..] && listed.job.Some?
      ensures listed.job.value.id !in GoneAfter(s, gone, first, offline, now)
    {
      var i :| 1 <= i < |listing| && listing[i] == listed;
      assert listed in listing;
      CurrentHolds(s, listed);
      if IsAbandoned(s, first, offline, now) {
        CurrentHolds(s, first);
      }
    }
  }

  lemma AbandonedFirst(s: Cluster, gone: set<JobId>, listing: seq<WorkerView>, offline: set<NodeId>, now: Time)
    requires listing != []
    ensures gone + Abandoned(s, listing, offline, now)
            == GoneAfter(s, gone, listing[0], offline, now) + Abandoned(s, listing[1..], offline, now)
  {
    assert listing == [listing[0]] + listing[1..];
  }

  lemma {:induction false} OfflinePassFrom(s: Cluster, gone: set<JobId>, listing: seq<WorkerView>, offline: set<NodeId>, now: Time)
    requires Inv(s) && Inv(Recovered(s, gone, now)) && AreCurrent(s, listing) && Distinct(listing) && NotGone(listing, gone)
    ensures OfflinePass(Recovered(s, gone, now), listing, offline, now)
            == Recovered(s, gone + Abandoned(s, listing, offline, now), now)
    ensures Inv(OfflinePass(Recovered(s, gone, now), listing, offline, now))
    decreases |listing|
  {
    if listing == [] {
      assert gone + Abandoned(s, listing, offline, now) == gone;
    } else {
      assert listing[0] in listing;
      OfflineTurnRecovers(s, gone, listing[0], offline, now);
      RestNotGone(s, gone, listing, offline, now);
      OfflinePassFrom(s, GoneAfter(s, gone, listing[0], offline, now), listing[1..], offline, now);
      AbandonedFirst(s, gone, listing, offline, now);
    }
  }

  /** The pass on its own recovers the abandoned jobs, each once, and touches nothing else. */
  lemma OfflinePassRecovers(s: Cluster, listing: seq<WorkerView>, offline: set<NodeId>, now: Time)
    requires Inv(s) && AreCurrent(s, listing) && Distinct(listing)
    ensures OfflinePass(s, listing, offline, now) == Recovered(s, Abandoned(s, listing, offline, now), now)
    ensures Inv(OfflinePass(s, listing, offline, now))
  {
    RecoveredNone(s, now);
    OfflinePassFrom(s, {}, listing, offline, now);
    assert {} + Abandoned(s, listing, offline, now) == Abandoned(s, listing, offline, now);
  }

  /** Where a pass that started in s stands: some jobs gone, and the rest of its listing ahead. */
  ghost predicate OfflineProgress(s: Cluster, c: Cluster, gone: set<JobId>, rest: seq<WorkerView>, now: Time) {
    && Inv(s) && c == Recovered(s, gone, now) && Inv(c)
    && AreCurrent(s, rest) && Distinct(rest) && NotGone(rest, gone)
  }

  lemma OfflineProgresses(s: Cluster, c: Cluster, gone: set<JobId>, rest: seq<WorkerView>, offline: set<NodeId>, now: Time)
    requires OfflineProgress(s, c, gone, rest, now) && rest != []
    ensures OfflineProgress(s, OfflineTurn(c, rest[0], offline, now), GoneAfter(s, gone, rest[0], offline, now), rest[1..], now)
  {
    assert rest[0] in rest;
    OfflineTurnRecovers(s, gone, rest[0], offline, now);
    RestNotGone(s, gone, rest, offline, now);
  }

  /** The jobs held on offline nodes whose lease is expired. */
  ghost function AbandonedIn(s: Cluster, now: Time): set<JobId> {
    set j | j in s.leases && s.leases[j].IsExpired(now) && s.leases[j].worker in s.workers
            && s.workers[s.leases[j].worker].node in OfflineNodes(s, now)
  }

  lemma CompleteViews(s: Cluster, listing: seq<WorkerView>, now: Time)
    requires Inv(s) && AreCurrent(s, listing)
    requires forall w :: w in s.workers ==> exists listed :: listed in listing && listed.row.id == w
    ensures Abandoned(s, listing, OfflineNodes(s, now), now) == AbandonedIn(s, now)
  {
    var offline := OfflineNodes(s, now);
    forall j | j in Abandoned(s, listing, offline, now) ensures j in AbandonedIn(s, now) {
      var listed :| listed in listing && IsAbandoned(s, listed, offline, now) && listed.job.value.id == j;
      CurrentHolds(s, listed);
    }
    forall j | j in AbandonedIn(s, now) ensures j in Abandoned(s, listing, offline, now) {
      assert LeaseOk(s, j) && s.jobs[j].id == j;
      var listed :| listed in listing && listed.row.id == s.leases[j].worker;
      assert IsCurrent(s, listed);
      assert IsAbandoned(s, listed, offline, now);
    }
  }

  //
  // The cycle: mark dead workers, recover expired leases, recover offline nodes
  //

  function MarkAll(s: Cluster, order: seq<WorkerId>, now: Time): Cluster
    decreases |order|
  {
    if order == [] then s else MarkAll(MarkDead(s, order[0], now), order[1..], now)
  }

  ghost function Swept(s: Cluster, seen: set<WorkerId>, now: Time): Cluster {
    s.(workers := map w | w in s.workers ::
         if w in seen && !s.workers[w].IsAlive(now) then s.workers[w].GoOffline() else s.workers[w])
  }

  lemma {:induction false} MarkAllSweeps(s: Cluster, seen: set<WorkerId>, order: seq<WorkerId>, now: Time)
    requires Inv(s)
    ensures MarkAll(Swept(s, seen, now), order, now) == Swept(s, seen + (set w | w in order), now)
    ensures Inv(Swept(s, seen, now)) ==> Inv(MarkAll(Swept(s, seen, now), order, now))
    decreases |order|
  {
    var all := seen + (set w | w in order);
    if order == [] {
      assert all == seen;
    } else {
      var w := order[0];
      assert Swept(s, seen + {w}, now).workers == MarkDead(Swept(s, seen, now), w, now).workers;
      MarkAllSweeps(s, seen + {w}, order[1..], now);
      assert order == [w] + order[1..];
      assert all == (seen + {w}) + (set v | v in order[1..]);
      if Inv(Swept(s, seen, now)) {
        MarkDeadKeeps(Swept(s, seen, now), w, now);
      }
    }
  }

  /** A cycle in which nothing else happens sweeps the dead workers and recovers exactly the
      expired leases: every job an offline node holds has a lease, so the last pass finds only
      live ones. */
  lemma CycleRecovers(s: Cluster, order: seq<WorkerId>, leases: seq<Lease>, views: seq<WorkerView>, offline: set<NodeId>, now: Time)
    requires Inv(s)
    requires Complete(MarkAll(s, order, now), leases)
    requires AreCurrent(ExpiredPass(MarkAll(s, order, now), leases, now), views) && Distinct(views)
    ensures OfflinePass(ExpiredPass(MarkAll(s, order, now), leases, now), views, offline, now)
            == Recovered(Swept(s, (set w | w in order), now), ExpiredIn(s, now), now)
  {
    var all := set w | w in order;
    assert Swept(s, {}, now).workers == s.workers;
    assert {} + all == all;
    MarkAllSweeps(s, {}, order, now);
    var marked := MarkAll(s, order, now);
    ExpiredPassRecovers(marked, leases, now);
    CompleteListing(marked, leases, now);
    ExpiredPassIsIdempotent(marked, leases, [], now);
    var left := ExpiredPass(marked, leases, now);
    OfflinePassRecovers(left, views, offline, now);
    RecoveredNone(left, now);
    forall listed ensures !IsAbandoned(left, listed, offline, now) {
      assert listed.job.Some? ==> listed.job.value.id !in ExpiredIn(left, now);
    }
    assert Abandoned(left, views, offline, now) == {};
  }

  /** A dead worker ends the cycle offline if and only if it did not hold an expired lease:
      recovery frees the one that did, and it reads idle until the next cycle. */
  lemma DeadWorkerReadsOffline(s: Cluster, seen: set<WorkerId>, w: WorkerId, now: Time)
    requires Inv(s) && w in seen && w in s.workers && !s.workers[w].IsAlive(now)
    ensures Recovered(Swept(s, seen, now), ExpiredIn(s, now), now).workers[w].status
            == if HoldsOneOf(s.workers[w], ExpiredIn(s, now)) then Idle else Offline
  {
  }
}
