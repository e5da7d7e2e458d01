/** The offline-node pass on a worker it listed some time ago
(app/application/reconciliation/recover_offline_node_service.py): what stays true of the listed rows,
and which turns on them are still legal steps. */
module ListedWorkers {
  import opened Options
  import opened Domain
  import opened ClusterModel
  import opened Invariant
  import opened Steps

  ghost predicate IsCurrent(s: Cluster, listed: WorkerView) {
    LoadWorker(s, listed.row.id) == Some(listed)
  }

  ghost function OfflineNodes(s: Cluster, now: Time): set<NodeId> {
    set n | n in s.nodes && !s.nodes[n].IsAlive(now)
  }

  /** The workers of some nodes, with their node and job, as the pass lists them. */
  ghost function WorkersOn(s: Cluster, nodes: set<NodeId>): set<WorkerView> {
    set w | w in s.workers && s.workers[w].node in nodes && LoadWorker(s, w).Some? :: LoadWorker(s, w).value
  }

  lemma CurrentHolds(s: Cluster, listed: WorkerView)
    requires Inv(s) && IsCurrent(s, listed) && listed.job.Some?
    ensures var j := listed.job.value.id;
            && s.workers[listed.row.id].runningJob == Some(j)
            && j in s.jobs && s.jobs[j] == listed.job.value
            && j in s.leases && s.leases[j].worker == listed.row.id
  {
    var j := s.workers[listed.row.id].runningJob.value;
    assert s.jobs[j].id == j;
  }

  //
  // What stays true of listed rows
  //

  /** A listed job was under a lease: active, or cancelled before it started. */
  ghost predicate ListedJobOk(listed: WorkerView) {
    && listed.job.Some?
    && var job := listed.job.value;
       && Stamped(job) && RetriesOk(job) && (IsActive(job.status) || job.status == Cancelled)
       && job.node == Some(listed.node.id)
       && listed.row.node == listed.node.id
       && listed.node.capacity == listed.node.available.Plus(job.resources)
  }

  /** What stays true whatever happens. A cancelled job does not change again. */
  ghost predicate Remembered(s: Cluster, listed: WorkerView) {
    && ListedJobOk(listed)
    && var job, w, n := listed.job.value, listed.row.id, listed.node.id;
       && w in s.workers && s.workers[w].node == n && s.workers[w].tenant == listed.row.tenant
       && n in s.nodes && s.nodes[n].tenant == listed.node.tenant && s.nodes[n].capacity == listed.node.capacity
       && job.id in s.jobs && SameIdentity(job, s.jobs[job.id]) && s.jobs[job.id].status != Submitted
       && (if job.status == Cancelled then s.jobs[job.id] == job
           else |LeaseIdsOf(s.issued, job.id)| >= job.retryCount + 1)
  }

  /** The states a held job can reach. */
  predicate Later(from: Status, next: Status) {
    || (from == Scheduled && next in {Running, Cancelling, Cancelled})
    || (from == Running && next == Cancelling)
  }

  /** The job is still, or again, under a lease, with no retry used since the listing. */
  ghost predicate StillHeld(s: Cluster, job: Job) {
    job.id in s.leases && job.id in s.jobs && s.jobs[job.id].retryCount == job.retryCount
  }

  /** Then it is under the lease it was listed with, and has at most been started or cancelled. */
  ghost predicate OnlyAged(s: Cluster, listed: WorkerView)
    requires listed.job.Some? && StillHeld(s, listed.job.value)
  {
    var job := listed.job.value;
    s.leases[job.id].worker == listed.row.id && (s.jobs[job.id] == job || Later(job.status, s.jobs[job.id].status))
  }

  ghost predicate ViewOk(s: Cluster, listed: WorkerView) {
    listed.job.Some? ==>
      Remembered(s, listed) && (StillHeld(s, listed.job.value) ==> OnlyAged(s, listed))
  }

  lemma CurrentIsOk(s: Cluster, listed: WorkerView)
    requires Inv(s) && IsCurrent(s, listed)
    ensures ViewOk(s, listed)
  {
    if listed.job.Some? {
      CurrentHolds(s, listed);
      var j := listed.job.value.id;
      assert LeaseOk(s, j) && JobOk(s, j) && Covers(s, listed.row.id);
    }
  }

  lemma MoreLeaseIds(issued: map<LeaseId, JobId>, issued': map<LeaseId, JobId>, j: JobId)
    requires forall l :: l in issued ==> l in issued' && issued'[l] == issued[l]
    ensures |LeaseIdsOf(issued, j)| <= |LeaseIdsOf(issued', j)|
    ensures forall l :: l in issued' && l !in issued && issued'[l] == j ==>
                          |LeaseIdsOf(issued, j)| < |LeaseIdsOf(issued', j)|
  {
    var before, after := LeaseIdsOf(issued, j), LeaseIdsOf(issued', j);
    forall l | l in before ensures l in after {
      assert l in issued;
    }
    assert after == before + (after - before);
    forall l | l in issued' && l !in issued && issued'[l] == j ensures |before| < |after| {
      assert l in after - before;
    }
  }

  lemma RememberedStays(s: Cluster, s': Cluster, listed: WorkerView, retried: Option<JobId>, now: Time)
    requires Evolves(s, s', retried, now) && Remembered(s, listed)
    ensures Remembered(s', listed)
  {
    MoreLeaseIds(s.issued, s'.issued, listed.job.value.id);
  }

  /** A cancelled job that has a lease has the one it was listed with: its row names the node, and a
      node has one worker. */
  lemma CancelledStaysWithItsWorker(s: Cluster, listed: WorkerView)
    requires Inv(s) && Remembered(s, listed) && listed.job.value.status == Cancelled && listed.job.value.id in s.leases
    ensures s.leases[listed.job.value.id].worker == listed.row.id
  {
    assert LeaseOk(s, listed.job.value.id);
  }

  /** A lease granted since the listing cost a retry. */
  lemma LaterLeaseCostARetry(s: Cluster, s': Cluster, listed: WorkerView, retried: Option<JobId>, now: Time)
    requires Good(s, s', retried, now) && Remembered(s, listed) && listed.job.value.status != Cancelled
    requires var j := listed.job.value.id; j in s'.leases && s'.leases[j].id !in s.issued
    ensures !StillHeld(s', listed.job.value)
  {
    var j := listed.job.value.id;
    assert LeaseOk(s', j) && JobOk(s', j);
    MoreLeaseIds(s.issued, s'.issued, j);
  }

  /** Whatever happens to the cluster, what is known of listed rows stays true. */
  lemma ViewOkStays(s: Cluster, s': Cluster, listed: WorkerView, retried: Option<JobId>, now: Time)
    requires Good(s, s', retried, now) && ViewOk(s, listed)
    ensures ViewOk(s', listed)
  {
    if listed.job.Some? {
      RememberedStays(s, s', listed, retried, now);
      var job := listed.job.value;
      if StillHeld(s', job) {
        assert LeaseEvolves(s, s', job.id, now);
        if job.status == Cancelled {
          CancelledStaysWithItsWorker(s', listed);
        } else if s'.leases[job.id].id !in s.issued {
          LaterLeaseCostARetry(s, s', listed, retried, now);
          assert false;
        }
      }
    }
  }

  //
  // Which turns are legal
  //

  /** What the turn writes over a held job: a start since the listing may be forgotten by a job that
      goes back to the queue, and nothing else may have happened. */
  predicate CanForget(listed: Job, current: Job) {
    || current == listed
    || (current.status == Running && current.retryCount == listed.retryCount && listed.CanRetry())
  }

  /** The turn writes the listed node back too, which must not undo a drain. */
  predicate KeepsDrain(s: Cluster, listed: WorkerView) {
    listed.node.id in s.nodes && s.nodes[listed.node.id].draining ==> listed.node.draining
  }

  /** A job with a retry left is back in the queue with that one retry used: so at any later time,
      until it is granted again. Any other job ended at this very instant, failed or cancelled
      without an exit code, with the start and the request it was listed with; unless it was listed
      cancelled, which nothing changes. */
  predicate WentTheSameWay(current: Job, listed: Job, now: Time) {
    if listed.status == Cancelled then current.status == Cancelled
    else if listed.status != Cancelling && listed.CanRetry() then
      current.status == Queued && current.retryCount == listed.retryCount + 1
    else
      && current.status == (if listed.status == Cancelling then Cancelled else Failed)
      && current.completedAt == Some(now) && current.exitCode.None? && current.node.None?
      && current.retryCount == listed.retryCount
      && current.startedAt == listed.startedAt && current.cancelRequestedAt == listed.cancelRequestedAt
  }

  /** The worker is free, its node was not drained since, and the job has already gone the way the
      pass would send it. */
  predicate AlreadyRecovered(s: Cluster, listed: WorkerView, now: Time) {
    && listed.row.id in s.workers && s.workers[listed.row.id].runningJob.None?
    && KeepsDrain(s, listed)
    && listed.job.Some? && listed.job.value.id in s.jobs
    && WentTheSameWay(s.jobs[listed.job.value.id], listed.job.value, now)
  }

  /** What a turn would have to look up. */
  predicate TurnIsLegal(s: Cluster, listed: WorkerView, now: Time) {
    listed.job.Some? ==>
      var j := listed.job.value.id;
      if j !in s.leases then AlreadyRecovered(s, listed, now)
      else s.leases[j].IsExpired(now) ==>
        j in s.jobs && CanForget(listed.job.value, s.jobs[j]) && KeepsDrain(s, listed)
  }

  lemma ExpiredTurnSettles(s: Cluster, listed: WorkerView, now: Time)
    requires Inv(s) && Remembered(s, listed)
    requires var j := listed.job.value.id; j in s.leases && s.leases[j].IsExpired(now)
    ensures RecoverWorker(s, listed, now)
            == Settled(s, listed.row.Freed(), Refilled(listed.node), Reclaimed(listed.job.value, now))
  {
    var job := listed.job.value;
    assert LeaseOk(s, job.id);
    assert listed.node.Release(job.resources) == Refilled(listed.node);
    assert s.jobs[job.id := s.jobs[job.id]] == s.jobs;
  }

  lemma ForgettingKeeps(s: Cluster, listed: WorkerView, now: Time)
    requires Inv(s) && ViewOk(s, listed) && listed.job.Some? && listed.job.value.id in s.leases
    requires CanForget(listed.job.value, s.jobs[listed.job.value.id]) && KeepsDrain(s, listed)
    ensures Good(s, Settled(s, listed.row.Freed(), Refilled(listed.node), Reclaimed(listed.job.value, now)), None, now)
  {
    var job := listed.job.value;
    assert LeaseOk(s, job.id) && JobOk(s, job.id);
    SettleKeeps(s, listed.row.Freed(), Refilled(listed.node), Reclaimed(job, now), now);
  }

  /** A turn that finds the job under an expired lease is a legal step if and only if the job is as
      listed, or was only started since and still has a retry, and the node was not drained since.
      The pass would write over a cancellation, over the start of a job that fails, over a later
      lease and over a drain. */
  lemma TurnIsLegalIffOnlyStarted(s: Cluster, listed: WorkerView, now: Time)
    requires Inv(s) && ViewOk(s, listed) && listed.job.Some?
    requires var j := listed.job.value.id; j in s.leases && s.leases[j].IsExpired(now)
    ensures Good(s, RecoverWorker(s, listed, now), None, now)
            <==> CanForget(listed.job.value, s.jobs[listed.job.value.id]) && KeepsDrain(s, listed)
  {
    var job := listed.job.value;
    ExpiredTurnSettles(s, listed, now);
    var s' := RecoverWorker(s, listed, now);
    if !KeepsDrain(s, listed) {
      assert !s'.nodes[listed.node.id].draining;
    } else if CanForget(job, s.jobs[job.id]) {
      ForgettingKeeps(s, listed, now);
    } else {
      assert LeaseOk(s, job.id) && JobOk(s, job.id);
      assert s'.jobs[job.id] == Reclaimed(job, now);
      assert !JobEvolves(s.jobs[job.id], s'.jobs[job.id], false, now);
    }
  }

  /** So a turn that finds the job under a later lease, for which it used a retry, breaks the books. */
  lemma TurnOnLaterLeaseIsIllegal(s: Cluster, listed: WorkerView, now: Time)
    requires Inv(s) && ViewOk(s, listed) && listed.job.Some?
    requires var j := listed.job.value.id;
             j in s.leases && s.leases[j].IsExpired(now) && s.jobs[j].retryCount != listed.job.value.retryCount
    ensures !Good(s, RecoverWorker(s, listed, now), None, now)
  {
    TurnIsLegalIffOnlyStarted(s, listed, now);
  }

  lemma SameWayIffSameRow(s: Cluster, listed: WorkerView, now: Time)
    requires Inv(s) && Remembered(s, listed)
    ensures WentTheSameWay(s.jobs[listed.job.value.id], listed.job.value, now)
            <==> s.jobs[listed.job.value.id] == Reclaimed(listed.job.value, now)
  {
    assert JobOk(s, listed.job.value.id);
  }

  function WrittenBack(s: Cluster, listed: WorkerView, now: Time): Cluster
    requires listed.job.Some?
  {
    SaveJob(SaveNode(SaveWorker(s, listed.row.Freed()), Refilled(listed.node)), Reclaimed(listed.job.value, now))
  }

  lemma UnleasedTurnWritesBack(s: Cluster, listed: WorkerView, now: Time)
    requires Remembered(s, listed) && listed.job.value.id !in s.leases
    ensures RecoverWorker(s, listed, now) == WrittenBack(s, listed, now)
  {
    var job := listed.job.value;
    assert listed.node.Release(job.resources) == Refilled(listed.node);
    assert s.jobs[job.id := s.jobs[job.id]] == s.jobs;
  }

  lemma BooksKeep(s: Cluster, row: Worker, node: Node)
    requires Inv(s) && row.id in s.workers && row.node == s.workers[row.id].node && row.tenant == s.workers[row.id].tenant
    requires s.workers[row.id].runningJob.None? && row.runningJob.None? && node.id == row.node && node.id in s.nodes
    requires node.tenant == s.nodes[node.id].tenant && node.capacity == s.nodes[node.id].capacity == node.available
    ensures Inv(SaveNode(SaveWorker(s, row), node))
  {
    WorkerEdit(s, row);
    assert Vacant(s.workers, node.id);
    NodeSave(SaveWorker(s, row), node);
  }

  lemma BooksEvolve(s: Cluster, row: Worker, node: Node, now: Time)
    requires LeasedRows(s) && row.id in s.workers && node.id in s.nodes
    requires row.node == s.workers[row.id].node && row.tenant == s.workers[row.id].tenant
    requires node.tenant == s.nodes[node.id].tenant && node.capacity == s.nodes[node.id].capacity
    requires s.nodes[node.id].draining ==> node.draining
    ensures Evolves(s, SaveNode(SaveWorker(s, row), node), None, now)
  {
  }

  lemma WritingBackKeeps(s: Cluster, listed: WorkerView, now: Time)
    requires Inv(s) && Remembered(s, listed) && listed.job.value.id !in s.leases && AlreadyRecovered(s, listed, now)
    ensures Good(s, WrittenBack(s, listed, now), None, now)
  {
    var j, books := listed.job.value.id, SaveNode(SaveWorker(s, listed.row.Freed()), Refilled(listed.node));
    assert s.jobs[j].id == j && s.workers[listed.row.id].id == listed.row.id;
    SameWayIffSameRow(s, listed, now);
    BooksKeep(s, listed.row.Freed(), Refilled(listed.node));
    BooksEvolve(s, listed.row.Freed(), Refilled(listed.node), now);
    assert s.jobs[j := s.jobs[j]] == s.jobs;
    assert WrittenBack(s, listed, now) == books;
  }

  lemma OtherwiseWritingBackBreaks(s: Cluster, listed: WorkerView, now: Time)
    requires Inv(s) && Remembered(s, listed) && listed.job.value.id !in s.leases && !AlreadyRecovered(s, listed, now)
    ensures !Good(s, WrittenBack(s, listed, now), None, now)
  {
    var s', j, w := WrittenBack(s, listed, now), listed.job.value.id, listed.row.id;
    assert JobOk(s, j);
    SameWayIffSameRow(s, listed, now);
    var held := s.workers[w].runningJob;
    if !KeepsDrain(s, listed) {
      assert !s'.nodes[listed.node.id].draining;
    } else if held.Some? {
      assert held.value in s'.leases && s'.leases[held.value].worker == w;
      assert !LeaseOk(s', held.value);
    } else if JobOk(s', j) {
      assert !JobEvolves(s.jobs[j], s'.jobs[j], false, now);
    }
  }

  /** Once the listed job has no lease, someone has settled it, and the turn writes old copies back.
      That is a legal step if and only if the job has already gone the same way and nothing was
      granted or drained since. A job without a retry left must have ended at this very instant; a
      turn any later writes over its end, and always over a completion. A job listed cancelled keeps
      its row, but its worker may hold another by now. */
  lemma TurnIsLegalIffAlreadyRecovered(s: Cluster, listed: WorkerView, now: Time)
    requires Inv(s) && Remembered(s, listed) && listed.job.value.id !in s.leases
    ensures Good(s, RecoverWorker(s, listed, now), None, now) <==> AlreadyRecovered(s, listed, now)
    ensures Good(s, RecoverWorker(s, listed, now), None, now) ==>
              || listed.job.value.status == Cancelled
              || s.jobs[listed.job.value.id].status == Queued || s.jobs[listed.job.value.id].completedAt == Some(now)
    ensures s.jobs[listed.job.value.id].status == Completed ==> !Good(s, RecoverWorker(s, listed, now), None, now)
  {
    UnleasedTurnWritesBack(s, listed, now);
    if AlreadyRecovered(s, listed, now) {
      WritingBackKeeps(s, listed, now);
    } else {
      OtherwiseWritingBackBreaks(s, listed, now);
    }
  }

  /** Every listed worker, after any delay. */
  lemma TurnIsLegalIff(s: Cluster, listed: WorkerView, now: Time)
    requires Inv(s) && ViewOk(s, listed)
    ensures Good(s, RecoverWorker(s, listed, now), None, now) <==> TurnIsLegal(s, listed, now)
  {
    if listed.job.Some? && listed.job.value.id !in s.leases {
      TurnIsLegalIffAlreadyRecovered(s, listed, now);
    } else if listed.job.Some? && s.leases[listed.job.value.id].IsExpired(now) {
      TurnIsLegalIffOnlyStarted(s, listed, now);
    } else {
      LiveTurnWritesNothing(s, listed, now);
      Stutter(s, now);
    }
  }

  lemma LiveTurnWritesNothing(s: Cluster, listed: WorkerView, now: Time)
    requires Inv(s) && ViewOk(s, listed)
    requires listed.job.Some? ==> listed.job.value.id in s.leases && !s.leases[listed.job.value.id].IsExpired(now)
    ensures RecoverWorker(s, listed, now) == s
  {
    if listed.job.Some? {
      assert LeaseOk(s, listed.job.value.id);
    }
  }

  /** The rows a turn may write when it is legal. */
  lemma LegalTurnWrites(s: Cluster, listed: WorkerView, now: Time)
    requires Inv(s) && ViewOk(s, listed) && TurnIsLegal(s, listed, now)
    ensures var s' := RecoverWorker(s, listed, now);
            || s' == s
            || (&& listed.job.Some? && listed.job.value.id in s.jobs
                && s'.jobs == s.jobs[listed.job.value.id := Reclaimed(listed.job.value, now)]
                && (|| Reclaimed(listed.job.value, now) == s.jobs[listed.job.value.id]
                    || CanForget(listed.job.value, s.jobs[listed.job.value.id])))
  {
    if listed.job.Some? && listed.job.value.id !in s.leases {
      UnleasedTurnWritesBack(s, listed, now);
      SameWayIffSameRow(s, listed, now);
    } else if listed.job.Some? && s.leases[listed.job.value.id].IsExpired(now) {
      ExpiredTurnSettles(s, listed, now);
    } else {
      LiveTurnWritesNothing(s, listed, now);
    }
  }
}
