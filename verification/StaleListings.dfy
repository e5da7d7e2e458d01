/** Recovery from listings that are out of date, over whole runs: after any delay, which turns of a
pass are still legal steps, and that runs leave out no others. */
module StaleListings {
  import opened Options
  import opened Domain
  import opened ClusterModel
  import opened Invariant
  import opened Steps
  import opened ListedWorkers
  import opened Runs
  import opened Guarantees

  //
  // Workers listed by the offline-node pass
  //

  lemma ListedIsOk(r: Run, i: nat, listed: WorkerView)
    requires IsRun(r) && i < |r.states| && IsCurrent(At(r, i), listed)
    ensures ViewOk(At(r, i), listed)
  {
    Reachable(r, i);
    CurrentIsOk(At(r, i), listed);
  }

  lemma OkNext(r: Run, k: nat, listed: WorkerView)
    requires IsRun(r) && k < |r.actions| && ViewOk(At(r, k), listed)
    ensures ViewOk(At(r, k + 1), listed)
  {
    StepIsGood(r, k);
    ViewOkStays(At(r, k), At(r, k + 1), listed, RetriedBy(r.actions[k]), r.times[k]);
  }

  lemma {:induction false} ListedStaysOk(r: Run, i: nat, k: nat, listed: WorkerView)
    requires IsRun(r) && i <= k < |r.states| && IsCurrent(At(r, i), listed)
    ensures ViewOk(At(r, k), listed)
    decreases k
  {
    if i == k {
      ListedIsOk(r, i, listed);
    } else {
      ListedStaysOk(r, i, k - 1, listed);
      OkNext(r, k - 1, listed);
    }
  }

  /** The whole story of a stale listing: in every run, for every listed worker and however long ago
      it was listed, a turn of the offline-node pass is a legal step exactly when the worker was
      listed without a job; or the job's lease is live; or it is expired and the job is as listed, or
      was at most started in between; or it is gone, the worker is free and the job already went the
      same way; and, where the turn writes, the node was not drained in between. */
  lemma OfflineTurnIsLegalIff(r: Run, i: nat, k: nat, listed: WorkerView, now: Time)
    requires IsRun(r) && i <= k < |r.states| && IsCurrent(At(r, i), listed)
    ensures Good(At(r, k), RecoverWorker(At(r, k), listed, now), None, now) <==> TurnIsLegal(At(r, k), listed, now)
  {
    Reachable(r, k);
    ListedStaysOk(r, i, k, listed);
    TurnIsLegalIff(At(r, k), listed, now);
  }

  /** And it leaves a live lease, with its job, worker and node, alone exactly when it writes nothing
      or the listed worker does not hold that lease. */
  lemma OfflineTurnSparesIff(r: Run, i: nat, k: nat, listed: WorkerView, now: Time, j: JobId)
    requires IsRun(r) && i <= k < |r.states| && IsCurrent(At(r, i), listed)
    requires j in At(r, k).leases && !At(r, k).leases[j].IsExpired(now)
    ensures Untouched(At(r, k), RecoverWorker(At(r, k), listed, now), j)
            <==> (Writes(At(r, k), listed, now) ==> At(r, k).leases[j].worker != listed.row.id)
  {
    Reachable(r, k);
    ListedStaysOk(r, i, k, listed);
    ListedTurnSparesIff(At(r, k), listed, now, j);
  }

  lemma {:induction false} LeaseKeepsWorker(r: Run, i: nat, k: nat, j: JobId, lid: LeaseId)
    requires IsRun(r) && i <= k < |r.states| && j in At(r, i).jobs
    requires Holds(At(r, i), lid, j) && Holds(At(r, k), lid, j) && lid in At(r, i).issued
    ensures At(r, k).leases[j].worker == At(r, i).leases[j].worker
    ensures j in At(r, k).jobs && At(r, k).jobs[j].retryCount == At(r, i).jobs[j].retryCount
    decreases k
  {
    if i < k {
      IssuedOnlyGrows(r, i, k - 1);
      HeldBefore(r, k - 1, j, lid);
      LeaseKeepsWorker(r, i, k - 1, j, lid);
      HeldStep(r, k - 1, j, lid);
    }
  }

  /** In every run, as long as the lease it was listed with is still in the table, a listed job has at
      most been started or cancelled, and its worker is the same. */
  lemma ListingOnlyAges(r: Run, i: nat, k: nat, listed: WorkerView, lid: LeaseId)
    requires IsRun(r) && i <= k < |r.states| && IsCurrent(At(r, i), listed) && listed.job.Some?
    requires Holds(At(r, i), lid, listed.job.value.id) && Holds(At(r, k), lid, listed.job.value.id)
    ensures Remembered(At(r, k), listed) && StillHeld(At(r, k), listed.job.value) && OnlyAged(At(r, k), listed)
  {
    Reachable(r, i);
    CurrentHolds(At(r, i), listed);
    assert LeaseOk(At(r, i), listed.job.value.id);
    LeaseKeepsWorker(r, i, k, listed.job.value.id, lid);
    ListedStaysOk(r, i, k, listed);
  }

  //
  // What runs leave out
  //

  /** At every point of every run, a turn on a listed lease, a turn on a listed worker and the next
      save of a registration are legal steps if and only if the run may take them there. */
  lemma OnlyIllegalStepsAreLeftOut(r: Run, i: nat, now: Time)
    requires IsRun(r) && i < |r.states| && r.states[i].clock <= now
    ensures var sys := r.states[i];
            forall snap :: snap in sys.listed ==>
              (Good(sys.c, RecoverIfExpired(sys.c, snap.lease, now), None, now) <==> Enabled(sys, RecoverListed(snap), now))
    ensures var sys := r.states[i];
            forall sweep, view :: sweep in sys.sweeps && sys.sweeps[sweep].WorkersRead? && view in sys.sweeps[sweep].listing ==>
              (Good(sys.c, RecoverWorker(sys.c, view, now), None, now) <==> Enabled(sys, TakeBack(sweep, view), now))
    ensures var sys := r.states[i];
            forall post, managedBy, newId :: post in sys.posts && newId !in sys.c.workers && sys.posts[post].NodeRead? ==>
              (Good(sys.c, CreateWorker(sys.c, sys.posts[post].node, managedBy, newId, now).state, None, now)
               <==> Enabled(sys, MakeWorker(post, managedBy, newId), now))
    ensures var sys := r.states[i];
            forall post :: post in sys.posts && sys.posts[post].WorkerMade? ==>
              (Good(sys.c, ReadyWorker(sys.c, sys.posts[post].worker).state, None, now) <==> Enabled(sys, ReadyMade(post), now))
  {
    var sys := r.states[i];
    Reachable(r, i);
    forall snap | snap in sys.listed
      ensures Good(sys.c, RecoverIfExpired(sys.c, snap.lease, now), None, now) <==> Enabled(sys, RecoverListed(snap), now)
    {
      ListedTurnIsLegalIff(sys, snap, now);
    }
    forall sweep, view | sweep in sys.sweeps && sys.sweeps[sweep].WorkersRead? && view in sys.sweeps[sweep].listing
      ensures Good(sys.c, RecoverWorker(sys.c, view, now), None, now) <==> Enabled(sys, TakeBack(sweep, view), now)
    {
      SweptTurnIsLegalIff(sys, sweep, view, now);
    }
    forall post, managedBy, newId | post in sys.posts && newId !in sys.c.workers && sys.posts[post].NodeRead?
      ensures Good(sys.c, CreateWorker(sys.c, sys.posts[post].node, managedBy, newId, now).state, None, now)
              <==> Enabled(sys, MakeWorker(post, managedBy, newId), now)
    {
      PostIsLegalIff(sys, post, managedBy, newId, now);
    }
    forall post | post in sys.posts && sys.posts[post].WorkerMade?
      ensures Good(sys.c, ReadyWorker(sys.c, sys.posts[post].worker).state, None, now) <==> Enabled(sys, ReadyMade(post), now)
    {
      assert PostOk(sys.c, sys.posts[post]);
      ReadyIsLegalIff(sys.c, sys.posts[post].worker, now);
    }
  }

  //
  // Jobs that may not retry, which are all that CreateJobService creates
  //

  ghost predicate NoRetries(r: Run) {
    forall i :: 0 <= i < |r.actions| && r.actions[i].SubmitJob? ==> r.actions[i].maxRetries <= 0
  }

  lemma FinishAddsNoJob(s: Cluster, e: Execution, outcome: Outcome, exit: Option<int>, now: Time)
    requires Inv(s) && LoopOk(s, e)
    ensures FinishExecution(s, e, outcome, exit, now).state.jobs.Keys == s.jobs.Keys
  {
    FinishExecutionSettles(s, e, outcome, exit, now);
  }

  lemma OnlySubmitAdds(sys: System, a: Action, now: Time, j: JobId)
    requires SysInv(sys) && Enabled(sys, a, now) && !a.SubmitJob? && j in Tables(sys, a, now).jobs
    ensures j in sys.c.jobs
  {
    if a.LoopFinish? {
      assert LoopOk(sys.c, sys.loops[a.run]);
      FinishAddsNoJob(sys.c, sys.loops[a.run], a.outcome, a.exit, now);
    } else {
      OthersKeepRequests(sys, a, now);
    }
  }

  lemma {:induction false} NoJobMayRetry(r: Run, i: nat, j: JobId)
    requires IsRun(r) && NoRetries(r) && i < |r.states| && j in At(r, i).jobs
    ensures At(r, i).jobs[j].maxRetries <= 0
  {
    if i > 0 {
      var sys, a, now := r.states[i - 1], r.actions[i - 1], r.times[i - 1];
      assert StepsTo(r, i - 1);
      if j in sys.c.jobs {
        NoJobMayRetry(r, i - 1, j);
        HistoryFollowsTable(r, i - 1, j);
      } else {
        Reachable(r, i - 1);
        if a.SubmitJob? {
          CreateJobKeeps(sys.c, a.newJob, a.t, a.resources, a.priority, a.constraints, a.maxRetries, now);
        } else {
          OnlySubmitAdds(sys, a, now, j);
        }
      }
    }
  }

  /** Where a listed lease was read. */
  lemma {:induction false} ListedAt(r: Run, i: nat, snap: Snapshot) returns (k: nat)
    requires IsRun(r) && i < |r.states| && snap in r.states[i].listed
    ensures k <= i && snap.lease.job in At(r, k).leases && At(r, k).leases[snap.lease.job] == snap.lease
  {
    assert i > 0;
    assert StepsTo(r, i - 1);
    if snap in r.states[i - 1].listed {
      k := ListedAt(r, i - 1, snap);
    } else {
      k := i - 1;
      Reachable(r, k);
    }
  }

  lemma LaterLeaseIsCounted(r: Run, i: nat, k: nat, j: JobId, lid: LeaseId)
    requires IsRun(r) && i <= k < |r.states| && Holds(At(r, i), lid, j)
    requires j in At(r, k).leases && At(r, k).leases[j].id != lid
    ensures |LeaseIdsOf(At(r, k).issued, j)| > |LeaseIdsOf(At(r, i).issued, j)|
  {
    var s, s' := At(r, i), At(r, k);
    var later := s'.leases[j].id;
    Reachable(r, i);
    Reachable(r, k);
    assert LeaseOk(s', j);
    IssuedOnlyGrows(r, i, k);
    if later in s.issued {
      assert s.issued[later] == j;
      forall m ensures !Holds(s, later, m) {
        if m in s.leases { assert LeaseOk(s, m); }
      }
      RetiredForever(r, i, k, later);
      assert Holds(s', later, j);
      assert false;
    }
    var before, after := LeaseIdsOf(s.issued, j), LeaseIdsOf(s'.issued, j);
    assert later in after && later !in before;
    forall l | l in before ensures l in after {
      assert l in s.issued;
    }
    assert after == (before + {later}) + (after - (before + {later}));
  }

  lemma SomeLeaseId(s: Cluster, lid: LeaseId, j: JobId)
    requires lid in s.issued && s.issued[lid] == j
    ensures |LeaseIdsOf(s.issued, j)| >= 1
  {
    assert lid in LeaseIdsOf(s.issued, j);
  }

  /** While no job may retry, a job is leased at most once, so every pass over listed leases may act
      on all of them at any time: runs leave nothing of it out. */
  lemma WithoutRetriesEveryTurnIsReached(r: Run, i: nat, snap: Snapshot, now: Time)
    requires IsRun(r) && NoRetries(r) && i < |r.states| && snap in r.states[i].listed
    ensures Reaches(At(r, i), snap, now)
  {
    var s, j := At(r, i), snap.lease.job;
    if j in s.leases {
      var k := ListedAt(r, i, snap);
      var before := At(r, k);
      Reachable(r, k);
      Reachable(r, i);
      assert LeaseOk(before, j) && LeaseOk(s, j);
      if s.leases[j].id == snap.lease.id {
        LeaseKeepsWorker(r, k, i, j, snap.lease.id);
      } else {
        LaterLeaseIsCounted(r, k, i, j, snap.lease.id);
        NoJobMayRetry(r, i, j);
        RetriesBounded(r, j, i);
        GrantsAreLeaseIds(r, j, i);
        SomeLeaseId(before, snap.lease.id, j);
        assert false;
      }
    }
  }
}
