/** Removing an offline node (app/application/services/remove_offline_node_service.py) with the cascades
of the schema: its worker and that worker's lease go with it, and its job loses the link. */
module Removal {
  import opened Options
  import opened Domain
  import opened ClusterModel
  import opened Invariant

  datatype Removal = NotFound | StillAlive | Removed(state: Cluster)

  function Unlinked(job: Job, n: NodeId): Job {
    if job.node == Some(n) then job.(node := None) else job
  }

  function Cascade(s: Cluster, n: NodeId): Cluster {
    var workers := map w | w in s.workers && s.workers[w].node != n :: s.workers[w];
    Cluster(map j | j in s.jobs :: Unlinked(s.jobs[j], n),
            workers,
            s.nodes - {n},
            map j | j in s.leases && s.leases[j].worker in workers :: s.leases[j],
            s.issued)
  }

  function RemoveNode(s: Cluster, n: NodeId, t: Tenant, now: Time): Removal {
    match GetNode(s, n, t)
    case None => NotFound
    case Some(node) => if node.IsAlive(now) then StillAlive else Removed(Cascade(s, n))
  }

  ghost predicate HoldsActiveJob(s: Cluster, n: NodeId) {
    exists j :: j in s.jobs && s.jobs[j].node == Some(n) && IsActive(s.jobs[j].status)
  }

  lemma LinksSurvive(s: Cluster, n: NodeId)
    requires Inv(s)
    ensures KeysOk(Cascade(s, n)) && WorkersOk(Cascade(s, n)) && LinksOk(Cascade(s, n))
  {
    var s' := Cascade(s, n);
    forall j | j in s'.leases ensures LeaseOk(s', j) {
      assert LeaseOk(s, j);
    }
  }

  lemma ResourcesSurvive(s: Cluster, n: NodeId)
    requires Inv(s)
    ensures ResourcesOk(Cascade(s, n))
  {
    var s' := Cascade(s, n);
    forall m | m in s'.nodes && Vacant(s'.workers, m) ensures s'.nodes[m].available == s'.nodes[m].capacity {
      forall w | w in s.workers && s.workers[w].node == m ensures s.workers[w].runningJob.None? {
        assert w in s'.workers && s'.workers[w].node == m;
      }
      assert Vacant(s.workers, m);
    }
    forall w | w in s'.workers && s'.workers[w].runningJob.Some? ensures Covers(s', w) {
      var j := s.workers[w].runningJob.value;
      assert Covers(s, w);
      assert s'.jobs[j].resources == s.jobs[j].resources;
    }
  }

  lemma JobsSurvive(s: Cluster, n: NodeId)
    requires Inv(s) && !HoldsActiveJob(s, n)
    ensures JobsOk(Cascade(s, n))
  {
    var s' := Cascade(s, n);
    forall j | j in s'.jobs ensures JobOk(s', j) {
      assert JobOk(s, j);
      if IsActive(s.jobs[j].status) {
        assert LeaseOk(s, j);
      }
    }
  }

  /** A job active on a removed node is stranded: no lease and no worker leads back to it. */
  lemma RemovalStrands(s: Cluster, n: NodeId, j: JobId)
    requires Inv(s) && j in s.jobs && s.jobs[j].node == Some(n) && IsActive(s.jobs[j].status)
    ensures var s' := Cascade(s, n);
            && IsActive(s'.jobs[j].status) && j !in s'.leases
            && forall w :: w in s'.workers ==> s'.workers[w].runningJob != Some(j)
  {
    assert JobOk(s, j) && LeaseOk(s, j);
  }

  /** Removing an offline node keeps the invariant if and only if no job is active on it; being
      offline, which is all the service asks for, does not decide it. */
  lemma RemovalIsSafeIffIdle(s: Cluster, n: NodeId, t: Tenant, now: Time)
    requires Inv(s) && RemoveNode(s, n, t, now).Removed?
    ensures Inv(RemoveNode(s, n, t, now).state) <==> !HoldsActiveJob(s, n)
  {
    if HoldsActiveJob(s, n) {
      var j :| j in s.jobs && s.jobs[j].node == Some(n) && IsActive(s.jobs[j].status);
      RemovalStrands(s, n, j);
      assert !JobOk(Cascade(s, n), j);
    } else {
      LinksSurvive(s, n);
      ResourcesSurvive(s, n);
      JobsSurvive(s, n);
    }
  }

  /** A node of the tenant is removed exactly when its last heartbeat is more than a minute old. Its
      worker and that worker's lease go, jobs assigned to it lose the link, and nothing else changes. */
  lemma RemovalAnswers(s: Cluster, n: NodeId, t: Tenant, now: Time)
    requires Inv(s)
    ensures var r := RemoveNode(s, n, t, now);
            && (r == NotFound <==> n !in s.nodes || s.nodes[n].tenant != t)
            && (r == StillAlive <==> n in s.nodes && s.nodes[n].tenant == t && now - s.nodes[n].lastSeen <= 60)
            && (r.Removed? ==>
                  && r.state.nodes == s.nodes - {n} && r.state.issued == s.issued
                  && (forall w :: w in r.state.workers <==> w in s.workers && s.workers[w].node != n)
                  && (forall w :: w in r.state.workers ==> r.state.workers[w] == s.workers[w])
                  && (forall j :: j in r.state.leases <==> j in s.leases && s.workers[s.leases[j].worker].node != n)
                  && (forall j :: j in r.state.leases ==> r.state.leases[j] == s.leases[j])
                  && r.state.jobs.Keys == s.jobs.Keys
                  && forall j :: j in s.jobs ==>
                       r.state.jobs[j] == if s.jobs[j].node == Some(n) then s.jobs[j].(node := None) else s.jobs[j])
  {
    forall j | j in s.leases ensures s.leases[j].worker in s.workers {
      assert LeaseOk(s, j);
    }
  }
}
