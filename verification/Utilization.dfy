/** Reported utilization (app/application/services/cluster_utilization_service.py): what the nodes
are missing is what the held jobs asked for, counted from either side. */
module Utilization {
  import opened Options
  import opened Domain
  import opened Sequences
  import opened ClusterModel
  import opened Invariant

  //
  // Sums over listings
  //

  function Total(xs: seq<int>, f: int -> int): int {
    if xs == [] then 0 else f(xs[0]) + Total(xs[1..], f)
  }

  lemma {:induction false} TotalSame(xs: seq<int>, f: int -> int, g: int -> int)
    requires forall x :: x in xs ==> f(x) == g(x)
    ensures Total(xs, f) == Total(xs, g)
  {
    if xs != [] {
      var x := xs[0];
      assert x in xs;
      assert f(x) == g(x);
      TotalSame(xs[1..], f, g);
    }
  }

  lemma {:induction false} TotalSum(xs: seq<int>, f: int -> int, g: int -> int)
    ensures Total(xs, f) + Total(xs, g) == Total(xs, x => f(x) + g(x))
  {
    if xs != [] {
      TotalSum(xs[1..], f, g);
    }
  }

  lemma {:induction false} TotalZero(xs: seq<int>, f: int -> int)
    requires forall x :: x in xs ==> f(x) == 0
    ensures Total(xs, f) == 0
  {
    if xs != [] {
      var x := xs[0];
      assert x in xs;
      assert f(x) == 0;
      TotalZero(xs[1..], f);
    }
  }

  /** Only one entry counts. */
  lemma {:induction false} TotalOne(xs: seq<int>, f: int -> int, x: int)
    requires NoRepeats(xs) && x in xs
    requires forall y :: y in xs && y != x ==> f(y) == 0
    ensures Total(xs, f) == f(x)
  {
    if xs[0] == x {
      forall y | y in xs[1..] ensures f(y) == 0 {
        var i :| 1 <= i < |xs| && xs[i] == y;
      }
      TotalZero(xs[1..], f);
    } else {
      assert xs[0] in xs;
      TotalOne(xs[1..], f, x);
    }
  }

  /** Adding up a table by rows or by columns. */
  lemma {:induction false} TotalSwap(xs: seq<int>, ys: seq<int>, g: (int, int) -> int)
    ensures Total(xs, x => Total(ys, y => g(x, y))) == Total(ys, y => Total(xs, x => g(x, y)))
  {
    var rows := x => Total(ys, y => g(x, y));
    if xs == [] {
      TotalZero(ys, y => Total(xs, x => g(x, y)));
    } else {
      var rest := xs[1..];
      TotalSwap(rest, ys, g);
      var first := y => g(xs[0], y);
      var others := y => Total(rest, x => g(x, y));
      TotalSum(ys, first, others);
      forall y | y in ys ensures Total(xs, x => g(x, y)) == first(y) + others(y) {
      }
      TotalSame(ys, y => Total(xs, x => g(x, y)), y => first(y) + others(y));
      assert Total(xs, rows) == rows(xs[0]) + Total(rest, rows);
    }
  }

  //
  // Nodes against jobs
  //

  /** What a node is missing, if it belongs to the tenant. */
  function Missing(s: Cluster, t: Tenant, size: Resources -> int, n: NodeId): int {
    if n in s.nodes && s.nodes[n].tenant == t then size(s.nodes[n].capacity) - size(s.nodes[n].available) else 0
  }

  /** What a job holds, if it is leased by the tenant. */
  function Holding(s: Cluster, t: Tenant, size: Resources -> int, j: JobId): int {
    if j in s.leases && s.leases[j].tenant == t && j in s.jobs then size(s.jobs[j].resources) else 0
  }

  function HoldingAt(s: Cluster, t: Tenant, size: Resources -> int, n: NodeId, j: JobId): int {
    if j in s.jobs && s.jobs[j].node == Some(n) then Holding(s, t, size, j) else 0
  }

  ghost predicate Additive(size: Resources -> int) {
    forall a: Resources, b: Resources :: size(a.Plus(b)) == size(a) + size(b)
  }

  ghost predicate ListsNodes(s: Cluster, order: seq<NodeId>) {
    NoRepeats(order) && forall n :: n in order <==> n in s.nodes
  }

  ghost predicate ListsLeases(s: Cluster, order: seq<JobId>) {
    NoRepeats(order) && forall j :: j in order <==> j in s.leases
  }

  const CPU: Resources -> int := (r: Resources) => r.cpu
  const MEMORY: Resources -> int := (r: Resources) => r.memory
  const VRAM: Resources -> int := (r: Resources) => r.vram

  ghost function MissingTotal(s: Cluster, t: Tenant, size: Resources -> int, nodes: seq<NodeId>): int {
    Total(nodes, n => Missing(s, t, size, n))
  }

  ghost function HoldingTotal(s: Cluster, t: Tenant, size: Resources -> int, jobs: seq<JobId>): int {
    Total(jobs, j => Holding(s, t, size, j))
  }

  /** A node is missing what the one job held on it asked for. */
  lemma NodeTotal(s: Cluster, t: Tenant, size: Resources -> int, n: NodeId, jobs: seq<JobId>)
    requires Inv(s) && Additive(size) && ListsLeases(s, jobs) && n in s.nodes
    ensures Missing(s, t, size, n) == Total(jobs, j => HoldingAt(s, t, size, n, j))
  {
    var f := j => HoldingAt(s, t, size, n, j);
    if Vacant(s.workers, n) {
      forall j | j in jobs ensures f(j) == 0 {
        assert LeaseOk(s, j);
      }
      TotalZero(jobs, f);
    } else {
      var w :| w in s.workers && s.workers[w].node == n && s.workers[w].runningJob.Some?;
      var held := s.workers[w].runningJob.value;
      assert Covers(s, w) && LeaseOk(s, held);
      forall j | j in jobs && j != held ensures f(j) == 0 {
        assert LeaseOk(s, j);
      }
      TotalOne(jobs, f, held);
      assert size(s.nodes[n].available.Plus(s.jobs[held].resources)) == size(s.nodes[n].available) + size(s.jobs[held].resources);
    }
  }

  /** A held job is held on one node. */
  lemma JobTotal(s: Cluster, t: Tenant, size: Resources -> int, j: JobId, nodes: seq<NodeId>)
    requires Inv(s) && ListsNodes(s, nodes) && j in s.leases
    ensures Holding(s, t, size, j) == Total(nodes, n => HoldingAt(s, t, size, n, j))
  {
    assert LeaseOk(s, j);
    TotalOne(nodes, n => HoldingAt(s, t, size, n, j), s.jobs[j].node.value);
  }

  /** In every state of the invariant, and for each of cpu, memory and VRAM, the utilization of a
      tenant is the sum of what its leased jobs asked for. */
  lemma UtilizationIsWhatJobsHold(s: Cluster, t: Tenant, size: Resources -> int, nodes: seq<NodeId>, jobs: seq<JobId>)
    requires Inv(s) && Additive(size) && ListsNodes(s, nodes) && ListsLeases(s, jobs)
    ensures MissingTotal(s, t, size, nodes) == HoldingTotal(s, t, size, jobs)
  {
    var g := (n, j) => HoldingAt(s, t, size, n, j);
    forall n | n in nodes ensures Missing(s, t, size, n) == Total(jobs, j => g(n, j)) {
      NodeTotal(s, t, size, n, jobs);
      TotalSame(jobs, j => HoldingAt(s, t, size, n, j), j => g(n, j));
    }
    TotalSame(nodes, n => Missing(s, t, size, n), n => Total(jobs, j => g(n, j)));
    TotalSwap(nodes, jobs, g);
    forall j | j in jobs ensures Holding(s, t, size, j) == Total(nodes, n => g(n, j)) {
      JobTotal(s, t, size, j, nodes);
      TotalSame(nodes, n => HoldingAt(s, t, size, n, j), n => g(n, j));
    }
    TotalSame(jobs, j => Holding(s, t, size, j), j => Total(nodes, n => g(n, j)));
  }

  lemma MissingFirst(s: Cluster, t: Tenant, size: Resources -> int, nodes: seq<NodeId>)
    requires nodes != []
    ensures MissingTotal(s, t, size, nodes) == Missing(s, t, size, nodes[0]) + MissingTotal(s, t, size, nodes[1..])
  {
    TotalSame(nodes[1..], n => Missing(s, t, size, n), n => Missing(s, t, size, n));
  }

  lemma SizesAreAdditive()
    ensures Additive(CPU) && Additive(MEMORY) && Additive(VRAM)
  {
  }
}
