/** Best-fit placement (app/domain/services/scheduler.py). Scores are reals. */
module Scheduling {
  import opened Options
  import opened Domain
  import opened Sequences

  /** What Node.__post_init__ enforces. */
  predicate Sound(node: Node) {
    node.available.Within(node.capacity)
  }

  predicate AllSound(nodes: seq<Node>) {
    forall i :: 0 <= i < |nodes| ==> Sound(nodes[i])
  }

  predicate MatchesConstraints(job: Job, node: Node) {
    forall key :: key in job.constraints ==> key in node.labels && node.labels[key] == job.constraints[key]
  }

  predicate Eligible(job: Job, node: Node, now: Time) {
    && node.tenant == job.tenant
    && node.IsAlive(now)
    && !node.draining
    && MatchesConstraints(job, node)
    && node.CanHost(job.resources)
  }

  /** One dimension of the score. A dimension the job does not request counts nothing. */
  function Tightness(available: nat, wanted: nat, capacity: nat): real
    requires wanted > 0 ==> capacity > 0
  {
    if wanted > 0 then (available - wanted) as real / capacity as real else 0.0
  }

  /** Every dimension the job requests has capacity, so no score divides by zero. */
  predicate Scorable(job: Job, node: Node) {
    && (job.resources.cpu > 0 ==> node.capacity.cpu > 0)
    && (job.resources.memory > 0 ==> node.capacity.memory > 0)
    && (job.resources.vram > 0 ==> node.capacity.vram > 0)
  }

  function FitScore(job: Job, node: Node): real
    requires Scorable(job, node)
  {
    Tightness(node.available.cpu, job.resources.cpu, node.capacity.cpu)
    + Tightness(node.available.memory, job.resources.memory, node.capacity.memory)
    + Tightness(node.available.vram, job.resources.vram, node.capacity.vram)
  }

  /** The position of the first eligible node of least score. */
  function SelectIndex(job: Job, nodes: seq<Node>, now: Time): (r: Option<nat>)
    requires AllSound(nodes)
    ensures r.Some? ==> r.value < |nodes| && Eligible(job, nodes[r.value], now)
  {
    if nodes == [] then None
    else
      var last := |nodes| - 1;
      var best := SelectIndex(job, nodes[..last], now);
      if !Eligible(job, nodes[last], now) then best
      else if best.None? || FitScore(job, nodes[last]) < FitScore(job, nodes[best.value]) then Some(last)
      else best
  }

  /** The same choice as a node instead of a position. */
  function SelectNode(job: Job, nodes: seq<Node>, now: Time): (r: Option<Node>)
    requires AllSound(nodes)
    ensures r.Some? ==> r.value in nodes && Sound(r.value) && Eligible(job, r.value, now)
  {
    if nodes == [] then None
    else
      var last := |nodes| - 1;
      Tighter(job, SelectNode(job, nodes[..last], now), nodes[last], now)
  }

  /** The better of the best so far and one more node. */
  function Tighter(job: Job, best: Option<Node>, node: Node, now: Time): (r: Option<Node>)
    requires Sound(node)
    requires best.Some? ==> Sound(best.value) && Eligible(job, best.value, now)
  {
    if !Eligible(job, node, now) then best
    else if best.None? || FitScore(job, node) < FitScore(job, best.value) then Some(node)
    else best
  }

  lemma {:induction false} SelectNodeIsSelectIndex(job: Job, nodes: seq<Node>, now: Time)
    requires AllSound(nodes)
    ensures SelectIndex(job, nodes, now).None? <==> SelectNode(job, nodes, now).None?
    ensures SelectIndex(job, nodes, now).Some? ==>
              SelectNode(job, nodes, now) == Some(nodes[SelectIndex(job, nodes, now).value])
  {
    if nodes != [] {
      SelectNodeIsSelectIndex(job, nodes[..|nodes| - 1], now);
    }
  }

  /** The scan of select_node: a running best, replaced only by a strictly tighter node. */
  method FindBest(job: Job, nodes: seq<Node>, now: Time) returns (best: Option<nat>)
    requires AllSound(nodes)
    ensures best == SelectIndex(job, nodes, now)
  {
    best := None;
    for i := 0 to |nodes|
      invariant best == SelectIndex(job, nodes[..i], now)
    {
      assert nodes[..i+1][..i] == nodes[..i];
      if Eligible(job, nodes[i], now) {
        if best.None? || FitScore(job, nodes[i]) < FitScore(job, nodes[best.value]) {
          best := Some(i);
        }
      }
    }
    assert nodes[..|nodes|] == nodes;
  }

  //
  // What the choice means
  //

  lemma TightnessInRange(available: nat, wanted: nat, capacity: nat)
    requires wanted <= available <= capacity
    ensures 0.0 <= Tightness(available, wanted, capacity) < 1.0
  {
    if wanted > 0 {
      var gap, cap := (available - wanted) as real, capacity as real;
      assert 0.0 <= gap < cap;
      assert (gap / cap) * cap == gap;
      var ratio := gap / cap;
      assert ratio >= 1.0 ==> ratio * cap >= cap;
    }
  }

  /** An eligible node can be scored, and its score lies in [0, 3). */
  lemma EligibleScore(job: Job, node: Node, now: Time)
    requires Sound(node) && Eligible(job, node, now)
    ensures Scorable(job, node)
    ensures 0.0 <= FitScore(job, node) < 3.0
  {
    TightnessInRange(node.available.cpu, job.resources.cpu, node.capacity.cpu);
    TightnessInRange(node.available.memory, job.resources.memory, node.capacity.memory);
    TightnessInRange(node.available.vram, job.resources.vram, node.capacity.vram);
  }

  /** The node at k is eligible, nothing eligible scores less, and everything eligible
      before it scores more. */
  ghost predicate IsEarliestBest(job: Job, nodes: seq<Node>, now: Time, k: nat)
    requires AllSound(nodes)
  {
    && k < |nodes| && Eligible(job, nodes[k], now)
    && (forall i :: 0 <= i < |nodes| && Eligible(job, nodes[i], now) ==>
          FitScore(job, nodes[k]) <= FitScore(job, nodes[i])
          && (i < k ==> FitScore(job, nodes[k]) < FitScore(job, nodes[i])))
  }

  lemma {:induction false} SelectedIsBest(job: Job, nodes: seq<Node>, now: Time)
    requires AllSound(nodes)
    ensures SelectIndex(job, nodes, now).None? ==> forall i :: 0 <= i < |nodes| ==> !Eligible(job, nodes[i], now)
    ensures SelectIndex(job, nodes, now).Some? ==> IsEarliestBest(job, nodes, now, SelectIndex(job, nodes, now).value)
  {
    if nodes != [] {
      SelectedIsBest(job, nodes[..|nodes| - 1], now);
    }
  }

  /** A node is chosen exactly when one is eligible, and it is the earliest best one. */
  lemma SelectsEarliestBest(job: Job, nodes: seq<Node>, now: Time, k: nat)
    requires AllSound(nodes)
    ensures SelectIndex(job, nodes, now) == Some(k) <==> IsEarliestBest(job, nodes, now, k)
    ensures SelectIndex(job, nodes, now).None? <==>
            forall i :: 0 <= i < |nodes| ==> !Eligible(job, nodes[i], now)
  {
    SelectedIsBest(job, nodes, now);
  }

  //
  // The choice in whole numbers
  //

  /** What the job leaves free in one dimension, and what it is measured against; a dimension that
      is not requested counts for nothing. */
  function Slack(available: nat, wanted: nat): nat {
    if 0 < wanted <= available then available - wanted else 0
  }

  function Scale(wanted: nat, capacity: nat): (r: nat)
    ensures wanted > 0 && capacity > 0 ==> r == capacity
    ensures r > 0
  {
    if wanted > 0 && capacity > 0 then capacity else 1
  }

  /** Three fractions over their common denominator. */
  function OverCommon(x: nat, y: nat, z: nat, a: nat, b: nat, c: nat): int {
    x * (b * c) + y * (a * c) + z * (a * b)
  }

  /** The fractions slack / capacity of the three dimensions, added up. */
  function Numerator(job: Job, node: Node): int {
    var a, c, w := node.available, node.capacity, job.resources;
    OverCommon(Slack(a.cpu, w.cpu), Slack(a.memory, w.memory), Slack(a.vram, w.vram),
               Scale(w.cpu, c.cpu), Scale(w.memory, c.memory), Scale(w.vram, c.vram))
  }

  function Denominator(job: Job, node: Node): (r: nat)
    ensures r > 0
  {
    var c, w := node.capacity, job.resources;
    Scale(w.cpu, c.cpu) * (Scale(w.memory, c.memory) * Scale(w.vram, c.vram))
  }

  lemma RealFractions(x: real, y: real, z: real, a: real, b: real, c: real, p: real, q: real, r: real, d: real)
    requires a > 0.0 && b > 0.0 && c > 0.0 && p == b * c && q == a * c && r == a * b && d == a * p
    ensures d > 0.0 && x / a + y / b + z / c == (x * p + y * q + z * r) / d
  {
    Widen(x, a, p);
    Widen(y, b, q);
    Widen(z, c, r);
    assert b * q == d && c * r == d;
    OverOne(x * p, y * q, z * r, d);
  }

  lemma OverOne(x: real, y: real, z: real, d: real)
    requires d > 0.0
    ensures x / d + y / d + z / d == (x + y + z) / d
  {
  }

  lemma SumOfProducts(x: nat, p: nat, y: nat, q: nat, z: nat, r: nat)
    ensures (x * p + y * q + z * r) as real == x as real * p as real + y as real * q as real + z as real * r as real
  {
    Product(x, p);
    Product(y, q);
    Product(z, r);
  }

  lemma ThreeFractions(x: nat, y: nat, z: nat, a: nat, b: nat, c: nat, p: nat, q: nat, r: nat)
    requires a > 0 && b > 0 && c > 0 && p == b * c && q == a * c && r == a * b
    ensures x as real / a as real + y as real / b as real + z as real / c as real
            == (x as real * p as real + y as real * q as real + z as real * r as real) / (a as real * p as real)
  {
    Product(b, c);
    Product(a, c);
    Product(a, b);
    RealFractions(x as real, y as real, z as real, a as real, b as real, c as real,
                  p as real, q as real, r as real, a as real * p as real);
  }

  lemma Product(a: nat, b: nat)
    ensures (a * b) as real == a as real * b as real
    ensures a > 0 && b > 0 ==> a * b > 0
  {
  }

  lemma Widen(x: real, a: real, k: real)
    requires a > 0.0 && k > 0.0
    ensures a * k > 0.0 && x / a == (x * k) / (a * k)
  {
    var q := x / a;
    assert q * a == x;
    assert q * (a * k) == x * k;
  }

  lemma FractionSum(x: nat, y: nat, z: nat, a: nat, b: nat, c: nat)
    requires a > 0 && b > 0 && c > 0
    ensures a * (b * c) > 0
    ensures x as real / a as real + y as real / b as real + z as real / c as real
            == OverCommon(x, y, z, a, b, c) as real / (a * (b * c)) as real
  {
    var p, q, r := b * c, a * c, a * b;
    Product(b, c);
    Product(a, p);
    ThreeFractions(x, y, z, a, b, c, p, q, r);
    SumOfProducts(x, p, y, q, z, r);
  }

  lemma TightnessIs(available: nat, wanted: nat, capacity: nat)
    requires wanted <= available <= capacity
    ensures Tightness(available, wanted, capacity) == Slack(available, wanted) as real / Scale(wanted, capacity) as real
  {
  }

  lemma ScoreIsFraction(job: Job, node: Node, now: Time)
    requires Sound(node) && Eligible(job, node, now)
    ensures Scorable(job, node)
    ensures FitScore(job, node) == Numerator(job, node) as real / Denominator(job, node) as real
  {
    var a, c, w := node.available, node.capacity, job.resources;
    TightnessIs(a.cpu, w.cpu, c.cpu);
    TightnessIs(a.memory, w.memory, c.memory);
    TightnessIs(a.vram, w.vram, c.vram);
    FractionSum(Slack(a.cpu, w.cpu), Slack(a.memory, w.memory), Slack(a.vram, w.vram),
                Scale(w.cpu, c.cpu), Scale(w.memory, c.memory), Scale(w.vram, c.vram));
  }

  lemma FractionsCompare(m: int, d: nat, n: int, e: nat)
    requires d > 0 && e > 0
    ensures m as real / d as real <= n as real / e as real <==> m * e <= n * d
  {
    var p, q, rd, re := m as real / d as real, n as real / e as real, d as real, e as real;
    assert p * rd == m as real && q * re == n as real;
    assert (m * e) as real == p * (rd * re) && (n * d) as real == q * (rd * re);
    assert rd * re > 0.0;
    if p <= q {
      assert p * (rd * re) <= q * (rd * re);
    } else {
      assert p * (rd * re) > q * (rd * re);
    }
  }

  /** A node is selected if and only if it is the earliest eligible one whose sum of slack over
      capacity is least, compared in whole numbers. */
  lemma SelectsTightest(job: Job, nodes: seq<Node>, now: Time, k: nat)
    requires AllSound(nodes)
    ensures SelectIndex(job, nodes, now) == Some(k) <==>
            && k < |nodes| && Eligible(job, nodes[k], now)
            && forall i :: 0 <= i < |nodes| && Eligible(job, nodes[i], now) ==>
                 var here := Numerator(job, nodes[k]) * Denominator(job, nodes[i]);
                 var there := Numerator(job, nodes[i]) * Denominator(job, nodes[k]);
                 here <= there && (i < k ==> here < there)
  {
    SelectsEarliestBest(job, nodes, now, k);
    if k < |nodes| && Eligible(job, nodes[k], now) {
      forall i | 0 <= i < |nodes| && Eligible(job, nodes[i], now)
        ensures var here := Numerator(job, nodes[k]) * Denominator(job, nodes[i]);
                var there := Numerator(job, nodes[i]) * Denominator(job, nodes[k]);
                && (FitScore(job, nodes[k]) <= FitScore(job, nodes[i]) <==> here <= there)
                && (FitScore(job, nodes[i]) <= FitScore(job, nodes[k]) <==> there <= here)
      {
        CompareByFractions(job, nodes[k], nodes[i], now);
        CompareByFractions(job, nodes[i], nodes[k], now);
      }
    }
  }

  lemma CompareByFractions(job: Job, a: Node, b: Node, now: Time)
    requires Sound(a) && Sound(b) && Eligible(job, a, now) && Eligible(job, b, now)
    ensures Scorable(job, a) && Scorable(job, b)
    ensures FitScore(job, a) <= FitScore(job, b)
            <==> Numerator(job, a) * Denominator(job, b) <= Numerator(job, b) * Denominator(job, a)
  {
    ScoreIsFraction(job, a, now);
    ScoreIsFraction(job, b, now);
    FractionsCompare(Numerator(job, a), Denominator(job, a), Numerator(job, b), Denominator(job, b));
  }

  /** In one dimension a is at most as loose as b. */
  predicate NoLooser(wanted: nat, a: nat, aCapacity: nat, b: nat, bCapacity: nat) {
    wanted > 0 ==> (a - wanted) * bCapacity <= (b - wanted) * aCapacity
  }

  predicate IsTighter(wanted: nat, a: nat, aCapacity: nat, b: nat, bCapacity: nat) {
    wanted > 0 && (a - wanted) * bCapacity < (b - wanted) * aCapacity
  }

  lemma NoLooserScores(wanted: nat, a: nat, aCapacity: nat, b: nat, bCapacity: nat)
    requires wanted <= a <= aCapacity && wanted <= b <= bCapacity && NoLooser(wanted, a, aCapacity, b, bCapacity)
    ensures Tightness(a, wanted, aCapacity) <= Tightness(b, wanted, bCapacity)
    ensures IsTighter(wanted, a, aCapacity, b, bCapacity) ==>
              Tightness(a, wanted, aCapacity) < Tightness(b, wanted, bCapacity)
  {
    if wanted > 0 {
      FractionsCompare(a - wanted, aCapacity, b - wanted, bCapacity);
      FractionsCompare(b - wanted, bCapacity, a - wanted, aCapacity);
    }
  }

  /** A node is not selected while one is listed that is no looser in any requested dimension, in
      proportion to its capacity, and tighter in one. */
  lemma LooserIsNotSelected(job: Job, nodes: seq<Node>, now: Time, i: nat, k: nat)
    requires AllSound(nodes) && i < |nodes| && k < |nodes| && Eligible(job, nodes[i], now)
    requires var w, a, ac, b, bc := job.resources, nodes[i].available, nodes[i].capacity, nodes[k].available, nodes[k].capacity;
             && NoLooser(w.cpu, a.cpu, ac.cpu, b.cpu, bc.cpu)
             && NoLooser(w.memory, a.memory, ac.memory, b.memory, bc.memory)
             && NoLooser(w.vram, a.vram, ac.vram, b.vram, bc.vram)
             && (|| IsTighter(w.cpu, a.cpu, ac.cpu, b.cpu, bc.cpu)
                 || IsTighter(w.memory, a.memory, ac.memory, b.memory, bc.memory)
                 || IsTighter(w.vram, a.vram, ac.vram, b.vram, bc.vram))
    ensures SelectIndex(job, nodes, now) != Some(k)
  {
    SelectsEarliestBest(job, nodes, now, k);
    if Eligible(job, nodes[k], now) {
      var w, a, ac, b, bc := job.resources, nodes[i].available, nodes[i].capacity, nodes[k].available, nodes[k].capacity;
      NoLooserScores(w.cpu, a.cpu, ac.cpu, b.cpu, bc.cpu);
      NoLooserScores(w.memory, a.memory, ac.memory, b.memory, bc.memory);
      NoLooserScores(w.vram, a.vram, ac.vram, b.vram, bc.vram);
    }
  }

  lemma ExactIsTight(wanted: nat, a: nat, aCapacity: nat, b: nat, bCapacity: nat)
    requires wanted <= a <= aCapacity && wanted <= b && (wanted > 0 ==> a == wanted)
    ensures NoLooser(wanted, a, aCapacity, b, bCapacity)
    ensures 0 < wanted < b ==> IsTighter(wanted, a, aCapacity, b, bCapacity)
  {
    if wanted > 0 {
      assert (a - wanted) * bCapacity == 0;
      assert (b - wanted) * aCapacity >= 0;
    }
  }

  /** A node that the job fills exactly in every requested dimension is preferred to any other. */
  lemma ExactFitWins(job: Job, nodes: seq<Node>, now: Time, i: nat, k: nat)
    requires AllSound(nodes) && i < |nodes| && k < |nodes| && Eligible(job, nodes[i], now)
    requires var w, a, b := job.resources, nodes[i].available, nodes[k].available;
             && (w.cpu > 0 ==> a.cpu == w.cpu) && (w.memory > 0 ==> a.memory == w.memory) && (w.vram > 0 ==> a.vram == w.vram)
             && ((0 < w.cpu < b.cpu) || (0 < w.memory < b.memory) || (0 < w.vram < b.vram))
    ensures SelectIndex(job, nodes, now) != Some(k)
  {
    if Eligible(job, nodes[k], now) {
      var w, a, ac, b, bc := job.resources, nodes[i].available, nodes[i].capacity, nodes[k].available, nodes[k].capacity;
      ExactIsTight(w.cpu, a.cpu, ac.cpu, b.cpu, bc.cpu);
      ExactIsTight(w.memory, a.memory, ac.memory, b.memory, bc.memory);
      ExactIsTight(w.vram, a.vram, ac.vram, b.vram, bc.vram);
      LooserIsNotSelected(job, nodes, now, i, k);
    }
  }

  /** What every selected node meets: the job's tenant, a heartbeat within the last minute, no drain,
      every label asked for, and room in every dimension; and a node is selected if one meets it. */
  lemma SelectedCanRun(job: Job, nodes: seq<Node>, now: Time, k: nat)
    requires AllSound(nodes) && k < |nodes|
    ensures var node := nodes[k];
            var meets := && node.tenant == job.tenant && now - node.lastSeen <= 60 && !node.draining
                         && (forall key :: key in job.constraints ==> (key, job.constraints[key]) in node.labels.Items)
                         && job.resources.cpu <= node.available.cpu && job.resources.memory <= node.available.memory
                         && job.resources.vram <= node.available.vram;
            && (SelectIndex(job, nodes, now) == Some(k) ==> meets)
            && (meets ==> SelectIndex(job, nodes, now).Some?)
  {
    SelectsEarliestBest(job, nodes, now, k);
    assert Eligible(job, nodes[k], now) <==>
           && nodes[k].tenant == job.tenant && now - nodes[k].lastSeen <= 60 && !nodes[k].draining
           && (forall key :: key in job.constraints ==> (key, job.constraints[key]) in nodes[k].labels.Items)
           && job.resources.cpu <= nodes[k].available.cpu && job.resources.memory <= nodes[k].available.memory
           && job.resources.vram <= nodes[k].available.vram;
  }

  lemma KeptAreSound(keep: Node -> bool, nodes: seq<Node>)
    requires AllSound(nodes)
    ensures AllSound(Keep(keep, nodes))
  {
    forall i | 0 <= i < |Keep(keep, nodes)| ensures Sound(Keep(keep, nodes)[i]) {
      assert Keep(keep, nodes)[i] in nodes;
    }
  }

  /** Dropping nodes the job could never use does not change its choice. */
  lemma {:induction false} SelectIgnoresIneligible(job: Job, nodes: seq<Node>, now: Time, keep: Node -> bool)
    requires AllSound(nodes)
    requires forall i :: 0 <= i < |nodes| && Eligible(job, nodes[i], now) ==> keep(nodes[i])
    ensures AllSound(Keep(keep, nodes))
    ensures SelectNode(job, Keep(keep, nodes), now) == SelectNode(job, nodes, now)
  {
    KeptAreSound(keep, nodes);
    if nodes != [] {
      var last := |nodes| - 1;
      var front := Keep(keep, nodes[..last]);
      SelectIgnoresIneligible(job, nodes[..last], now, keep);
      KeepLast(keep, nodes);
      if keep(nodes[last]) {
        assert Keep(keep, nodes)[..|front|] == front;
      } else {
        assert Keep(keep, nodes) == front;
      }
    }
  }

  /** The same node up to its VRAM figures. */
  predicate SameButVram(a: Node, b: Node) {
    a == b.(capacity := b.capacity.(vram := a.capacity.vram), available := b.available.(vram := a.available.vram))
  }

  /** A job that requests no VRAM is placed the same way whatever VRAM the nodes have. */
  lemma {:induction false} VramIsIgnored(job: Job, nodes: seq<Node>, others: seq<Node>, now: Time)
    requires job.resources.vram == 0
    requires AllSound(nodes) && AllSound(others) && |nodes| == |others|
    requires forall i :: 0 <= i < |nodes| ==> SameButVram(nodes[i], others[i])
    ensures SelectIndex(job, nodes, now) == SelectIndex(job, others, now)
  {
    if nodes != [] {
      var last := |nodes| - 1;
      VramIsIgnored(job, nodes[..last], others[..last], now);
      assert SameButVram(nodes[last], others[last]);
      assert Eligible(job, nodes[last], now) == Eligible(job, others[last], now);
      var best := SelectIndex(job, nodes[..last], now);
      if best.Some? {
        assert SameButVram(nodes[best.value], others[best.value]);
      }
    }
  }
}
