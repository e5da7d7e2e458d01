/** Versioned migrations (app/infrastructure/migrations): the planner, and serialized runs that may
stop at any migration. A migration's effect is its version in a log. */
module Migrations {
  import opened Options

  datatype Migration = Migration(version: int, name: string, checksum: string, transactional: bool)

  datatype Row = Row(version: int, name: string, checksum: string)

  function RowOf(m: Migration): Row {
    Row(m.version, m.name, m.checksum)
  }

  function Rows(ms: seq<Migration>): (r: seq<Row>)
    ensures |r| == |ms| && forall i :: 0 <= i < |ms| ==> r[i] == RowOf(ms[i])
  {
    seq(|ms|, i requires 0 <= i < |ms| => RowOf(ms[i]))
  }

  /** What load_migrations accepts: 1, 2, 3, ... without a gap. */
  predicate ValidSet(ms: seq<Migration>) {
    forall i :: 0 <= i < |ms| ==> ms[i].version == i + 1
  }

  /** The version check of load_migrations, on the files in version order. */
  method CheckVersions(found: seq<Migration>) returns (missing: int)
    ensures missing == 0 <==> ValidSet(found)
    ensures missing != 0 ==> 1 <= missing <= |found| && ValidSet(found[..missing - 1]) && found[missing - 1].version != missing
  {
    for i := 0 to |found|
      invariant ValidSet(found[..i])
    {
      if found[i].version != i + 1 {
        return i + 1;
      }
    }
    assert found[..|found|] == found;
    return 0;
  }

  //
  // The plan
  //

  datatype Refusal = Hole | NoMigrations | NoFile | ChangedFile

  datatype Plan = Refused(why: Refusal) | Planned(pending: seq<Migration>, ahead: seq<int>)

  predicate Counts(recorded: seq<Row>) {
    forall i :: 0 <= i < |recorded| ==> recorded[i].version == i + 1
  }

  /** The file of a version; of two, the later one. */
  function FileOf(ms: seq<Migration>, v: int): Option<Migration> {
    if ms == [] then None
    else
      var last := |ms| - 1;
      if ms[last].version == v then Some(ms[last]) else FileOf(ms[..last], v)
  }

  function Highest(ms: seq<Migration>): int {
    if ms == [] then 0
    else
      var last := |ms| - 1;
      if last > 0 && Highest(ms[..last]) >= ms[last].version then Highest(ms[..last]) else ms[last].version
  }

  /** The first recorded row the set refuses. */
  function Problem(recorded: seq<Row>, ms: seq<Migration>): Option<Refusal> {
    if recorded == [] then None
    else
      var last := |recorded| - 1;
      var earlier := Problem(recorded[..last], ms);
      var known := FileOf(ms, recorded[last].version);
      if earlier.Some? then earlier
      else if known.None? then (if recorded[last].version > Highest(ms) then None else Some(NoFile))
      else if known.value.checksum != recorded[last].checksum then Some(ChangedFile)
      else None
  }

  /** The recorded versions without a file. */
  function Ahead(recorded: seq<Row>, ms: seq<Migration>): seq<int> {
    if recorded == [] then []
    else
      var last := |recorded| - 1;
      Ahead(recorded[..last], ms) + if FileOf(ms, recorded[last].version).None? then [recorded[last].version] else []
  }

  function Above(n: int, ms: seq<Migration>): seq<Migration> {
    if ms == [] then []
    else
      var last := |ms| - 1;
      Above(n, ms[..last]) + if ms[last].version > n then [ms[last]] else []
  }

  function PlanOf(recorded: seq<Row>, ms: seq<Migration>): Plan {
    if !Counts(recorded) then Refused(Hole)
    else if recorded != [] && ms == [] then Refused(NoMigrations)
    else
      var problem := Problem(recorded, ms);
      if problem.Some? then Refused(problem.value) else Planned(Above(|recorded|, ms), Ahead(recorded, ms))
  }

  ghost predicate Indexes(byVersion: map<int, Migration>, ms: seq<Migration>) {
    && (forall v :: v in byVersion <==> FileOf(ms, v).Some?)
    && (forall v :: v in byVersion ==> Some(byVersion[v]) == FileOf(ms, v))
  }

  method IndexFiles(ms: seq<Migration>) returns (highest: int, byVersion: map<int, Migration>)
    ensures highest == Highest(ms) && Indexes(byVersion, ms)
  {
    highest, byVersion := 0, map[];
    for i := 0 to |ms|
      invariant highest == Highest(ms[..i]) && Indexes(byVersion, ms[..i])
    {
      assert ms[..i + 1][..i] == ms[..i];
      if i == 0 || ms[i].version > highest {
        highest := ms[i].version;
      }
      byVersion := byVersion[ms[i].version := ms[i]];
    }
    assert ms[..|ms|] == ms;
  }

  method CompareRows(recorded: seq<Row>, ghost ms: seq<Migration>, highest: int, byVersion: map<int, Migration>)
    returns (problem: Option<Refusal>, ahead: seq<int>)
    requires highest == Highest(ms) && Indexes(byVersion, ms)
    ensures problem == Problem(recorded, ms)
    ensures problem.None? ==> ahead == Ahead(recorded, ms)
  {
    ahead := [];
    for i := 0 to |recorded|
      invariant Problem(recorded[..i], ms).None? && ahead == Ahead(recorded[..i], ms)
    {
      var row := recorded[i];
      assert recorded[..i + 1][..i] == recorded[..i];
      if row.version !in byVersion {
        if row.version <= highest {
          StaysRefused(recorded, ms, i + 1);
          return Some(NoFile), ahead;
        }
        ahead := ahead + [row.version];
      } else if byVersion[row.version].checksum != row.checksum {
        StaysRefused(recorded, ms, i + 1);
        return Some(ChangedFile), ahead;
      }
    }
    assert recorded[..|recorded|] == recorded;
    return None, ahead;
  }

  /** plan_migrations with its loops and its dictionary, for any rows and any set. */
  method PlanMigrations(recorded: seq<Row>, ms: seq<Migration>) returns (plan: Plan)
    ensures plan == PlanOf(recorded, ms)
  {
    for i := 0 to |recorded|
      invariant Counts(recorded[..i])
    {
      if recorded[i].version != i + 1 {
        return Refused(Hole);
      }
    }
    assert recorded[..|recorded|] == recorded;
    if recorded != [] && ms == [] {
      return Refused(NoMigrations);
    }
    var highest, byVersion := IndexFiles(ms);
    var problem, ahead := CompareRows(recorded, ms, highest, byVersion);
    if problem.Some? {
      return Refused(problem.value);
    }
    var pending := [];
    for i := 0 to |ms|
      invariant pending == Above(|recorded|, ms[..i])
    {
      assert ms[..i + 1][..i] == ms[..i];
      if ms[i].version > |recorded| {
        pending := pending + [ms[i]];
      }
    }
    assert ms[..|ms|] == ms;
    return Planned(pending, ahead);
  }

  lemma {:induction false} StaysRefused(recorded: seq<Row>, ms: seq<Migration>, n: nat)
    requires n <= |recorded| && Problem(recorded[..n], ms).Some?
    ensures Problem(recorded, ms) == Problem(recorded[..n], ms)
    decreases |recorded|
  {
    if n == |recorded| {
      assert recorded[..n] == recorded;
    } else {
      var last := |recorded| - 1;
      assert recorded[..last][..n] == recorded[..n];
      StaysRefused(recorded[..last], ms, n);
    }
  }

  //
  // The plan by position, for a set that load_migrations accepts
  //

  predicate Agrees(recorded: seq<Row>, ms: seq<Migration>) {
    forall i :: 0 <= i < |recorded| && i < |ms| ==> recorded[i].checksum == ms[i].checksum
  }

  function Range(first: int, last: int): (r: seq<int>)
    ensures |r| == if first <= last then last - first + 1 else 0
    ensures forall i :: 0 <= i < |r| ==> r[i] == first + i
  {
    seq(if first <= last then last - first + 1 else 0, i => first + i)
  }

  lemma {:induction false} FileByPosition(ms: seq<Migration>, v: int)
    requires ValidSet(ms)
    ensures FileOf(ms, v) == if 1 <= v <= |ms| then Some(ms[v - 1]) else None
    ensures Highest(ms) == |ms|
  {
    if ms != [] {
      FileByPosition(ms[..|ms| - 1], v);
    }
  }

  lemma {:induction false} ProblemByPosition(recorded: seq<Row>, ms: seq<Migration>)
    requires ValidSet(ms) && Counts(recorded)
    ensures Problem(recorded, ms) == if Agrees(recorded, ms) then None else Some(ChangedFile)
  {
    if recorded != [] {
      var last := |recorded| - 1;
      ProblemByPosition(recorded[..last], ms);
      FileByPosition(ms, last + 1);
      assert Agrees(recorded, ms)
             <==> Agrees(recorded[..last], ms) && (last < |ms| ==> recorded[last].checksum == ms[last].checksum);
    }
  }

  lemma {:induction false} AheadByPosition(recorded: seq<Row>, ms: seq<Migration>)
    requires ValidSet(ms) && Counts(recorded)
    ensures Ahead(recorded, ms) == Range(|ms| + 1, |recorded|)
  {
    if recorded != [] {
      var last := |recorded| - 1;
      AheadByPosition(recorded[..last], ms);
      FileByPosition(ms, last + 1);
    }
  }

  lemma {:induction false} AboveByPosition(n: nat, ms: seq<Migration>)
    requires ValidSet(ms)
    ensures Above(n, ms) == if n <= |ms| then ms[n..] else []
  {
    if ms != [] {
      AboveByPosition(n, ms[..|ms| - 1]);
      if n < |ms| {
        assert ms[n..] == ms[n..|ms| - 1] + [ms[|ms| - 1]];
      }
    }
  }

  /** Whatever the history: it is refused for a hole, for a set without files, or for a changed
      file, and otherwise the set's rest is pending and the history's rest is ahead. */
  lemma PlanByPosition(recorded: seq<Row>, ms: seq<Migration>)
    requires ValidSet(ms)
    ensures PlanOf(recorded, ms)
            == if !Counts(recorded) then Refused(Hole)
               else if recorded != [] && ms == [] then Refused(NoMigrations)
               else if !Agrees(recorded, ms) then Refused(ChangedFile)
               else Planned(if |recorded| <= |ms| then ms[|recorded|..] else [], Range(|ms| + 1, |recorded|))
    ensures PlanOf(recorded, ms).Planned? ==> PlanOf(recorded, ms).pending == [] || PlanOf(recorded, ms).ahead == []
  {
    if Counts(recorded) {
      ProblemByPosition(recorded, ms);
      AheadByPosition(recorded, ms);
      AboveByPosition(|recorded|, ms);
    }
  }

  //
  // Runs
  //

  /** The recorded history and the log of SQL that took effect. */
  datatype Db = Db(recorded: seq<Row>, log: seq<int>)

  /** How running one migration ends: done, stopped with nothing kept, stopped after SQL that ran
      outside a transaction but before its row, or stopped once the row is in. */
  datatype End = Done | Stopped | StoppedAfterSql | StoppedAfterRow

  function RunOne(db: Db, m: Migration, end: End): Db {
    match end
    case Stopped => db
    case StoppedAfterSql => if m.transactional then db else db.(log := db.log + [m.version])
    case _ => Db(db.recorded + [RowOf(m)], db.log + [m.version])
  }

  /** ends says how each version ends this time. */
  function ApplyPending(db: Db, pending: seq<Migration>, ends: int -> End): Db
    decreases |pending|
  {
    if pending == [] then db
    else
      var next := RunOne(db, pending[0], ends(pending[0].version));
      if ends(pending[0].version) == Done then ApplyPending(next, pending[1..], ends) else next
  }

  function Run(db: Db, ms: seq<Migration>, ends: int -> End): Db {
    match PlanOf(db.recorded, ms)
    case Refused(_) => db
    case Planned(pending, _) => ApplyPending(db, pending, ends)
  }

  /** A build carries the first count migrations of the project's history. */
  datatype Build = Build(count: nat, ends: int -> End)

  function RunAll(all: seq<Migration>, builds: seq<Build>): Db
    requires forall b :: b in builds ==> b.count <= |all|
  {
    if builds == [] then Db([], [])
    else
      var last := builds[|builds| - 1];
      Run(RunAll(all, builds[..|builds| - 1]), all[..last.count], last.ends)
  }

  predicate Sorted(log: seq<int>) {
    forall i, k :: 0 <= i < k < |log| ==> log[i] <= log[k]
  }

  /** How often a version may have taken effect once k migrations are recorded. */
  ghost predicate RightCount(all: seq<Migration>, k: nat, v: int, times: nat)
    requires k <= |all|
  {
    if 1 <= v <= k then (if all[v - 1].transactional then times == 1 else times >= 1)
    else times > 0 ==> v == k + 1 <= |all| && !all[k].transactional
  }

  ghost predicate DbOk(all: seq<Migration>, db: Db) {
    && |db.recorded| <= |all|
    && db.recorded == Rows(all[..|db.recorded|])
    && Sorted(db.log)
    && forall v :: RightCount(all, |db.recorded|, v, multiset(db.log)[v])
  }

  lemma LogBound(all: seq<Migration>, db: Db)
    requires DbOk(all, db)
    ensures forall i :: 0 <= i < |db.log| ==> db.log[i] <= |db.recorded| + 1
  {
    forall i | 0 <= i < |db.log| ensures db.log[i] <= |db.recorded| + 1 {
      assert db.log[i] in multiset(db.log);
      assert RightCount(all, |db.recorded|, db.log[i], multiset(db.log)[db.log[i]]);
    }
  }

  lemma RunOneKeeps(all: seq<Migration>, db: Db, end: End)
    requires ValidSet(all) && DbOk(all, db) && |db.recorded| < |all|
    ensures DbOk(all, RunOne(db, all[|db.recorded|], end))
  {
    var k := |db.recorded|;
    var m := all[k];
    var next := RunOne(db, m, end);
    LogBound(all, db);
    if next != db {
      assert next.log == db.log + [m.version];
      forall v ensures RightCount(all, |next.recorded|, v, multiset(next.log)[v]) {
        assert RightCount(all, k, v, multiset(db.log)[v]);
      }
      if |next.recorded| > k {
        assert all[..k + 1] == all[..k] + [m];
      }
    }
  }

  lemma {:induction false} ApplyKeeps(all: seq<Migration>, db: Db, n: nat, ends: int -> End)
    requires ValidSet(all) && DbOk(all, db) && |db.recorded| <= n <= |all|
    ensures DbOk(all, ApplyPending(db, all[|db.recorded|..n], ends))
    ensures (forall v :: ends(v) == Done) ==> |ApplyPending(db, all[|db.recorded|..n], ends).recorded| == n
    decreases n - |db.recorded|
  {
    var k := |db.recorded|;
    if k < n {
      RunOneKeeps(all, db, ends(k + 1));
      assert all[k..n][1..] == all[k + 1..n];
      if ends(k + 1) == Done {
        ApplyKeeps(all, RunOne(db, all[k], Done), n, ends);
      }
    }
  }

  /** Against a history these builds wrote, a build that carries any migration always gets a plan:
      what it has beyond the history is pending, what the history has beyond it is ahead. */
  lemma PlanIsExact(all: seq<Migration>, db: Db, n: nat)
    requires ValidSet(all) && DbOk(all, db) && n <= |all| && (n == 0 ==> db.recorded == [])
    ensures var k := |db.recorded|;
            PlanOf(db.recorded, all[..n]) == Planned(if k <= n then all[k..n] else [], Range(n + 1, k))
  {
    var k := |db.recorded|;
    PlanByPosition(db.recorded, all[..n]);
    if k <= n {
      assert all[..n][k..] == all[k..n];
    }
  }

  lemma RunKeeps(all: seq<Migration>, db: Db, n: nat, ends: int -> End)
    requires ValidSet(all) && DbOk(all, db) && n <= |all|
    ensures DbOk(all, Run(db, all[..n], ends))
  {
    if n > 0 || db.recorded == [] {
      PlanIsExact(all, db, n);
      if |db.recorded| <= n {
        ApplyKeeps(all, db, n, ends);
      }
    }
  }

  /** After any serialized runs of any builds, each stopped anywhere: the history is 1..K with the
      right names and checksums, SQL took effect in version order, each recorded transactional
      migration once and no unrecorded one, and the only SQL beyond the history is that of the
      next migration, if it runs outside a transaction. */
  lemma {:induction false} HistoryStaysExact(all: seq<Migration>, builds: seq<Build>)
    requires ValidSet(all) && forall b :: b in builds ==> b.count <= |all|
    ensures DbOk(all, RunAll(all, builds))
  {
    if builds != [] {
      var front, last := builds[..|builds| - 1], builds[|builds| - 1];
      HistoryStaysExact(all, front);
      RunKeeps(all, RunAll(all, front), last.count, last.ends);
    }
  }

  /** A run without failures leaves nothing pending, and another run changes nothing. */
  lemma CleanRunConverges(all: seq<Migration>, db: Db, n: nat, ends: int -> End, again: int -> End)
    requires ValidSet(all) && DbOk(all, db) && 0 < n <= |all| && forall v :: ends(v) == Done
    ensures var done := Run(db, all[..n], ends);
            && PlanOf(done.recorded, all[..n]).Planned? && PlanOf(done.recorded, all[..n]).pending == []
            && Run(done, all[..n], again) == done
  {
    PlanIsExact(all, db, n);
    if |db.recorded| <= n {
      ApplyKeeps(all, db, n, ends);
    }
    var done := Run(db, all[..n], ends);
    PlanIsExact(all, done, n);
  }

  /** How many migrations a run gets through, from k recorded on, before one that does not end well. */
  function Reaches(k: nat, n: nat, ends: int -> End): (r: nat)
    requires k <= n
    ensures k <= r <= n && (forall v :: k < v <= r ==> ends(v) == Done) && (r < n ==> ends(r + 1) != Done)
    decreases n - k
  {
    if k == n || ends(k + 1) != Done then k else Reaches(k + 1, n, ends)
  }

  /** The state after the versions up to r, and what the next one leaves when it stops. */
  function AppliedTo(all: seq<Migration>, db: Db, r: nat, stop: End): Db
    requires |db.recorded| <= r <= |all| && (stop != Done ==> r < |all|)
  {
    Db(db.recorded + Rows(all[|db.recorded|..r]) + (if stop == StoppedAfterRow then [RowOf(all[r])] else []),
       db.log + Range(|db.recorded| + 1, r)
       + (if stop == StoppedAfterRow || (stop == StoppedAfterSql && !all[r].transactional) then [r + 1] else []))
  }

  lemma FirstRow(all: seq<Migration>, k: nat, r: nat)
    requires k < r <= |all|
    ensures Rows(all[k..r]) == [RowOf(all[k])] + Rows(all[k + 1..r])
  {
    assert all[k..r] == [all[k]] + all[k + 1..r];
  }

  lemma FirstOfRange(k: int, r: int)
    requires k < r
    ensures Range(k + 1, r) == [k + 1] + Range(k + 2, r)
  {
  }

  lemma Regroup<T>(a: seq<T>, x: T, b: seq<T>, c: seq<T>)
    ensures (a + [x]) + b + c == a + ([x] + b) + c
  {
  }

  lemma AppliedOneMore(all: seq<Migration>, db: Db, r: nat, stop: End)
    requires ValidSet(all) && |db.recorded| < r <= |all| && (stop != Done ==> r < |all|)
    ensures AppliedTo(all, RunOne(db, all[|db.recorded|], Done), r, stop) == AppliedTo(all, db, r, stop)
  {
    var k := |db.recorded|;
    FirstRow(all, k, r);
    FirstOfRange(k, r);
    Regroup(db.recorded, RowOf(all[k]), Rows(all[k + 1..r]), if stop == StoppedAfterRow then [RowOf(all[r])] else []);
    Regroup(db.log, k + 1, Range(k + 2, r),
            if stop == StoppedAfterRow || (stop == StoppedAfterSql && !all[r].transactional) then [r + 1] else []);
  }

  lemma AppliedNoMore(all: seq<Migration>, db: Db, stop: End)
    requires ValidSet(all) && |db.recorded| <= |all| && (stop != Done ==> |db.recorded| < |all|)
    ensures AppliedTo(all, db, |db.recorded|, stop) == if stop == Done then db else RunOne(db, all[|db.recorded|], stop)
  {
    var k := |db.recorded|;
    assert Rows(all[k..k]) == [] && Range(k + 1, k) == [];
  }

  lemma AppliesNext(all: seq<Migration>, db: Db, n: nat, ends: int -> End)
    requires ValidSet(all) && |db.recorded| < n <= |all|
    ensures var k := |db.recorded|;
            ApplyPending(db, all[k..n], ends)
            == if ends(k + 1) == Done then ApplyPending(RunOne(db, all[k], Done), all[k + 1..n], ends)
               else RunOne(db, all[k], ends(k + 1))
  {
    var k := |db.recorded|;
    assert all[k..n][0] == all[k] && all[k..n][1..] == all[k + 1..n];
  }

  lemma {:induction false} AppliesUpTo(all: seq<Migration>, db: Db, n: nat, ends: int -> End, r: nat)
    requires ValidSet(all) && |db.recorded| <= r <= n <= |all| && r == Reaches(|db.recorded|, n, ends)
    ensures ApplyPending(db, all[|db.recorded|..n], ends) == AppliedTo(all, db, r, if r < n then ends(r + 1) else Done)
    decreases r - |db.recorded|
  {
    if |db.recorded| < n {
      AppliesNext(all, db, n, ends);
    }
    var stop := if r < n then ends(r + 1) else Done;
    if |db.recorded| < r {
      AppliesUpTo(all, RunOne(db, all[|db.recorded|], Done), n, ends, r);
      AppliedOneMore(all, db, r, stop);
    } else {
      AppliedNoMore(all, db, stop);
    }
  }

  lemma RowsUpTo(all: seq<Migration>, k: nat, r: nat)
    requires k <= r <= |all|
    ensures Rows(all[..k]) + Rows(all[k..r]) == Rows(all[..r])
    ensures r < |all| ==> Rows(all[..r]) + [RowOf(all[r])] == Rows(all[..r + 1])
  {
  }

  lemma AppliedRows(all: seq<Migration>, db: Db, r: nat, stop: End)
    requires |db.recorded| <= r <= |all| && (stop != Done ==> r < |all|) && db.recorded == Rows(all[..|db.recorded|])
    ensures AppliedTo(all, db, r, stop).recorded == Rows(all[..if stop == StoppedAfterRow then r + 1 else r])
  {
    RowsUpTo(all, |db.recorded|, r);
  }

  lemma RunApplies(all: seq<Migration>, db: Db, n: nat, ends: int -> End, r: nat)
    requires ValidSet(all) && DbOk(all, db) && |db.recorded| <= r <= n <= |all| && r == Reaches(|db.recorded|, n, ends)
    ensures Run(db, all[..n], ends) == AppliedTo(all, db, r, if r < n then ends(r + 1) else Done)
  {
    PlanIsExact(all, db, n);
    AppliesUpTo(all, db, n, ends, r);
  }

  /** A run applies the versions after the recorded ones, one by one, up to the first that does not end
      well, and none after it. That one leaves nothing, but for its SQL when it stopped after that
      outside a transaction, and its SQL and its row when it stopped after both. */
  lemma RunStopsThere(all: seq<Migration>, db: Db, n: nat, ends: int -> End)
    requires ValidSet(all) && DbOk(all, db) && |db.recorded| <= n <= |all|
    ensures var k := |db.recorded|;
            var r := Reaches(k, n, ends);
            var stop := if r < n then ends(r + 1) else Done;
            && Run(db, all[..n], ends).recorded == Rows(all[..if stop == StoppedAfterRow then r + 1 else r])
            && Run(db, all[..n], ends).log
               == db.log + Range(k + 1, r)
                  + (if stop == StoppedAfterRow || (stop == StoppedAfterSql && !all[r].transactional) then [r + 1] else [])
  {
    var r := Reaches(|db.recorded|, n, ends);
    RunApplies(all, db, n, ends, r);
    AppliedRows(all, db, r, if r < n then ends(r + 1) else Done);
  }

  datatype Startup = Refuses | Starts(ahead: seq<int>)

  function CheckSchema(tableExists: bool, recorded: seq<Row>, ms: seq<Migration>): Startup {
    if !tableExists then Refuses
    else match PlanOf(recorded, ms)
      case Refused(_) => Refuses
      case Planned(pending, ahead) => if pending != [] then Refuses else Starts(ahead)
  }

  /** A build starts if and only if the bookkeeping table exists and the history reaches it, and it is
      told what lies ahead of it. */
  lemma StartsIffReached(all: seq<Migration>, db: Db, n: nat, tableExists: bool)
    requires ValidSet(all) && DbOk(all, db) && 0 < n <= |all|
    ensures CheckSchema(tableExists, db.recorded, all[..n])
            == if tableExists && n <= |db.recorded| then Starts(Range(n + 1, |db.recorded|)) else Refuses
  {
    PlanIsExact(all, db, n);
  }

  //
  // The runner
  //

  class Runner {
    var recorded: seq<Row>
    ghost var log: seq<int>

    ghost function Value(): Db
      reads this
    {
      Db(recorded, log)
    }

    constructor ()
      ensures Value() == Db([], [])
    {
      recorded, log := [], [];
    }

    method Record(m: Migration)
      modifies `recorded
      ensures recorded == old(recorded) + [RowOf(m)]
    {
      recorded := recorded + [RowOf(m)];
    }

    method RunOneMigration(m: Migration, end: End) returns (done: bool)
      modifies this
      ensures Value() == RunOne(old(Value()), m, end) && (done <==> end == Done)
    {
      if end == Stopped || (end == StoppedAfterSql && m.transactional) {
        return false;
      }
      log := log + [m.version];
      if end == StoppedAfterSql {
        return false;
      }
      Record(m);
      return end == Done;
    }

    /** _apply: the versions applied by this run, or where it stopped. */
    method ApplyMigrations(ms: seq<Migration>, ends: int -> End) returns (applied: seq<int>, ok: bool)
      modifies this
      ensures Value() == Run(old(Value()), ms, ends)
      ensures ok ==> PlanOf(old(recorded), ms).Planned? && |applied| == |PlanOf(old(recorded), ms).pending|
      ensures ValidSet(ms) ==> forall i :: 0 <= i < |applied| ==> applied[i] == |old(recorded)| + 1 + i
    {
      applied := [];
      var plan := PlanMigrations(recorded, ms);
      if plan.Refused? {
        return [], false;
      }
      if ValidSet(ms) {
        PlanByPosition(recorded, ms);
      }
      assert plan.pending[0..] == plan.pending;
      for i := 0 to |plan.pending|
        invariant |applied| == i
        invariant ValidSet(ms) ==> forall k :: 0 <= k < i ==> applied[k] == |old(recorded)| + 1 + k
        invariant ApplyPending(Value(), plan.pending[i..], ends) == ApplyPending(old(Value()), plan.pending, ends)
      {
        var m := plan.pending[i];
        assert plan.pending[i..][0] == m && plan.pending[i..][1..] == plan.pending[i + 1..];
        var done := RunOneMigration(m, ends(m.version));
        if !done {
          return applied, false;
        }
        applied := applied + [m.version];
      }
      return applied, true;
    }
  }
}
