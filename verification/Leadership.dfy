/** Leader election by a session-level advisory lock (app/infrastructure/postgres_scheduler_leadership.py):
any number of processes, one database call at a time, sessions that may end at any moment and
answers that may be lost on the way. */
module Leadership {
  import opened Options

  type Process = int
  type Session = int

  /** Where a process is: between calls, or inside try_acquire with a connection just opened.
      stored is the field _connection. */
  datatype Local = Local(stored: Option<Session>, trying: Option<Session>)

  /** closing holds sessions whose client has closed them, or died, but which the server may not
      have ended yet. made counts the sessions ever made. */
  datatype World = World(
    locals: map<Process, Local>,
    live: set<Session>,
    owner: Option<Session>,
    closing: set<Session>,
    made: nat)

  const START := World(map[], {}, None, {}, 0)

  function LocalOf(w: World, p: Process): Local {
    if p in w.locals then w.locals[p] else Local(None, None)
  }

  function Put(w: World, p: Process, local: Local): World {
    w.(locals := w.locals[p := local])
  }

  /** One database call, or one event, and what it meets. */
  datatype Event =
    | PingAnswered(p: Process)
    | PingFailed(p: Process)
    | Connected(p: Process)
    | ConnectFailed(p: Process)
    | LockAnswered(p: Process)
    | LockFailed(p: Process, reachedServer: bool)
    | Released(p: Process, unlocked: bool)
    | SessionEnded(s: Session)
    | ProcessDied(p: Process)

  predicate LockFree(w: World, s: Session) {
    w.owner.None? || w.owner == Some(s)
  }

  /** When an event can happen. Only a live session answers. */
  predicate Enabled(w: World, e: Event) {
    match e
    case PingAnswered(p) => LocalOf(w, p).trying.None? && LocalOf(w, p).stored.Some? && LocalOf(w, p).stored.value in w.live
    case PingFailed(p) => LocalOf(w, p).trying.None? && LocalOf(w, p).stored.Some?
    case Connected(p) => LocalOf(w, p).trying.None? && LocalOf(w, p).stored.None?
    case ConnectFailed(p) => LocalOf(w, p).trying.None? && LocalOf(w, p).stored.None?
    case LockAnswered(p) => LocalOf(w, p).trying.Some? && LocalOf(w, p).trying.value in w.live
    case LockFailed(p, reached) => LocalOf(w, p).trying.Some? && (reached ==> LocalOf(w, p).trying.value in w.live)
    case Released(p, unlocked) =>
      LocalOf(w, p).trying.None? && LocalOf(w, p).stored.Some? && (unlocked ==> LocalOf(w, p).stored.value in w.live)
    case SessionEnded(s) => s in w.live
    case ProcessDied(p) => true
  }

  function SetOf(s: Option<Session>): set<Session> {
    if s.Some? then {s.value} else {}
  }

  function Next(w: World, e: Event): World
    requires Enabled(w, e)
  {
    match e
    case PingAnswered(p) => w
    case PingFailed(p) =>
      Put(w, p, Local(None, None)).(closing := w.closing + {LocalOf(w, p).stored.value})
    case Connected(p) =>
      Put(w, p, Local(None, Some(w.made))).(live := w.live + {w.made}, made := w.made + 1)
    case ConnectFailed(p) => w
    case LockAnswered(p) =>
      var s := LocalOf(w, p).trying.value;
      if LockFree(w, s) then Put(w, p, Local(Some(s), None)).(owner := Some(s))
      else Put(w, p, Local(None, None)).(closing := w.closing + {s})
    case LockFailed(p, reached) =>
      var s := LocalOf(w, p).trying.value;
      Put(w, p, Local(None, None)).(closing := w.closing + {s},
                                    owner := if reached && LockFree(w, s) then Some(s) else w.owner)
    case Released(p, unlocked) =>
      var s := LocalOf(w, p).stored.value;
      Put(w, p, Local(None, None)).(closing := w.closing + {s},
                                    owner := if unlocked && w.owner == Some(s) then None else w.owner)
    case SessionEnded(s) => w.(live := w.live - {s}, owner := if w.owner == Some(s) then None else w.owner)
    case ProcessDied(p) =>
      var local := LocalOf(w, p);
      Put(w, p, Local(None, None)).(closing := w.closing + SetOf(local.stored) + SetOf(local.trying))
  }

  /** try_acquire answers True on a ping that is answered or a lock that is granted, and False on
      a connection or a lock call that fails or is refused. */
  predicate AnswersTrue(w: World, e: Event) {
    e.PingAnswered? || (e.LockAnswered? && LocalOf(w, e.p).trying.Some? && LockFree(w, LocalOf(w, e.p).trying.value))
  }

  predicate AnswersFalse(w: World, e: Event) {
    || e.ConnectFailed? || e.LockFailed?
    || (e.LockAnswered? && LocalOf(w, e.p).trying.Some? && !LockFree(w, LocalOf(w, e.p).trying.value))
  }

  //
  // The invariant
  //

  predicate Uses(local: Local, s: Session) {
    local.stored == Some(s) || local.trying == Some(s)
  }

  ghost predicate SomeoneUses(w: World, s: Session) {
    exists p :: p in w.locals && Uses(w.locals[p], s)
  }

  /** A session in use is not closing, and has one user. */
  ghost predicate UsesApart(w: World) {
    && (forall p, s :: p in w.locals && Uses(w.locals[p], s) ==> s < w.made && s !in w.closing)
    && (forall p, q, s :: p in w.locals && q in w.locals && Uses(w.locals[p], s) && Uses(w.locals[q], s) ==> p == q)
  }

  /** The lock's owner is live, and a stored session that is live owns the lock. */
  ghost predicate OwnerOk(w: World) {
    && (w.owner.Some? ==> w.owner.value in w.live)
    && (forall p :: p in w.locals && w.locals[p].stored.Some? && w.locals[p].stored.value in w.live ==>
          w.owner == w.locals[p].stored)
  }

  ghost predicate WorldOk(w: World) {
    && UsesApart(w)
    && (forall p :: p in w.locals ==> w.locals[p].stored.None? || w.locals[p].trying.None?)
    && (forall s :: s in w.live || s in w.closing ==> s < w.made)
    && (forall s :: s in w.live ==> s in w.closing || SomeoneUses(w, s))
    && OwnerOk(w)
  }

  /** Only its user closes a session, and uses none afterwards. */
  lemma ClosedByItsUser(w: World, e: Event, s: Session)
    requires Enabled(w, e) && s in Next(w, e).closing && s !in w.closing
    ensures !e.SessionEnded? && e.p in w.locals && Uses(w.locals[e.p], s) && LocalOf(Next(w, e), e.p) == Local(None, None)
  {
  }

  /** A session is used after an event only by the process that used it before, or just made it. */
  lemma UsesCarryOver(w: World, e: Event, p: Process, s: Session)
    requires WorldOk(w) && Enabled(w, e)
    requires p in Next(w, e).locals && Uses(Next(w, e).locals[p], s)
    ensures (p in w.locals && Uses(w.locals[p], s)) || (e == Connected(p) && s == w.made)
    ensures s < Next(w, e).made && s !in Next(w, e).closing
  {
    var w' := Next(w, e);
    if p in w.locals && Uses(w.locals[p], s) && s in w'.closing {
      ClosedByItsUser(w, e, s);
      assert false;
    }
  }

  lemma LiveAreUsed(w: World, e: Event, s: Session)
    requires WorldOk(w) && Enabled(w, e) && s in Next(w, e).live
    ensures s in Next(w, e).closing || SomeoneUses(Next(w, e), s)
  {
    var w' := Next(w, e);
    assert w.closing <= w'.closing;
    if s !in w.live {
      assert e.Connected? && Uses(w'.locals[e.p], s);
    } else if s !in w'.closing {
      assert SomeoneUses(w, s);
      var q :| q in w.locals && Uses(w.locals[q], s);
      assert q in w'.locals && Uses(w'.locals[q], s);
    }
  }

  lemma UsesStayApart(w: World, e: Event)
    requires WorldOk(w) && Enabled(w, e)
    ensures UsesApart(Next(w, e))
  {
    var w' := Next(w, e);
    forall p, s | p in w'.locals && Uses(w'.locals[p], s) ensures s < w'.made && s !in w'.closing {
      UsesCarryOver(w, e, p, s);
    }
    forall p, q, s | p in w'.locals && q in w'.locals && Uses(w'.locals[p], s) && Uses(w'.locals[q], s) ensures p == q {
      UsesCarryOver(w, e, p, s);
      UsesCarryOver(w, e, q, s);
    }
  }

  lemma OwnerStays(w: World, e: Event)
    requires WorldOk(w) && Enabled(w, e)
    ensures OwnerOk(Next(w, e))
  {
    var w' := Next(w, e);
    forall p | p in w'.locals && w'.locals[p].stored.Some? && w'.locals[p].stored.value in w'.live
      ensures w'.owner == w'.locals[p].stored
    {
      var s := w'.locals[p].stored.value;
      assert Uses(w'.locals[p], s);
      UsesCarryOver(w, e, p, s);
      assert e.LockAnswered? && e.p != p ==> Uses(w.locals[e.p], w.locals[e.p].trying.value);
    }
  }

  lemma EventKeeps(w: World, e: Event)
    requires WorldOk(w) && Enabled(w, e)
    ensures WorldOk(Next(w, e))
  {
    UsesStayApart(w, e);
    OwnerStays(w, e);
    forall s | s in Next(w, e).live ensures s in Next(w, e).closing || SomeoneUses(Next(w, e), s) {
      LiveAreUsed(w, e, s);
    }
  }

  //
  // Runs
  //

  ghost predicate IsRun(worlds: seq<World>, events: seq<Event>) {
    && |worlds| == |events| + 1 && worlds[0] == START
    && forall i :: 0 <= i < |events| ==> Enabled(worlds[i], events[i]) && worlds[i + 1] == Next(worlds[i], events[i])
  }

  lemma {:induction false} AlwaysOk(worlds: seq<World>, events: seq<Event>, i: nat)
    requires IsRun(worlds, events) && i < |worlds|
    ensures WorldOk(worlds[i])
  {
    if i > 0 {
      AlwaysOk(worlds, events, i - 1);
      EventKeeps(worlds[i - 1], events[i - 1]);
    }
  }

  ghost predicate Leads(w: World, p: Process) {
    p in w.locals && w.locals[p].stored.Some? && w.locals[p].stored.value in w.live
  }

  ghost predicate LeadsAlone(w: World, p: Process) {
    Leads(w, p) && forall q :: Leads(w, q) ==> q == p
  }

  /** In every run, at most one process stores a connection whose session is live, and that session
      owns the lock; the lock's owner is always live, and stored, just opened, or being closed. */
  lemma OneLeader(worlds: seq<World>, events: seq<Event>, i: nat)
    requires IsRun(worlds, events) && i < |worlds|
    ensures forall p, q :: Leads(worlds[i], p) && Leads(worlds[i], q) ==> p == q
    ensures forall p :: Leads(worlds[i], p) ==> worlds[i].owner == worlds[i].locals[p].stored
    ensures worlds[i].owner.Some? ==>
              && worlds[i].owner.value in worlds[i].live
              && (worlds[i].owner.value in worlds[i].closing || SomeoneUses(worlds[i], worlds[i].owner.value))
  {
    AlwaysOk(worlds, events, i);
    var w := worlds[i];
    forall p, q | Leads(w, p) && Leads(w, q) ensures p == q {
      assert Uses(w.locals[p], w.owner.value) && Uses(w.locals[q], w.owner.value);
    }
  }

  /** A process told True leads alone at that moment. One told False stores nothing, and whatever it
      had opened is being closed. */
  lemma AnswersAreRight(worlds: seq<World>, events: seq<Event>, i: nat)
    requires IsRun(worlds, events) && i < |events|
    ensures AnswersTrue(worlds[i], events[i]) ==>
              LeadsAlone(worlds[i + 1], events[i].p)
    ensures AnswersFalse(worlds[i], events[i]) ==>
              && LocalOf(worlds[i + 1], events[i].p) == Local(None, None)
              && SetOf(LocalOf(worlds[i], events[i].p).trying) <= worlds[i + 1].closing
  {
    var w, e, w' := worlds[i], events[i], worlds[i + 1];
    assert w' == Next(w, e);
    AlwaysOk(worlds, events, i);
    OneLeader(worlds, events, i + 1);
    if AnswersTrue(w, e) {
      assert Leads(w', e.p);
    }
  }

  //
  // Calls as events
  //

  predicate IsOf(e: Event, p: Process) {
    !e.SessionEnded? && e.p == p
  }

  /** calls are the events of p from i to j, in order. */
  ghost predicate AreCalls(events: seq<Event>, p: Process, i: nat, j: nat, calls: seq<nat>)
    requires i <= j <= |events|
  {
    && (forall k :: 0 <= k < |calls| ==> i <= calls[k] < j)
    && (forall k, l :: 0 <= k < l < |calls| ==> calls[k] < calls[l])
    && (forall m :: i <= m < j && IsOf(events[m], p) ==> m in calls)
    && (forall k :: 0 <= k < |calls| ==> IsOf(events[calls[k]], p))
  }

  /** What other processes and the server do leaves the fields of p alone. */
  lemma {:induction false} OthersLeave(worlds: seq<World>, events: seq<Event>, p: Process, i: nat, j: nat)
    requires IsRun(worlds, events) && i <= j <= |events|
    requires forall m :: i <= m < j ==> !IsOf(events[m], p)
    ensures LocalOf(worlds[j], p) == LocalOf(worlds[i], p)
    decreases j - i
  {
    if i < j {
      assert worlds[i + 1] == Next(worlds[i], events[i]) && !IsOf(events[i], p);
      OthersLeave(worlds, events, p, i + 1, j);
    }
  }

  lemma BetweenCalls(calls: seq<nat>, k: nat, m: nat)
    requires k <= |calls| && forall l, n :: 0 <= l < n < |calls| ==> calls[l] < calls[n]
    requires (k > 0 ==> calls[k - 1] < m) && (k < |calls| ==> m < calls[k])
    ensures m !in calls
  {
    forall l | 0 <= l < |calls| ensures calls[l] != m {
      assert l < k - 1 ==> calls[l] < calls[k - 1];
      assert k < l ==> calls[k] < calls[l];
    }
  }

  /** p is, at each of its calls, where the call before it left it, and at the end where the last did. */
  lemma CallsMeet(worlds: seq<World>, events: seq<Event>, p: Process, i: nat, j: nat, calls: seq<nat>, k: nat)
    requires IsRun(worlds, events) && i <= j <= |events| && AreCalls(events, p, i, j, calls) && k <= |calls|
    ensures LocalOf(worlds[if k < |calls| then calls[k] else j], p) == LocalOf(worlds[if k == 0 then i else calls[k - 1] + 1], p)
  {
    var from, until := if k == 0 then i else calls[k - 1] + 1, if k < |calls| then calls[k] else j;
    forall m | from <= m < until ensures !IsOf(events[m], p) {
      BetweenCalls(calls, k, m);
    }
    OthersLeave(worlds, events, p, from, until);
  }

  /** The calls that try_acquire makes with a stored connection, and what each is told: the ping, the
      session of a new connection, and whether the lock call found the lock free. */
  ghost predicate TryAcquireTold(worlds: seq<World>, events: seq<Event>, calls: seq<nat>, stored: Option<Session>,
                                 pinged: bool, dialed: Option<Session>, locked: Option<bool>)
    requires IsRun(worlds, events) && forall k :: 0 <= k < |calls| ==> calls[k] < |events|
  {
    if stored.Some? && pinged then |calls| == 1 && events[calls[0]].PingAnswered?
    else
      var n := if stored.Some? then 1 else 0;
      && |calls| == (if dialed.Some? then n + 2 else n + 1)
      && (stored.Some? ==> events[calls[0]].PingFailed?)
      && (dialed.None? ==> events[calls[n]].ConnectFailed?)
      && (dialed.Some? ==>
            && events[calls[n]].Connected? && dialed.value == worlds[calls[n]].made
            && (locked.None? ==> events[calls[n + 1]].LockFailed?)
            && (locked.Some? ==>
                  events[calls[n + 1]].LockAnswered? && (locked.value <==> LockFree(worlds[calls[n + 1]], dialed.value))))
  }

  /** The field _connection after try_acquire. */
  function Kept(stored: Option<Session>, pinged: bool, dialed: Option<Session>, locked: Option<bool>): Option<Session> {
    if stored.Some? && pinged then stored
    else if dialed.Some? && locked == Some(true) then dialed
    else None
  }

  /** Before the dial p stores nothing and tries nothing. */
  lemma DialsBare(worlds: seq<World>, events: seq<Event>, p: Process, i: nat, j: nat, calls: seq<nat>,
                  stored: Option<Session>, dialed: Option<Session>, locked: Option<bool>)
    requires IsRun(worlds, events) && i <= j <= |events| && AreCalls(events, p, i, j, calls)
    requires LocalOf(worlds[i], p) == Local(stored, None)
    requires TryAcquireTold(worlds, events, calls, stored, false, dialed, locked)
    ensures LocalOf(worlds[calls[if stored.Some? then 1 else 0]], p) == Local(None, None)
  {
    CallsMeet(worlds, events, p, i, j, calls, 0);
    if stored.Some? {
      assert worlds[calls[0] + 1] == Next(worlds[calls[0]], events[calls[0]]);
      CallsMeet(worlds, events, p, i, j, calls, 1);
    }
  }

  lemma TryAcquireEnds(worlds: seq<World>, events: seq<Event>, p: Process, i: nat, j: nat, calls: seq<nat>,
                       stored: Option<Session>, pinged: bool, dialed: Option<Session>, locked: Option<bool>)
    requires IsRun(worlds, events) && i <= j <= |events| && AreCalls(events, p, i, j, calls)
    requires LocalOf(worlds[i], p) == Local(stored, None)
    requires TryAcquireTold(worlds, events, calls, stored, pinged, dialed, locked)
    ensures var last := calls[|calls| - 1];
            var kept := Kept(stored, pinged, dialed, locked);
            && LocalOf(worlds[last + 1], p) == Local(kept, None)
            && (kept.Some? <==> AnswersTrue(worlds[last], events[last]))
            && (kept.None? <==> AnswersFalse(worlds[last], events[last]))
  {
    var last := |calls| - 1;
    assert worlds[calls[last] + 1] == Next(worlds[calls[last]], events[calls[last]]);
    if stored.Some? && pinged {
      CallsMeet(worlds, events, p, i, j, calls, 0);
    } else {
      DialsBare(worlds, events, p, i, j, calls, stored, dialed, locked);
      if dialed.Some? {
        var n := last - 1;
        assert worlds[calls[n] + 1] == Next(worlds[calls[n]], events[calls[n]]);
        CallsMeet(worlds, events, p, i, j, calls, last);
      }
    }
  }

  /** In every run in which the calls of p are those of one try_acquire, the object's fields are the
      process's fields in the machine, and its answer is the machine's: True leads alone. */
  lemma TryAcquireIsARun(worlds: seq<World>, events: seq<Event>, p: Process, i: nat, j: nat, calls: seq<nat>,
                         stored: Option<Session>, pinged: bool, dialed: Option<Session>, locked: Option<bool>)
    requires IsRun(worlds, events) && i <= j <= |events| && AreCalls(events, p, i, j, calls)
    requires LocalOf(worlds[i], p) == Local(stored, None)
    requires TryAcquireTold(worlds, events, calls, stored, pinged, dialed, locked)
    ensures var kept := Kept(stored, pinged, dialed, locked);
            && LocalOf(worlds[j], p) == Local(kept, None)
            && (kept.Some? ==> LeadsAlone(worlds[calls[|calls| - 1] + 1], p))
            && (kept.None? && dialed.Some? ==> dialed.value in worlds[calls[|calls| - 1] + 1].closing)
  {
    TryAcquireEnds(worlds, events, p, i, j, calls, stored, pinged, dialed, locked);
    CallsMeet(worlds, events, p, i, j, calls, |calls|);
    AnswersAreRight(worlds, events, calls[|calls| - 1]);
    if Kept(stored, pinged, dialed, locked).None? && dialed.Some? {
      var last := |calls| - 1;
      DialsBare(worlds, events, p, i, j, calls, stored, dialed, locked);
      assert worlds[calls[last - 1] + 1] == Next(worlds[calls[last - 1]], events[calls[last - 1]]);
      CallsMeet(worlds, events, p, i, j, calls, last);
    }
  }

  /** release is one event, or none when nothing is stored. It leaves p without a connection; an
      unlock that is answered leaves the lock free at once, and otherwise it goes with the session. */
  lemma ReleaseIsARun(worlds: seq<World>, events: seq<Event>, p: Process, i: nat, j: nat, calls: seq<nat>,
                      stored: Option<Session>, unlocked: bool)
    requires IsRun(worlds, events) && i <= j <= |events| && AreCalls(events, p, i, j, calls)
    requires LocalOf(worlds[i], p) == Local(stored, None)
    requires |calls| == if stored.Some? then 1 else 0
    requires stored.Some? ==> events[calls[0]] == Released(p, unlocked)
    ensures LocalOf(worlds[j], p) == Local(None, None)
    ensures stored.Some? ==>
              && stored.value in worlds[calls[0] + 1].closing
              && (unlocked ==> worlds[calls[0]].owner == stored && worlds[calls[0] + 1].owner.None?)
              && (!unlocked ==> worlds[calls[0] + 1].owner == worlds[calls[0]].owner)
  {
    CallsMeet(worlds, events, p, i, j, calls, 0);
    if stored.Some? {
      AlwaysOk(worlds, events, calls[0]);
      assert worlds[calls[0] + 1] == Next(worlds[calls[0]], events[calls[0]]);
      CallsMeet(worlds, events, p, i, j, calls, 1);
    }
  }

  //
  // The object itself
  //

  class PostgresLeadership {
    var connection: Option<Session>
    var unreachable: bool

    constructor ()
      ensures connection.None? && !unreachable
    {
      connection, unreachable := None, false;
    }

    /** pinged says whether a stored connection still answers, dialed is the new connection if one
        could be made, and locked its answer to the lock call. The sessions closed on the way are
        reported: none stays open but the one stored. */
    method TryAcquire(pinged: bool, dialed: Option<Session>, locked: Option<bool>) returns (leads: bool, closed: set<Session>)
      modifies this
      ensures leads <==> connection.Some?
      ensures connection == Kept(old(connection), pinged, dialed, locked)
      ensures closed == if old(connection).Some? && pinged then {}
                        else SetOf(old(connection)) + if leads then {} else SetOf(dialed)
      ensures unreachable <==> if old(connection).Some? && pinged then old(unreachable) else dialed.None? || locked.None?
    {
      closed := {};
      if connection.Some? {
        if pinged {
          return true, {};
        }
        closed := closed + {connection.value};
        connection := None;
      }
      if dialed.None? {
        unreachable := true;
        return false, closed;
      }
      if locked.None? {
        closed := closed + {dialed.value};
        unreachable := true;
        return false, closed;
      }
      unreachable := false;
      if !locked.value {
        closed := closed + {dialed.value};
        return false, closed;
      }
      connection := dialed;
      return true, closed;
    }

    /** reached says whether an unlock is answered. The session is told to unlock, then closed. */
    method Release(reached: bool) returns (unlocked: set<Session>, closed: set<Session>)
      modifies this
      ensures connection.None? && unreachable == old(unreachable)
      ensures closed == SetOf(old(connection)) && unlocked == if reached then closed else {}
    {
      unlocked, closed := {}, {};
      if connection.None? {
        return;
      }
      var released := connection.value;
      connection := None;
      if reached {
        unlocked := {released};
      }
      closed := {released};
    }
  }
}
