/** The agent's renewal thread (scripts/run_agent.py) and how long it trusts a lease it cannot renew.
Times are seconds on the agent's monotonic clock; a wait lasts exactly as long as it is told to. */
module AgentLease {
  import opened Options

  const LEASE_SECONDS: real := 30.0
  const RENEWAL_INTERVAL: real := 10.0
  const AGE_MARGIN: real := 5.0
  const TRUST_WINDOW: real := LEASE_SECONDS - AGE_MARGIN
  const BACKOFF_BASE: real := 1.0
  const BACKOFF_CAP: real := 30.0
  const MAX_BACKOFF_EXPONENT: nat := 10

  /** What a renewal call meets: confirmed, refused, a transient error with the jitter drawn for
      it and the server's Retry-After, or any other error. */
  datatype Reply = Confirmed | NotOurs | Transient(draw: real, retryAfter: Option<real>) | Permanent

  datatype Round = Round(duration: real, reply: Reply)

  datatype Thread =
    | Waiting(lastConfirmed: real, wake: real, attempt: nat)
    | Lost(lastConfirmed: real, at: real)

  function Max(a: real, b: real): real {
    if a >= b then a else b
  }

  function Min(a: real, b: real): real {
    if a <= b then a else b
  }

  function Power(n: nat): real {
    if n == 0 then 1.0 else 2.0 * Power(n - 1)
  }

  function Ceiling(attempt: nat): real {
    Min(BACKOFF_CAP, BACKOFF_BASE * Power(if attempt <= MAX_BACKOFF_EXPONENT then attempt else MAX_BACKOFF_EXPONENT))
  }

  /** A jitter draw in range, and a duration up to d. */
  predicate Possible(r: Round, attempt: nat, d: real) {
    0.0 <= r.duration <= d && (r.reply.Transient? ==> 0.0 <= r.reply.draw <= Ceiling(attempt))
  }

  function Delay(reply: Reply): real
    requires reply.Transient?
  {
    Max(reply.draw, if reply.retryAfter.Some? then reply.retryAfter.value else 0.0)
  }

  function Renew(t: Thread, r: Round): Thread
    requires t.Waiting?
  {
    var end := t.wake + r.duration;
    var deadline := t.lastConfirmed + TRUST_WINDOW;
    match r.reply
    case Confirmed => Waiting(t.wake, end + RENEWAL_INTERVAL, 0)
    case NotOurs => Lost(t.lastConfirmed, end)
    case Permanent => Lost(t.lastConfirmed, end)
    case Transient(_, _) =>
      if end >= deadline then Lost(t.lastConfirmed, end)
      else Waiting(t.lastConfirmed, end + Min(Delay(r.reply), deadline - end), t.attempt + 1)
  }

  /** What one attempt leads to: the lease is lost at its end on a refusal or an error that is not
      transient, or on any once 25 seconds have passed since the last confirmation; a confirmation counts
      from the moment of the attempt; and after a transient error the thread waits at least the jitter
      drawn and the server's Retry-After, no longer than the later of them, and never past the
      window. */
  lemma RoundOutcome(t: Thread, r: Round)
    requires t.Waiting? && (r.reply.Transient? ==> r.reply.draw >= 0.0)
    ensures var end, deadline := t.wake + r.duration, t.lastConfirmed + 25.0;
            && (Renew(t, r).Lost? <==> r.reply.NotOurs? || r.reply.Permanent? || (r.reply.Transient? && end >= deadline))
            && (Renew(t, r).Lost? ==> Renew(t, r) == Lost(t.lastConfirmed, end))
            && (r.reply.Confirmed? ==> Renew(t, r) == Waiting(t.wake, end + 10.0, 0))
            && (r.reply.Transient? && end < deadline ==>
                  var wake := Renew(t, r).wake;
                  && Renew(t, r) == Waiting(t.lastConfirmed, wake, t.attempt + 1) && wake <= deadline
                  && (|| wake == deadline
                      || (wake >= end + r.reply.draw && (r.reply.retryAfter.Some? ==> wake >= end + r.reply.retryAfter.value)))
                  && (|| wake <= end + r.reply.draw
                      || (r.reply.retryAfter.Some? && wake <= end + r.reply.retryAfter.value)))
  {
  }

  /** The ceiling of the jitter doubles from one second up to thirty. */
  lemma CeilingDoubles(attempt: nat)
    ensures Ceiling(0) == 1.0 && Ceiling(attempt + 1) == Min(30.0, 2.0 * Ceiling(attempt))
  {
    if attempt >= MAX_BACKOFF_EXPONENT {
      assert Power(5) == 32.0 && Power(10) == 1024.0 by {
        assert Power(2) == 4.0;
        assert Power(4) == 16.0;
        assert Power(6) == 64.0;
        assert Power(8) == 256.0;
      }
    }
  }

  function Begin(start: real): Thread {
    Waiting(start, start + RENEWAL_INTERVAL, 0)
  }

  /** The thread after some rounds, for as long as it runs. */
  function Runs(start: real, rounds: seq<Round>): Thread {
    if rounds == [] then Begin(start)
    else
      var before := Runs(start, rounds[..|rounds| - 1]);
      if before.Lost? then before else Renew(before, rounds[|rounds| - 1])
  }

  ghost predicate AllPossible(start: real, rounds: seq<Round>, d: real) {
    forall i :: 0 <= i < |rounds| && Runs(start, rounds[..i]).Waiting? ==>
                  Possible(rounds[i], Runs(start, rounds[..i]).attempt, d)
  }

  /** While attempts last at most 15 seconds, a thread that still trusts its lease makes its next
      attempt within the trust window, and one that gave up did so within d of its end. */
  lemma {:induction false} TrustIsBounded(start: real, rounds: seq<Round>, d: real)
    requires 0.0 <= d <= TRUST_WINDOW - RENEWAL_INTERVAL && AllPossible(start, rounds, d)
    ensures var t := Runs(start, rounds);
            && (t.Waiting? ==> t.lastConfirmed <= t.wake <= t.lastConfirmed + TRUST_WINDOW)
            && (t.Lost? ==> t.at <= t.lastConfirmed + TRUST_WINDOW + d)
  {
    if rounds != [] {
      var front := rounds[..|rounds| - 1];
      forall i | 0 <= i < |front| ensures rounds[..i] == front[..i] && rounds[i] == front[i] {
      }
      TrustIsBounded(start, front, d);
    }
  }

  /** So from one confirmation, the next confirmation or the loss comes no later than the window
      and one attempt, for every jitter draw and every Retry-After. */
  lemma EveryRoundIsInTime(start: real, rounds: seq<Round>, next: Round, d: real)
    requires 0.0 <= d <= TRUST_WINDOW - RENEWAL_INTERVAL && AllPossible(start, rounds, d)
    requires Runs(start, rounds).Waiting? && Possible(next, Runs(start, rounds).attempt, d)
    ensures var t := Runs(start, rounds);
            && t.wake + next.duration <= t.lastConfirmed + TRUST_WINDOW + d
            && (next.reply.Confirmed? || Renew(t, next).Lost? || t.wake + next.duration < t.lastConfirmed + TRUST_WINDOW)
  {
    TrustIsBounded(start, rounds, d);
  }

  /** The bound holds for attempts of at most d seconds if and only if d is at most 15. */
  lemma BoundNeedsFastAttempts(start: real, d: real)
    requires d >= 0.0
    ensures d <= TRUST_WINDOW - RENEWAL_INTERVAL
            <==> forall rounds :: AllPossible(start, rounds, d) && Runs(start, rounds).Lost? ==>
                                    Runs(start, rounds).at <= Runs(start, rounds).lastConfirmed + TRUST_WINDOW + d
  {
    if d <= TRUST_WINDOW - RENEWAL_INTERVAL {
      forall rounds | AllPossible(start, rounds, d) && Runs(start, rounds).Lost?
        ensures Runs(start, rounds).at <= Runs(start, rounds).lastConfirmed + TRUST_WINDOW + d
      {
        TrustIsBounded(start, rounds, d);
      }
    } else {
      var slow, failed := Round(d, Confirmed), Round(d, Permanent);
      var rounds := [slow, failed];
      assert rounds[..0] == [] && rounds[..1] == [slow];
      assert Runs(start, [slow]) == Waiting(start + RENEWAL_INTERVAL, start + RENEWAL_INTERVAL + d + RENEWAL_INTERVAL, 0) by {
        assert [slow][..0] == [];
      }
      assert AllPossible(start, rounds, d);
      assert Runs(start, rounds).Lost?;
    }
  }

  /** A lease was last extended by the server no earlier than age before lastConfirmed. If age and
      one attempt fit into the margin, the agent gives up no later than the server's expiry. After a
      confirmed renewal age is 0, since the server renews during the attempt. */
  lemma GivesUpBeforeExpiry(start: real, rounds: seq<Round>, d: real, age: real, extendedAt: real)
    requires 0.0 <= d && 0.0 <= age && age + d <= AGE_MARGIN && AllPossible(start, rounds, d)
    requires Runs(start, rounds).Lost? && extendedAt >= Runs(start, rounds).lastConfirmed - age
    ensures Runs(start, rounds).at <= extendedAt + LEASE_SECONDS
  {
    TrustIsBounded(start, rounds, d);
  }

  /** When the server last extended the lease: at the start it was age old, and a renewal that is
      confirmed was made at some moment of the attempt. */
  function Extended(start: real, age: real, rounds: seq<Round>, made: seq<real>): real
    requires |made| == |rounds|
  {
    if rounds == [] then start - age
    else
      var last := |rounds| - 1;
      if Runs(start, rounds[..last]).Waiting? && rounds[last].reply.Confirmed? then made[last]
      else Extended(start, age, rounds[..last], made[..last])
  }

  ghost predicate MadeInTime(start: real, rounds: seq<Round>, made: seq<real>) {
    && |made| == |rounds|
    && forall i :: 0 <= i < |rounds| && Runs(start, rounds[..i]).Waiting? && rounds[i].reply.Confirmed? ==>
         Runs(start, rounds[..i]).wake <= made[i] <= Runs(start, rounds[..i]).wake + rounds[i].duration
  }

  lemma {:induction false} ExtendedSince(start: real, age: real, rounds: seq<Round>, made: seq<real>)
    requires age >= 0.0 && MadeInTime(start, rounds, made)
    ensures Extended(start, age, rounds, made) >= Runs(start, rounds).lastConfirmed - age
  {
    if rounds != [] {
      var last := |rounds| - 1;
      var front := rounds[..last];
      assert forall i :: 0 <= i < last ==> front[..i] == rounds[..i];
      ExtendedSince(start, age, front, made[..last]);
    }
  }

  lemma {:induction false} NeverExtended(start: real, age: real, rounds: seq<Round>, made: seq<real>)
    requires |made| == |rounds| && forall i :: 0 <= i < |rounds| ==> !rounds[i].reply.Confirmed?
    ensures Extended(start, age, rounds, made) == start - age
  {
    if rounds != [] {
      NeverExtended(start, age, rounds[..|rounds| - 1], made[..|rounds| - 1]);
    }
  }

  /** An attempt at the very end of the first window, which a long Retry-After brings about. */
  lemma LastAttempt(start: real, d: real) returns (rounds: seq<Round>)
    requires 0.0 <= d
    ensures AllPossible(start, rounds, d) && Runs(start, rounds) == Lost(start, start + TRUST_WINDOW + d)
    ensures |rounds| == 2 && forall i :: 0 <= i < 2 ==> !rounds[i].reply.Confirmed?
  {
    var refused := Round(0.0, Transient(0.0, Some(60.0)));
    rounds := [refused, Round(d, Permanent)];
    assert rounds[..0] == [] && rounds[..1] == [refused];
    assert Runs(start, [refused]) == Waiting(start, start + TRUST_WINDOW, 1) by {
      assert [refused][..0] == [];
    }
  }

  /** The agent gives up no later than the server's expiry, in every run and in those before the
      first confirmation, if and only if the age of the lease and one attempt fit into the margin. */
  lemma GivesUpInTimeIff(start: real, d: real, age: real)
    requires 0.0 <= d && 0.0 <= age
    ensures age + d <= AGE_MARGIN
            <==> forall rounds, made ::
                   AllPossible(start, rounds, d) && MadeInTime(start, rounds, made) && Runs(start, rounds).Lost? ==>
                     Runs(start, rounds).at <= Extended(start, age, rounds, made) + LEASE_SECONDS
    ensures age + d <= AGE_MARGIN
            <==> forall rounds :: && AllPossible(start, rounds, d)
                                  && Runs(start, rounds).Lost? && Runs(start, rounds).lastConfirmed == start ==>
                                    Runs(start, rounds).at <= start - age + LEASE_SECONDS
  {
    if age + d <= AGE_MARGIN {
      forall rounds, made | AllPossible(start, rounds, d) && MadeInTime(start, rounds, made) && Runs(start, rounds).Lost?
        ensures Runs(start, rounds).at <= Extended(start, age, rounds, made) + LEASE_SECONDS
      {
        ExtendedSince(start, age, rounds, made);
        GivesUpBeforeExpiry(start, rounds, d, age, Extended(start, age, rounds, made));
      }
      forall rounds | AllPossible(start, rounds, d) && Runs(start, rounds).Lost? && Runs(start, rounds).lastConfirmed == start
        ensures Runs(start, rounds).at <= start - age + LEASE_SECONDS
      {
        GivesUpBeforeExpiry(start, rounds, d, age, start - age);
      }
    } else {
      var rounds := LastAttempt(start, d);
      assert Runs(start, rounds).at > start - age + LEASE_SECONDS;
      var made := [0.0, 0.0];
      NeverExtended(start, age, rounds, made);
      assert MadeInTime(start, rounds, made);
    }
  }

  /** Before the first confirmation the lease may be a whole poll interval old, and then any
      attempt that takes time can outlast it. */
  lemma FirstWindowCanOverrun(start: real, d: real)
    requires 0.0 < d
    ensures exists rounds :: AllPossible(start, rounds, d) && Runs(start, rounds).Lost?
                             && Runs(start, rounds).lastConfirmed == start
                             && Runs(start, rounds).at > (start - AGE_MARGIN) + LEASE_SECONDS
  {
    GivesUpInTimeIff(start, d, AGE_MARGIN);
  }

  /** The thread itself: its three variables, and the round at which it gives up, if it does. */
  method KeepLeaseAlive(start: real, rounds: seq<Round>) returns (lostAt: Option<real>, confirmed: real)
    ensures lostAt.Some? <==> Runs(start, rounds).Lost?
    ensures lostAt.Some? ==> lostAt.value == Runs(start, rounds).at
    ensures confirmed == Runs(start, rounds).lastConfirmed
  {
    confirmed := start;
    var now, wait, attempt := start, RENEWAL_INTERVAL, 0;
    for i := 0 to |rounds|
      invariant Runs(start, rounds[..i]) == Waiting(confirmed, now + wait, attempt)
    {
      assert rounds[..i + 1][..i] == rounds[..i];
      var attemptedAt := now + wait;
      now := attemptedAt + rounds[i].duration;
      match rounds[i].reply {
        case Confirmed =>
          attempt, wait := 0, RENEWAL_INTERVAL;
          confirmed := attemptedAt;
        case NotOurs =>
          StaysLost(start, rounds, i + 1);
          return Some(now), confirmed;
        case Permanent =>
          StaysLost(start, rounds, i + 1);
          return Some(now), confirmed;
        case Transient(_, _) =>
          var deadline := confirmed + TRUST_WINDOW;
          if now >= deadline {
            StaysLost(start, rounds, i + 1);
            return Some(now), confirmed;
          }
          wait := Min(Delay(rounds[i].reply), deadline - now);
          attempt := attempt + 1;
      }
    }
    assert rounds[..|rounds|] == rounds;
    return None, confirmed;
  }

  lemma {:induction false} StaysLost(start: real, rounds: seq<Round>, n: nat)
    requires n <= |rounds| && Runs(start, rounds[..n]).Lost?
    ensures Runs(start, rounds) == Runs(start, rounds[..n])
    decreases |rounds|
  {
    if n == |rounds| {
      assert rounds[..n] == rounds;
    } else {
      var front := rounds[..|rounds| - 1];
      assert front[..n] == rounds[..n];
      StaysLost(start, front, n);
    }
  }
}
