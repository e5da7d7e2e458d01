/** The resilient partner client (integrations/resilient_client): circuit breaker, attempt loop and
the deduplicating server it talks to. Times are reals on one monotonic clock. */
module Client {
  import opened Options

  //
  // Circuit breaker
  //

  datatype CircuitState = Closed | Open | HalfOpen

  /** The breaker's fields as a value. */
  datatype Breaker = Breaker(state: CircuitState, failures: nat, openedAt: Option<real>) {
    /** Reading the state: an open circuit whose timeout has passed turns half-open. */
    function Look(timeout: real, now: real): Breaker {
      if state == Open && openedAt.Some? && now - openedAt.value >= timeout then this.(state := HalfOpen) else this
    }

    function OnSuccess(): Breaker {
      Breaker(Closed, 0, None)
    }

    function OnFailure(threshold: int, timeout: real, now: real): Breaker {
      var counted := this.(failures := failures + 1).Look(timeout, now);
      if counted.state == HalfOpen || counted.failures >= threshold
      then Breaker(Open, counted.failures, Some(now)) else counted
    }
  }

  /** What a request tells the breaker. */
  datatype Report = NoReport | Succeeded | Failed

  /** A request made at time now that, if let through, ends at time end with this report. */
  datatype Ask = Ask(now: real, report: Report, end: real)

  function Serve(b: Breaker, threshold: int, timeout: real, ask: Ask): Breaker {
    var seen := b.Look(timeout, ask.now);
    if seen.state == Open then seen
    else match ask.report
      case NoReport => seen
      case Succeeded => seen.OnSuccess()
      case Failed => seen.OnFailure(threshold, timeout, ask.end)
  }

  predicate Rejects(b: Breaker, timeout: real, now: real) {
    b.Look(timeout, now).state == Open
  }

  function ServeAll(threshold: int, timeout: real, asks: seq<Ask>): Breaker {
    if asks == [] then Breaker(Closed, 0, None)
    else Serve(ServeAll(threshold, timeout, asks[..|asks| - 1]), threshold, timeout, asks[|asks| - 1])
  }

  /** The reference: failing requests since the last success, and when the latest of them ended. */
  datatype Streak = Streak(failures: nat, last: real) {
    /** Too many failures, the latest too recent. */
    predicate Blocks(threshold: int, timeout: real, now: real) {
      failures >= threshold && now - last < timeout
    }
  }

  function StreakOf(threshold: int, timeout: real, asks: seq<Ask>): Streak {
    if asks == [] then Streak(0, 0.0)
    else
      var before := StreakOf(threshold, timeout, asks[..|asks| - 1]);
      var ask := asks[|asks| - 1];
      if before.Blocks(threshold, timeout, ask.now) || ask.report == NoReport then before
      else if ask.report == Succeeded then Streak(0, before.last)
      else Streak(before.failures + 1, ask.end)
  }

  /** One request after the other. */
  ghost predicate InOrder(asks: seq<Ask>) {
    && (forall i :: 0 <= i < |asks| ==> asks[i].now <= asks[i].end)
    && (forall i, k :: 0 <= i < k < |asks| ==> asks[i].end <= asks[k].now)
  }

  ghost predicate Matches(b: Breaker, k: Streak, threshold: int, timeout: real, clock: real) {
    && b.failures == k.failures
    && (b.state == Closed <==> k.failures < threshold)
    && (b.state != Closed ==> b.openedAt == Some(k.last) && k.last <= clock)
    && (b.state == HalfOpen ==> clock - k.last >= timeout)
  }

  lemma ServeMatches(b: Breaker, k: Streak, threshold: int, timeout: real, clock: real, ask: Ask)
    requires threshold >= 1 && timeout > 0.0 && Matches(b, k, threshold, timeout, clock) && clock <= ask.now <= ask.end
    ensures Rejects(b, timeout, ask.now) <==> k.Blocks(threshold, timeout, ask.now)
    ensures Matches(Serve(b, threshold, timeout, ask),
                    if k.Blocks(threshold, timeout, ask.now) || ask.report == NoReport then k
                    else if ask.report == Succeeded then Streak(0, k.last) else Streak(k.failures + 1, ask.end),
                    threshold, timeout, ask.end)
  {
  }

  lemma {:induction false} RunMatches(threshold: int, timeout: real, asks: seq<Ask>, clock: real)
    requires threshold >= 1 && timeout > 0.0 && InOrder(asks)
    requires asks != [] ==> asks[|asks| - 1].end <= clock
    ensures Matches(ServeAll(threshold, timeout, asks), StreakOf(threshold, timeout, asks), threshold, timeout, clock)
  {
    if asks != [] {
      var last := |asks| - 1;
      var ask := asks[last];
      RunMatches(threshold, timeout, asks[..last], ask.now);
      ServeMatches(ServeAll(threshold, timeout, asks[..last]), StreakOf(threshold, timeout, asks[..last]),
                   threshold, timeout, ask.now, ask);
    }
  }

  /** Over any run of requests the breaker is closed exactly while fewer than threshold requests
      have failed since the last success, and a request is turned away exactly while the streak is
      that long and its latest failure is younger than the reset timeout. */
  lemma BreakerFollowsStreak(threshold: int, timeout: real, asks: seq<Ask>, now: real)
    requires threshold >= 1 && timeout > 0.0 && InOrder(asks)
    requires asks != [] ==> asks[|asks| - 1].end <= now
    ensures ServeAll(threshold, timeout, asks).state == Closed <==> StreakOf(threshold, timeout, asks).failures < threshold
    ensures Rejects(ServeAll(threshold, timeout, asks), timeout, now)
            <==> StreakOf(threshold, timeout, asks).Blocks(threshold, timeout, now)
  {
    RunMatches(threshold, timeout, asks, now);
    ServeMatches(ServeAll(threshold, timeout, asks), StreakOf(threshold, timeout, asks), threshold, timeout, now,
                 Ask(now, NoReport, now));
  }

  /** A closed circuit opens on a request if and only if that request is the threshold-th failure
      in a row, and a failed trial starts the timeout again. */
  lemma OpensOnThreshold(threshold: int, timeout: real, asks: seq<Ask>)
    requires threshold >= 1 && timeout > 0.0 && InOrder(asks) && asks != []
    ensures var before, after := ServeAll(threshold, timeout, asks[..|asks| - 1]), ServeAll(threshold, timeout, asks);
            var ask := asks[|asks| - 1];
            && (before.state == Closed ==>
                  (after.state == Open <==>
                     ask.report == Failed && StreakOf(threshold, timeout, asks[..|asks| - 1]).failures == threshold - 1))
            && (before.state != Closed && !Rejects(before, timeout, ask.now) && ask.report == Failed ==>
                  after.state == Open && after.openedAt == Some(ask.end))
  {
    RunMatches(threshold, timeout, asks[..|asks| - 1], asks[|asks| - 1].now);
  }

  //
  // Overlapping requests
  //

  /** One call of the breaker, from any of the requests under way. */
  datatype Touch = Asked(now: real) | Won | Missed(now: real)

  function Meet(b: Breaker, threshold: int, timeout: real, touch: Touch): Breaker {
    match touch
    case Asked(now) => b.Look(timeout, now)
    case Won => b.OnSuccess()
    case Missed(now) => b.OnFailure(threshold, timeout, now)
  }

  function MeetAll(threshold: int, timeout: real, touches: seq<Touch>): Breaker {
    if touches == [] then Breaker(Closed, 0, None)
    else Meet(MeetAll(threshold, timeout, touches[..|touches| - 1]), threshold, timeout, touches[|touches| - 1])
  }

  /** The reference: failures reported since the last success, and the latest of them. */
  function Reported(touches: seq<Touch>): Streak {
    if touches == [] then Streak(0, 0.0)
    else
      var before := Reported(touches[..|touches| - 1]);
      match touches[|touches| - 1]
      case Asked(_) => before
      case Won => Streak(0, before.last)
      case Missed(now) => Streak(before.failures + 1, now)
  }

  /** The clock does not run backwards, and has come to now. */
  ghost predicate InTime(touches: seq<Touch>, now: real) {
    && (forall i :: 0 <= i < |touches| && !touches[i].Won? ==> touches[i].now <= now)
    && (forall i, k :: 0 <= i < k < |touches| && !touches[i].Won? && !touches[k].Won? ==> touches[i].now <= touches[k].now)
  }

  lemma {:induction false} MeetsMatch(threshold: int, timeout: real, touches: seq<Touch>, now: real)
    requires threshold >= 1 && timeout > 0.0 && InTime(touches, now)
    ensures Matches(MeetAll(threshold, timeout, touches), Reported(touches), threshold, timeout, now)
  {
    if touches != [] {
      var last := |touches| - 1;
      MeetsMatch(threshold, timeout, touches[..last], if touches[last].Won? then now else touches[last].now);
    }
  }

  /** However requests overlap, the breaker is closed exactly while fewer than threshold failures
      were reported since the last success, and turns a request away exactly while that many were
      and the latest is younger than the reset timeout. */
  lemma OverlappingFollowsReports(threshold: int, timeout: real, touches: seq<Touch>, now: real)
    requires threshold >= 1 && timeout > 0.0 && InTime(touches, now)
    ensures MeetAll(threshold, timeout, touches).state == Closed <==> Reported(touches).failures < threshold
    ensures Rejects(MeetAll(threshold, timeout, touches), timeout, now) <==> Reported(touches).Blocks(threshold, timeout, now)
  {
    MeetsMatch(threshold, timeout, touches, now);
    ServeMatches(MeetAll(threshold, timeout, touches), Reported(touches), threshold, timeout, now, Ask(now, NoReport, now));
  }

  /** A half-open circuit lets every request through until one of them reports. */
  lemma {:induction false} HalfOpenAdmitsAll(threshold: int, timeout: real, touches: seq<Touch>, more: seq<Touch>)
    requires MeetAll(threshold, timeout, touches).state == HalfOpen && forall i :: 0 <= i < |more| ==> more[i].Asked?
    ensures MeetAll(threshold, timeout, touches + more) == MeetAll(threshold, timeout, touches)
    ensures forall now :: !Rejects(MeetAll(threshold, timeout, touches + more), timeout, now)
  {
    if more == [] {
      assert touches + more == touches;
    } else {
      var front := more[..|more| - 1];
      assert (touches + more)[..|touches + more| - 1] == touches + front;
      HalfOpenAdmitsAll(threshold, timeout, touches, front);
    }
  }

  class CircuitBreaker {
    const threshold: int
    const timeout: real
    var state: CircuitState
    var failures: nat
    var openedAt: Option<real>

    ghost function Value(): Breaker
      reads this
    {
      Breaker(state, failures, openedAt)
    }

    constructor (threshold: int, timeout: real)
      ensures this.threshold == threshold && this.timeout == timeout
      ensures Value() == ServeAll(threshold, timeout, [])
    {
      this.threshold, this.timeout := threshold, timeout;
      state, failures, openedAt := Closed, 0, None;
    }

    method Look(now: real)
      modifies `state
      ensures Value() == old(Value()).Look(timeout, now)
    {
      if state == Open && openedAt.Some? {
        if now - openedAt.value >= timeout {
          state := HalfOpen;
        }
      }
    }

    method OnSuccess()
      modifies this
      ensures Value() == old(Value()).OnSuccess()
    {
      state, failures, openedAt := Closed, 0, None;
    }

    method OnFailure(now: real)
      modifies this
      ensures Value() == old(Value()).OnFailure(threshold, timeout, now)
    {
      failures := failures + 1;
      Look(now);
      if state == HalfOpen {
        state, openedAt := Open, Some(now);
        return;
      }
      if failures >= threshold {
        state, openedAt := Open, Some(now);
      }
    }
  }

  //
  // The attempt loop
  //

  /** What an attempt meets: no connection, a connection lost after sending, or a status. acted
      says whether the server acted on it, which the client cannot see. */
  datatype Reply = NeverSent | Lost(acted: bool) | Status(code: nat, acted: bool)

  predicate Acted(r: Reply) {
    !r.NeverSent? && r.acted
  }

  function ActedCount(replies: nat -> Reply, sent: nat): nat {
    if sent == 0 then 0 else ActedCount(replies, sent - 1) + if Acted(replies(sent - 1)) then 1 else 0
  }

  datatype Result =
    | Returned
    | CircuitOpen
    | ClientError(code: nat)
    | RateLimited
    | ServerError(code: nat, outcomeUnknown: bool)
    | RetryExhausted(outcomeUnknown: bool)

  datatype Policy = Policy(maxAttempts: int, retryable: set<nat>)

  predicate IsSuccess(reply: Reply) {
    reply.Status? && reply.code < 400
  }

  /** Another attempt may follow: nothing was sent, the server declined, or a replay is safe. */
  predicate MayRetry(policy: Policy, replaySafe: bool, reply: Reply) {
    match reply
    case NeverSent => true
    case Lost(_) => replaySafe
    case Status(code, _) => code >= 400 && code in policy.retryable && (code == 429 || replaySafe)
  }

  /** The answer names the last reply. */
  predicate Names(result: Result, policy: Policy, replaySafe: bool, last: Reply) {
    match result
    case Returned => IsSuccess(last)
    case CircuitOpen => false
    case ClientError(code) => last.Status? && last.code == code && code >= 400 && code !in policy.retryable
    case RateLimited => last.Status? && last.code == 429 && 429 in policy.retryable
    case ServerError(code, unknown) =>
      last.Status? && last.code == code && code >= 400 && code in policy.retryable && code != 429 && unknown == !replaySafe
    case RetryExhausted(unknown) => (last.NeverSent? && !unknown) || (last.Lost? && unknown == !replaySafe)
  }

  /** And the last reply determines the answer. */
  lemma OneAnswer(policy: Policy, replaySafe: bool, last: Reply, a: Result, b: Result)
    requires Names(a, policy, replaySafe, last) && Names(b, policy, replaySafe, last)
    ensures a == b
  {
  }

  function ReportOf(r: Result): Report {
    match r
    case Returned => Succeeded
    case CircuitOpen => NoReport
    case ClientError(_) => NoReport
    case _ => Failed
  }

  /** The server declines a 429 before acting on it. */
  ghost predicate DeclinesBeforeActing(replies: nat -> Reply) {
    forall k: nat :: replies(k).Status? && replies(k).code == 429 ==> !replies(k).acted
  }

  /** An error that claims to know that nothing happened. */
  predicate ClaimsNothingHappened(r: Result) {
    r.RateLimited? || ((r.ServerError? || r.RetryExhausted?) && !r.outcomeUnknown)
  }

  /** A success is reached whatever retryable replies come before it, and the attempts end early only on
      an answer that is final, or whose replay could repeat an effect. */
  ghost predicate Persists(policy: Policy, replaySafe: bool, replies: nat -> Reply, result: Result, sent: nat)
    requires sent > 0
  {
    && (forall k: nat :: && k < policy.maxAttempts && replies(k).Status? && replies(k).code < 400
                         && (forall i: nat :: i < k ==>
                               if replaySafe then
                                 replies(i).Status? ==> replies(i).code >= 400 && replies(i).code in policy.retryable
                               else
                                 || replies(i).NeverSent?
                                 || (replies(i).Status? && replies(i).code == 429 && 429 in policy.retryable))
                         ==> result == Returned && sent == k + 1)
    && (sent < policy.maxAttempts ==>
          var last := replies(sent - 1);
          || (last.Status? && (last.code < 400 || last.code !in policy.retryable))
          || (!replaySafe && (last.Lost? || (last.Status? && last.code != 429))))
  }

  lemma PersistsIf(policy: Policy, replaySafe: bool, replies: nat -> Reply, result: Result, sent: nat)
    requires 0 < sent <= policy.maxAttempts && Names(result, policy, replaySafe, replies(sent - 1))
    requires forall k: nat :: k < sent - 1 ==> MayRetry(policy, replaySafe, replies(k))
    requires sent < policy.maxAttempts ==> !MayRetry(policy, replaySafe, replies(sent - 1))
    ensures Persists(policy, replaySafe, replies, result, sent)
  {
    forall k: nat | && k < policy.maxAttempts && replies(k).Status? && replies(k).code < 400
                    && (forall i: nat :: i < k ==>
                          if replaySafe then
                            replies(i).Status? ==> replies(i).code >= 400 && replies(i).code in policy.retryable
                          else
                            || replies(i).NeverSent?
                            || (replies(i).Status? && replies(i).code == 429 && 429 in policy.retryable))
      ensures result == Returned && sent == k + 1
    {
      assert sent - 1 <= k;
      if sent - 1 < k {
        assert false;
      }
    }
  }

  /** The whole request; sent counts its attempts. */
  method Request(breaker: CircuitBreaker, policy: Policy, replaySafe: bool, replies: nat -> Reply, now: real, end: real)
    returns (result: Result, sent: nat)
    requires policy.maxAttempts >= 1 && DeclinesBeforeActing(replies)
    modifies breaker
    ensures breaker.Value() == Serve(old(breaker.Value()), breaker.threshold, breaker.timeout, Ask(now, ReportOf(result), end))
    ensures result == CircuitOpen <==> Rejects(old(breaker.Value()), breaker.timeout, now)
    ensures sent == 0 <==> result == CircuitOpen
    ensures sent <= policy.maxAttempts
    ensures forall k: nat :: k < sent - 1 ==> MayRetry(policy, replaySafe, replies(k))
    ensures sent > 0 ==> Names(result, policy, replaySafe, replies(sent - 1))
    ensures sent > 0 ==> Persists(policy, replaySafe, replies, result, sent)
    ensures !replaySafe ==> ActedCount(replies, sent) <= 1
    ensures !replaySafe && ClaimsNothingHappened(result) ==> ActedCount(replies, sent) == 0
  {
    sent := 0;
    breaker.Look(now);
    if breaker.state == Open {
      return CircuitOpen, 0;
    }
    while sent < policy.maxAttempts
      invariant 0 <= sent < policy.maxAttempts
      invariant breaker.Value() == old(breaker.Value()).Look(breaker.timeout, now)
      invariant forall k: nat :: k < sent ==> MayRetry(policy, replaySafe, replies(k))
      invariant !replaySafe ==> ActedCount(replies, sent) == 0
    {
      var last := sent + 1 == policy.maxAttempts;
      var reply := replies(sent);
      sent := sent + 1;
      match reply {
        case NeverSent =>
          if last {
            breaker.OnFailure(end);
            PersistsIf(policy, replaySafe, replies, RetryExhausted(false), sent);
            return RetryExhausted(false), sent;
          }
        case Lost(_) =>
          if last || !replaySafe {
            breaker.OnFailure(end);
            PersistsIf(policy, replaySafe, replies, RetryExhausted(!replaySafe), sent);
            return RetryExhausted(!replaySafe), sent;
          }
        case Status(code, _) =>
          if code < 400 {
            breaker.OnSuccess();
            PersistsIf(policy, replaySafe, replies, Returned, sent);
            return Returned, sent;
          }
          if code !in policy.retryable {
            PersistsIf(policy, replaySafe, replies, ClientError(code), sent);
            return ClientError(code), sent;
          }
          var unknown := code != 429 && !replaySafe;
          if last || unknown {
            breaker.OnFailure(end);
            if code == 429 {
              PersistsIf(policy, replaySafe, replies, RateLimited, sent);
              return RateLimited, sent;
            }
            PersistsIf(policy, replaySafe, replies, ServerError(code, unknown), sent);
            return ServerError(code, unknown), sent;
          }
      }
    }
    assert false;
  }

  //
  // The deduplicating server
  //

  /** Payments applied so far and the payment of each idempotency key. */
  datatype Ledger = Ledger(applied: nat, results: map<string, nat>)

  function Apply(l: Ledger, key: Option<string>): (Ledger, nat) {
    if key.Some? && key.value in l.results then (l, l.results[key.value])
    else
      var id := l.applied + 1;
      (Ledger(id, if key.Some? then l.results[key.value := id] else l.results), id)
  }

  function ApplyAll(calls: seq<Option<string>>): Ledger {
    if calls == [] then Ledger(0, map[]) else Apply(ApplyAll(calls[..|calls| - 1]), calls[|calls| - 1]).0
  }

  function Unkeyed(calls: seq<Option<string>>): nat {
    if calls == [] then 0 else Unkeyed(calls[..|calls| - 1]) + if calls[|calls| - 1].None? then 1 else 0
  }

  function KeysOf(calls: seq<Option<string>>): set<string> {
    set call | call in calls && call.Some? :: call.value
  }

  /** After any calls, one payment was applied per distinct key and one per call without a key. */
  lemma {:induction false} OnePaymentPerKey(calls: seq<Option<string>>)
    ensures ApplyAll(calls).results.Keys == KeysOf(calls)
    ensures ApplyAll(calls).applied == |KeysOf(calls)| + Unkeyed(calls)
  {
    if calls != [] {
      var front, call := calls[..|calls| - 1], calls[|calls| - 1];
      OnePaymentPerKey(front);
      assert calls == front + [call];
      assert KeysOf(calls) == KeysOf(front) + if call.Some? then {call.value} else {};
    }
  }

  /** A payment id once answered for a key is answered for it forever, and to no other key. */
  lemma {:induction false} KeysKeepTheirPayment(calls: seq<Option<string>>, n: nat)
    requires n <= |calls|
    ensures forall key :: key in ApplyAll(calls[..n]).results ==>
                            key in ApplyAll(calls).results && ApplyAll(calls).results[key] == ApplyAll(calls[..n]).results[key]
    ensures forall key, other :: key in ApplyAll(calls).results && other in ApplyAll(calls).results && key != other ==>
                                   ApplyAll(calls).results[key] != ApplyAll(calls).results[other]
    ensures forall key :: key in ApplyAll(calls).results ==> 1 <= ApplyAll(calls).results[key] <= ApplyAll(calls).applied
    decreases |calls|
  {
    if n == |calls| {
      assert calls[..n] == calls;
    }
    if calls != [] {
      var front := calls[..|calls| - 1];
      KeysKeepTheirPayment(front, if n <= |front| then n else |front|);
      if n <= |front| {
        assert calls[..n] == front[..n];
      }
    }
  }

  class PaymentServer {
    var applied: nat
    var results: map<string, nat>

    ghost function Value(): Ledger
      reads this
    {
      Ledger(applied, results)
    }

    constructor ()
      ensures Value() == ApplyAll([])
    {
      applied, results := 0, map[];
    }

    method ApplyPayment(key: Option<string>) returns (id: nat, replayed: bool)
      modifies this
      ensures (Value(), id) == Apply(old(Value()), key)
      ensures replayed <==> key.Some? && key.value in old(results)
    {
      if key.Some? && key.value in results {
        return results[key.value], true;
      }
      applied := applied + 1;
      if key.Some? {
        results := results[key.value := applied];
      }
      return applied, false;
    }
  }

  function Repeat(l: Ledger, key: Option<string>, n: nat): Ledger {
    if n == 0 then l else Apply(Repeat(l, key, n - 1), key).0
  }

  lemma {:induction false} ReplaysApplyOnce(l: Ledger, key: string, n: nat)
    ensures var r := Repeat(l, Some(key), n);
            && r.applied == l.applied + (if n == 0 || key in l.results then 0 else 1)
            && (n > 0 ==> key in r.results && r.results[key] == if key in l.results then l.results[key] else l.applied + 1)
            && (n == 0 ==> r == l)
  {
    if n > 0 {
      ReplaysApplyOnce(l, key, n - 1);
    }
  }

  /** A request with an idempotency key, or one that is not replay-safe, takes effect at most
      once over all its attempts; one that is not replay-safe takes no effect when its error says
      that nothing happened. */
  lemma EffectAtMostOnce(l: Ledger, key: Option<string>, policy: Policy, replaySafe: bool, replies: nat -> Reply,
                         sent: nat, result: Result)
    requires DeclinesBeforeActing(replies) && (key.Some? || !replaySafe)
    requires forall k: nat :: k < sent - 1 ==> MayRetry(policy, replaySafe, replies(k))
    requires sent > 0 ==> Names(result, policy, replaySafe, replies(sent - 1))
    ensures Repeat(l, key, ActedCount(replies, sent)).applied <= l.applied + 1
    ensures !replaySafe && ClaimsNothingHappened(result) ==> Repeat(l, key, ActedCount(replies, sent)) == l
  {
    if key.Some? {
      ReplaysApplyOnce(l, key.value, ActedCount(replies, sent));
    }
    if !replaySafe {
      if sent > 0 {
        ContinuedMeansNotActed(policy, replies, sent - 1);
      }
      var n := ActedCount(replies, sent);
      assert n == 1 ==> Repeat(l, key, n) == Apply(Repeat(l, key, 0), key).0;
    }
  }

  lemma {:induction false} ContinuedMeansNotActed(policy: Policy, replies: nat -> Reply, sent: nat)
    requires DeclinesBeforeActing(replies)
    requires forall k: nat :: k < sent ==> MayRetry(policy, false, replies(k))
    ensures ActedCount(replies, sent) == 0
  {
    if sent > 0 {
      ContinuedMeansNotActed(policy, replies, sent - 1);
      assert MayRetry(policy, false, replies(sent - 1));
    }
  }
}
