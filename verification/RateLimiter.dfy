/** The per-key token bucket (app/application/services/rate_limiter_service.py), over reals. */
module RateLimiter {
  import opened Options

  datatype Limit = Limit(capacity: int, rate: real) {
    predicate Valid() {
      capacity > 0 && rate > 0.0
    }

    /** What a span of time refills. */
    function Gain(span: real): real {
      span * rate
    }
  }

  datatype Bucket = Bucket(tokens: real, refilledAt: real) {
    function Refill(limit: Limit, now: real): Bucket {
      var full := tokens + limit.Gain(now - refilledAt);
      Bucket(if full <= limit.capacity as real then full else limit.capacity as real, now)
    }
  }

  /** The bucket after a check, and the retry hint when the check is refused. */
  datatype Checked = Checked(bucket: Bucket, hint: Option<real>)

  /** One check. A key seen for the first time starts with a full bucket. */
  function Check(limit: Limit, bucket: Option<Bucket>, now: real): Checked
    requires limit.Valid()
  {
    var start := if bucket.Some? then bucket.value else Bucket(limit.capacity as real, now);
    var b := start.Refill(limit, now);
    if b.tokens < 1.0 then Checked(b, Some((1.0 - b.tokens) / limit.rate))
    else Checked(b.(tokens := b.tokens - 1.0), None)
  }

  //
  // Refilling
  //

  lemma GainGrows(limit: Limit, short: real, long: real)
    requires limit.Valid() && short <= long
    ensures limit.Gain(short) <= limit.Gain(long) && limit.Gain(0.0) == 0.0
    ensures short < long ==> limit.Gain(short) < limit.Gain(long)
  {
    assert (long - short) * limit.rate >= 0.0;
  }

  lemma GainSplits(limit: Limit, a: real, b: real, c: real)
    ensures limit.Gain(c - a) == limit.Gain(b - a) + limit.Gain(c - b)
  {
  }

  /** Refilling on the way changes nothing. */
  lemma RefillTwice(limit: Limit, b: Bucket, now: real, later: real)
    requires limit.Valid() && b.refilledAt <= now <= later
    ensures b.Refill(limit, now).Refill(limit, later) == b.Refill(limit, later)
  {
    GainSplits(limit, b.refilledAt, now, later);
    GainGrows(limit, 0.0, later - now);
  }

  //
  // A sequence of checks of one key
  //

  function After(limit: Limit, bucket: Option<Bucket>, times: seq<real>): Option<Bucket>
    requires limit.Valid()
    decreases |times|
  {
    if times == [] then bucket else After(limit, Some(Check(limit, bucket, times[0]).bucket), times[1..])
  }

  /** The refusals, check by check. */
  function Hints(limit: Limit, bucket: Option<Bucket>, times: seq<real>): seq<Option<real>>
    requires limit.Valid()
    decreases |times|
  {
    if times == [] then []
    else
      var first := Check(limit, bucket, times[0]);
      [first.hint] + Hints(limit, Some(first.bucket), times[1..])
  }

  function Admitted(hints: seq<Option<real>>): nat {
    if hints == [] then 0 else (if hints[0].None? then 1 else 0) + Admitted(hints[1..])
  }

  lemma FirstThenRest(limit: Limit, bucket: Option<Bucket>, times: seq<real>)
    requires limit.Valid() && times != []
    ensures var first := Check(limit, bucket, times[0]);
            Admitted(Hints(limit, bucket, times))
            == (if first.hint.None? then 1 else 0) + Admitted(Hints(limit, Some(first.bucket), times[1..]))
  {
    var first := Check(limit, bucket, times[0]);
    var rest := Hints(limit, Some(first.bucket), times[1..]);
    assert ([first.hint] + rest)[1..] == rest;
  }

  lemma {:induction false} Spends(limit: Limit, b: Bucket, times: seq<real>, end: real)
    requires limit.Valid() && forall t :: t in times ==> t <= end
    ensures var n := Admitted(Hints(limit, Some(b), times));
            n > 0 ==> n as real <= b.tokens + limit.Gain(end - b.refilledAt)
    decreases |times|
  {
    if times != [] {
      var now := times[0];
      var first := Check(limit, Some(b), now);
      assert now in times;
      forall t | t in times[1..] ensures t <= end {
        assert t in times;
      }
      Spends(limit, first.bucket, times[1..], end);
      FirstThenRest(limit, Some(b), times);
      GainSplits(limit, b.refilledAt, now, end);
      GainGrows(limit, 0.0, end - now);
    }
  }

  lemma CheckCaps(limit: Limit, bucket: Option<Bucket>, now: real)
    requires limit.Valid()
    ensures var c := Check(limit, bucket, now);
            c.bucket.refilledAt == now && c.bucket.tokens + (if c.hint.None? then 1.0 else 0.0) <= limit.capacity as real
  {
  }

  lemma FromFirst(limit: Limit, bucket: Option<Bucket>, times: seq<real>, end: real)
    requires limit.Valid() && times != [] && forall t :: t in times ==> t <= end
    ensures Admitted(Hints(limit, bucket, times)) as real <= limit.capacity as real + limit.Gain(end - times[0])
  {
    var now := times[0];
    var first := Check(limit, bucket, now);
    CheckCaps(limit, bucket, now);
    FirstThenRest(limit, bucket, times);
    forall t | t in times[1..] ensures t <= end {
      assert t in times;
    }
    Spends(limit, first.bucket, times[1..], end);
    assert now in times;
    GainGrows(limit, 0.0, end - now);
  }

  /** In any window a key is admitted at most capacity + rate * length times, whatever happened to
      the bucket before, and even if the checks take the lock in another order than they read the
      clock. */
  lemma WindowBound(limit: Limit, bucket: Option<Bucket>, times: seq<real>, begin: real, end: real)
    requires limit.Valid() && begin <= end && forall t :: t in times ==> begin <= t <= end
    ensures Admitted(Hints(limit, bucket, times)) as real <= limit.capacity as real + limit.Gain(end - begin)
  {
    if times == [] {
      GainGrows(limit, 0.0, end - begin);
    } else {
      var now := times[0];
      assert now in times;
      FromFirst(limit, bucket, times, end);
      GainGrows(limit, end - now, end - begin);
    }
  }

  //
  // Refused checks
  //

  ghost predicate Ascending(times: seq<real>) {
    forall i, k :: 0 <= i < k < |times| ==> times[i] <= times[k]
  }

  lemma RefusedThenSameCheck(limit: Limit, b: Bucket, now: real, later: real)
    requires limit.Valid() && b.refilledAt <= now <= later && Check(limit, Some(b), now).hint.Some?
    ensures Check(limit, Some(Check(limit, Some(b), now).bucket), later) == Check(limit, Some(b), later)
  {
    RefillTwice(limit, b, now, later);
  }

  lemma SameCheckSameRest(limit: Limit, a: Option<Bucket>, b: Option<Bucket>, times: seq<real>)
    requires limit.Valid() && times != [] && Check(limit, a, times[0]) == Check(limit, b, times[0])
    ensures Hints(limit, a, times) == Hints(limit, b, times) && After(limit, a, times) == After(limit, b, times)
  {
  }

  lemma AfterFirst(limit: Limit, bucket: Option<Bucket>, now: real, rest: seq<real>)
    requires limit.Valid()
    ensures var first := Check(limit, bucket, now);
            && Hints(limit, bucket, [now] + rest)[1..] == Hints(limit, Some(first.bucket), rest)
            && After(limit, bucket, [now] + rest) == After(limit, Some(first.bucket), rest)
  {
    assert ([now] + rest)[1..] == rest;
  }

  /** A refused check affects no later decision: with or without it, the checks that follow are
      answered alike and leave the same bucket. */
  lemma RefusedLeavesNoTrace(limit: Limit, b: Bucket, now: real, rest: seq<real>)
    requires limit.Valid() && b.refilledAt <= now && rest != [] && now <= rest[0]
    requires Check(limit, Some(b), now).hint.Some?
    ensures Hints(limit, Some(b), [now] + rest)[1..] == Hints(limit, Some(b), rest)
    ensures After(limit, Some(b), [now] + rest) == After(limit, Some(b), rest)
  {
    AfterFirst(limit, Some(b), now, rest);
    RefusedThenSameCheck(limit, b, now, rest[0]);
    SameCheckSameRest(limit, Some(Check(limit, Some(b), now).bucket), Some(b), rest);
  }

  /** The admitted ones among the checks. */
  function Kept(limit: Limit, bucket: Option<Bucket>, times: seq<real>): seq<real>
    requires limit.Valid()
    decreases |times|
  {
    if times == [] then []
    else
      var first := Check(limit, bucket, times[0]);
      (if first.hint.None? then [times[0]] else []) + Kept(limit, Some(first.bucket), times[1..])
  }

  /** Had the refused checks never been made, every admitted one would still be admitted. */
  lemma {:induction false} AdmittedWithoutRefused(limit: Limit, bucket: Option<Bucket>, times: seq<real>)
    requires limit.Valid() && Ascending(times)
    requires bucket.Some? && times != [] ==> bucket.value.refilledAt <= times[0]
    ensures Admitted(Hints(limit, bucket, times)) == |Kept(limit, bucket, times)|
    ensures forall hint :: hint in Hints(limit, bucket, Kept(limit, bucket, times)) ==> hint.None?
    decreases |times|
  {
    if times != [] {
      var now, rest := times[0], times[1..];
      var first := Check(limit, bucket, now);
      FirstThenRest(limit, bucket, times);
      if first.hint.None? {
        AdmittedWithoutRefused(limit, Some(first.bucket), rest);
        var kept := Kept(limit, Some(first.bucket), rest);
        assert ([now] + kept)[1..] == kept;
      } else {
        assert [] + Kept(limit, Some(first.bucket), rest) == Kept(limit, Some(first.bucket), rest);
        if rest != [] {
          RefillTwice(limit, bucket.value, now, rest[0]);
          assert Check(limit, Some(first.bucket), rest[0]) == Check(limit, bucket, rest[0]);
          assert Kept(limit, Some(first.bucket), rest) == Kept(limit, bucket, rest);
          assert Hints(limit, Some(first.bucket), rest) == Hints(limit, bucket, rest);
        }
        AdmittedWithoutRefused(limit, bucket, rest);
      }
    }
  }

  /** The hint is exact: with nothing admitted in between, a check is admitted at a later time if
      and only if the hinted delay has passed. */
  lemma HintIsExact(limit: Limit, b: Bucket, now: real, later: real)
    requires limit.Valid() && b.refilledAt <= now <= later
    requires Check(limit, Some(b), now).hint.Some?
    ensures Check(limit, Some(Check(limit, Some(b), now).bucket), later).hint.None?
            <==> later >= now + Check(limit, Some(b), now).hint.value
  {
    var refused := Check(limit, Some(b), now);
    var tokens, hint := refused.bucket.tokens, refused.hint.value;
    assert limit.Gain(hint) == 1.0 - tokens;
    if later - now >= hint {
      GainGrows(limit, hint, later - now);
    } else {
      GainGrows(limit, later - now, hint);
    }
  }

  //
  // What a key is sure to get
  //

  /** A key that is new, or idle for as long as a full refill takes. */
  predicate IsFull(limit: Limit, bucket: Option<Bucket>, now: real) {
    bucket.Some? ==> bucket.value.tokens + limit.rate * (now - bucket.value.refilledAt) >= limit.capacity as real
  }

  function Burst(now: real, n: nat): seq<real> {
    if n == 0 then [] else [now] + Burst(now, n - 1)
  }

  lemma SpendsOne(limit: Limit, b: Bucket)
    requires limit.Valid() && 1.0 <= b.tokens <= limit.capacity as real
    ensures Check(limit, Some(b), b.refilledAt) == Checked(b.(tokens := b.tokens - 1.0), None)
  {
    GainGrows(limit, 0.0, 0.0);
  }

  lemma BurstRest(now: real, n: nat)
    requires n > 0
    ensures Burst(now, n) != [] && Burst(now, n)[0] == now && Burst(now, n)[1..] == Burst(now, n - 1)
  {
  }

  lemma {:induction false} SpendsAtOnce(limit: Limit, b: Bucket, n: nat)
    requires limit.Valid() && n as real <= b.tokens <= limit.capacity as real
    ensures Admitted(Hints(limit, Some(b), Burst(b.refilledAt, n))) == n
    ensures After(limit, Some(b), Burst(b.refilledAt, n)) == Some(b.(tokens := b.tokens - n as real))
    decreases n
  {
    if n > 0 {
      var now, less := b.refilledAt, b.(tokens := b.tokens - 1.0);
      SpendsOne(limit, b);
      BurstRest(now, n);
      FirstThenRest(limit, Some(b), Burst(now, n));
      SpendsAtOnce(limit, less, n - 1);
      assert less.tokens - (n - 1) as real == b.tokens - n as real;
    }
  }

  /** A full key is admitted capacity times at one instant, and then refused. */
  lemma BurstIsCapacity(limit: Limit, bucket: Option<Bucket>, now: real)
    requires limit.Valid() && IsFull(limit, bucket, now)
    ensures Admitted(Hints(limit, bucket, Burst(now, limit.capacity))) == limit.capacity
    ensures Check(limit, After(limit, bucket, Burst(now, limit.capacity)), now).hint.Some?
  {
    var n, full := limit.capacity, Bucket(limit.capacity as real, now);
    assert Check(limit, bucket, now) == Check(limit, Some(full), now);
    assert Burst(now, n)[0] == now;
    SameCheckSameRest(limit, bucket, Some(full), Burst(now, n));
    SpendsAtOnce(limit, full, n);
  }

  predicate HasToken(limit: Limit, bucket: Option<Bucket>, now: real) {
    bucket.Some? ==> bucket.value.tokens + limit.rate * (now - bucket.value.refilledAt) >= 1.0
  }

  /** One token, there or refilled since, is enough. */
  lemma OneTokenAdmits(limit: Limit, bucket: Option<Bucket>, now: real)
    requires limit.Valid() && HasToken(limit, bucket, now)
    ensures var c := Check(limit, bucket, now);
            c.hint.None? && c.bucket.tokens >= 0.0 && c.bucket.refilledAt == now
  {
    assert limit.capacity as real >= 1.0;
  }

  /** In between a token is refilled. */
  predicate Apart(limit: Limit, before: real, now: real) {
    limit.rate * (now - before) >= 1.0
  }

  /** Each check comes at least 1 / rate after the one before. */
  ghost predicate Paced(limit: Limit, times: seq<real>) {
    forall i, k :: 0 <= i && k == i + 1 && k < |times| ==> Apart(limit, times[i], times[k])
  }

  lemma TokenByThen(limit: Limit, b: Bucket, now: real)
    requires b.tokens >= 0.0 && Apart(limit, b.refilledAt, now)
    ensures HasToken(limit, Some(b), now)
  {
    var earned := limit.rate * (now - b.refilledAt);
    assert earned >= 1.0;
    assert b.tokens + earned >= 1.0;
  }

  lemma PacedRest(limit: Limit, times: seq<real>)
    requires Paced(limit, times) && times != []
    ensures Paced(limit, times[1..]) && (|times| > 1 ==> Apart(limit, times[0], times[1]))
  {
    var rest := times[1..];
    forall i, k | 0 <= i && k == i + 1 && k < |rest| ensures Apart(limit, rest[i], rest[k]) {
      assert rest[i] == times[i + 1] && rest[k] == times[k + 1];
    }
  }

  /** A key that asks no faster than the rate is never refused: in a window of any length it gets as
      much as it asks for, down from a single token. */
  lemma {:induction false} PacedIsAdmitted(limit: Limit, bucket: Option<Bucket>, times: seq<real>)
    requires limit.Valid() && Paced(limit, times) && (times != [] ==> HasToken(limit, bucket, times[0]))
    ensures Admitted(Hints(limit, bucket, times)) == |times|
    decreases |times|
  {
    if times != [] {
      var first, rest := Check(limit, bucket, times[0]), times[1..];
      OneTokenAdmits(limit, bucket, times[0]);
      FirstThenRest(limit, bucket, times);
      PacedRest(limit, times);
      if rest != [] {
        TokenByThen(limit, first.bucket, times[1]);
      }
      PacedIsAdmitted(limit, Some(first.bucket), rest);
    }
  }

  //
  // Many keys
  //

  datatype Call<Key> = Call(key: Key, now: real)

  function CheckAll<Key(==)>(limit: Limit, buckets: map<Key, Bucket>, calls: seq<Call<Key>>): map<Key, Bucket>
    requires limit.Valid()
    decreases |calls|
  {
    if calls == [] then buckets
    else CheckAll(limit, buckets[calls[0].key := Check(limit, Find(buckets, calls[0].key), calls[0].now).bucket], calls[1..])
  }

  function Find<Key(==)>(buckets: map<Key, Bucket>, key: Key): Option<Bucket> {
    if key in buckets then Some(buckets[key]) else None
  }

  function TimesOf<Key(==)>(calls: seq<Call<Key>>, key: Key): seq<real> {
    if calls == [] then [] else (if calls[0].key == key then [calls[0].now] else []) + TimesOf(calls[1..], key)
  }

  /** A key's bucket depends on that key's own checks only. */
  lemma {:induction false} KeysAreIndependent<Key>(limit: Limit, buckets: map<Key, Bucket>, calls: seq<Call<Key>>, key: Key)
    requires limit.Valid()
    ensures Find(CheckAll(limit, buckets, calls), key) == After(limit, Find(buckets, key), TimesOf(calls, key))
    decreases |calls|
  {
    if calls != [] {
      var call := calls[0];
      var next := buckets[call.key := Check(limit, Find(buckets, call.key), call.now).bucket];
      KeysAreIndependent(limit, next, calls[1..], key);
      var rest := TimesOf(calls[1..], key);
      if call.key == key {
        assert ([call.now] + rest)[1..] == rest;
      } else {
        assert [] + rest == rest;
      }
    }
  }

  class Limiter<Key(==)> {
    const limit: Limit
    var buckets: map<Key, Bucket>

    constructor (limit: Limit)
      requires limit.Valid()
      ensures this.limit == limit && buckets == map[]
    {
      this.limit := limit;
      buckets := map[];
    }

    /** Answers None to admit, or how long to wait. */
    method CheckKey(key: Key, now: real) returns (hint: Option<real>)
      requires limit.Valid()
      modifies this
      ensures buckets == CheckAll(limit, old(buckets), [Call(key, now)])
      ensures hint == Check(limit, Find(old(buckets), key), now).hint
    {
      var bucket := Bucket(limit.capacity as real, now);
      if key in buckets {
        bucket := buckets[key];
      }
      var elapsed := now - bucket.refilledAt;
      var tokens := bucket.tokens + limit.Gain(elapsed);
      if tokens > limit.capacity as real {
        tokens := limit.capacity as real;
      }
      assert Bucket(tokens, now) == bucket.Refill(limit, now);
      if tokens < 1.0 {
        buckets := buckets[key := Bucket(tokens, now)];
        return Some((1.0 - tokens) / limit.rate);
      }
      buckets := buckets[key := Bucket(tokens - 1.0, now)];
      return None;
    }
  }
}
