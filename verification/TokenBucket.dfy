/** The distributed rate limiter: one bucket per key, refilled by elapsed time,
    forgotten by the server when idle. Times are milliseconds. */
module TokenBucket {
  import opened Market

  datatype Bucket = Bucket(tokens: real, ts: int)

  datatype Limits = Limits(rate: real, burst: int)

  /** rate is positive and a full bucket allows at least one request. */
  predicate Usable(l: Limits) {
    l.rate > 0.0 && l.burst >= 1
  }

  function Least(a: real, b: real): real {
    if a < b then a else b
  }

  function Elapsed(ts: int, now: int): real {
    (if now > ts then now - ts else 0) as real / 1000.0
  }

  /** The level a bucket has refilled to, never past the brim. */
  function Level(tokens: real, ts: int, l: Limits, now: int): real {
    Least(l.burst as real, tokens + Elapsed(ts, now) * l.rate)
  }

  /** Tokens in the bucket when a request arrives; an unknown bucket is full. */
  function Refilled(b: Option<Bucket>, l: Limits, now: int): real {
    match b
    case None => l.burst as real
    case Some(Bucket(tokens, ts)) => Level(tokens, ts, l, now)
  }

  function Allows(b: Option<Bucket>, l: Limits, now: int): bool {
    Refilled(b, l, now) >= 1.0
  }

  function Taken(b: Option<Bucket>, l: Limits, now: int): Bucket {
    Bucket(if Allows(b, l, now) then Refilled(b, l, now) - 1.0 else Refilled(b, l, now), now)
  }

  function Ceiling(x: real): int {
    -((-x).Floor)
  }

  /** How long the server keeps an idle bucket. */
  function Ttl(l: Limits): int
    requires Usable(l)
  {
    Ceiling(l.burst as real / l.rate * 1000.0) + 1000
  }

  predicate InRange(b: Option<Bucket>, l: Limits) {
    b.Some? ==> 0.0 <= b.value.tokens <= l.burst as real
  }

  lemma TakenInRange(b: Option<Bucket>, l: Limits, now: int)
    requires Usable(l) && InRange(b, l)
    ensures InRange(Some(Taken(b, l, now)), l)
  {
    if b.Some? { Product(Elapsed(b.value.ts, now), l.rate); }
  }

  lemma NoWait(l: Limits, now: int)
    ensures Level(l.burst as real, now, l, now) == l.burst as real
  {
  }

  lemma Product(x: real, y: real)
    requires x >= 0.0 && y >= 0.0
    ensures x * y >= 0.0
  {
  }

  /** The server's keyspace: hashes with the instant after which they are gone. */
  class RedisLimiter {
    const limits: Limits
    var hashes: map<string, (Bucket, int)>

    constructor (limits: Limits)
      requires Usable(limits)
      ensures this.limits == limits && hashes == map[] && Valid()
    {
      this.limits := limits;
      hashes := map[];
    }

    ghost predicate Valid()
      reads this
    {
      Usable(limits) && forall k | k in hashes :: InRange(Some(hashes[k].0), limits)
    }

    function Seen(key: string, now: int): Option<Bucket>
      reads this
    {
      if key in hashes && now <= hashes[key].1 then Some(hashes[key].0) else None
    }

    method Allow(key: string, now: int) returns (allowed: bool)
      requires Valid()
      modifies this
      ensures Valid() && allowed == Allows(old(Seen(key, now)), limits, now)
      ensures hashes == old(hashes)[key := (Taken(old(Seen(key, now)), limits, now), now + Ttl(limits))]
    {
      var data := Seen(key, now);
      TakenInRange(data, limits, now);
      NoWait(limits, now);
      hide Level, Ttl;
      var tokens, ts := limits.burst as real, now;
      if data.Some? { tokens, ts := data.value.tokens, data.value.ts; }
      tokens := Level(tokens, ts, limits, now);
      allowed := false;
      if tokens >= 1.0 { tokens, allowed := tokens - 1.0, true; }
      hashes := hashes[key := (Bucket(tokens, now), now + Ttl(limits))];
    }
  }

  // ---------- runs of one key ----------

  /** A request's time, and whether the server had dropped the idle bucket. */
  datatype Arrival = Arrival(now: int, dropped: bool)

  predicate Forward(b: Option<Bucket>, times: seq<Arrival>) {
    && (b.Some? ==> forall i | 0 <= i < |times| :: b.value.ts <= times[i].now)
    && (forall i, j | 0 <= i < j < |times| :: times[i].now <= times[j].now)
  }

  /** The bucket a request finds: a bucket can be dropped only once it is idle
      past its lifetime. */
  function Found(b: Option<Bucket>, l: Limits, a: Arrival): Option<Bucket>
    requires Usable(l)
  {
    if b.Some? && a.dropped && a.now > b.value.ts + Ttl(l) then None else b
  }

  function Decisions(b: Option<Bucket>, l: Limits, times: seq<Arrival>, dropping: bool): seq<bool>
    requires Usable(l)
    decreases |times|
  {
    if |times| == 0 then []
    else
      var found := if dropping then Found(b, l, times[0]) else b;
      [Allows(found, l, times[0].now)] + Decisions(Some(Taken(found, l, times[0].now)), l, times[1..], dropping)
  }

  function Granted(ds: seq<bool>): nat {
    if |ds| == 0 then 0 else (if ds[0] then 1 else 0) + Granted(ds[1..])
  }

  /** After its lifetime a bucket has refilled to the brim. */
  lemma FullWhenIdle(b: Bucket, l: Limits, now: int)
    requires Usable(l) && InRange(Some(b), l) && now >= b.ts + Ttl(l)
    ensures Refilled(Some(b), l, now) == l.burst as real
  {
    var q := l.burst as real / l.rate;
    TtlCovers(l);
    Quotient(l.burst as real, l.rate);
    hide Ttl, Level;
    assert (now - b.ts) as real >= Ttl(l) as real;
    ElapsedAtLeast(b.ts, now, q);
    Scale(Elapsed(b.ts, now), q, l.rate);
    LevelFull(b.tokens, b.ts, l, now);
  }

  lemma LevelFull(tokens: real, ts: int, l: Limits, now: int)
    requires tokens >= 0.0 && Elapsed(ts, now) * l.rate >= l.burst as real
    ensures Level(tokens, ts, l, now) == l.burst as real
  {
  }

  lemma ElapsedAtLeast(ts: int, now: int, q: real)
    requires (now - ts) as real >= q * 1000.0 && q >= 0.0
    ensures Elapsed(ts, now) >= q
  {
  }

  lemma Quotient(x: real, r: real)
    requires r > 0.0
    ensures x / r * r == x && (x >= 0.0 ==> x / r >= 0.0)
  {
  }

  lemma TtlCovers(l: Limits)
    requires Usable(l)
    ensures Ttl(l) as real >= l.burst as real / l.rate * 1000.0 + 1000.0
  {
  }

  lemma Scale(x: real, y: real, r: real)
    requires x >= y && r > 0.0
    ensures x * r >= y * r
  {
  }

  /** Dropping idle buckets never changes a decision. */
  lemma {:induction false} DroppingUnobservable(b: Option<Bucket>, l: Limits, times: seq<Arrival>)
    requires Usable(l) && InRange(b, l)
    ensures Decisions(b, l, times, true) == Decisions(b, l, times, false)
    decreases |times|
  {
    if |times| > 0 {
      var a := times[0];
      if Found(b, l, a) != b { FullWhenIdle(b.value, l, a.now); }
      TakenInRange(b, l, a.now);
      DroppingUnobservable(Some(Taken(b, l, a.now)), l, times[1..]);
    }
  }

  /** What flows in during so many milliseconds. */
  function Inflow(l: Limits, ms: int): real {
    l.rate * ms as real / 1000.0
  }

  lemma InflowAdds(l: Limits, x: int, y: int)
    ensures Inflow(l, x + y) == Inflow(l, x) + Inflow(l, y) && Inflow(l, 0) == 0.0
  {
    assert (x + y) as real == x as real + y as real;
    Distribute(l.rate, x as real, y as real);
  }

  lemma Distribute(r: real, x: real, y: real)
    ensures r * (x + y) / 1000.0 == r * x / 1000.0 + r * y / 1000.0
  {
    assert r * (x + y) == r * x + r * y;
  }

  lemma RefilledAtMost(b: Bucket, l: Limits, now: int)
    requires b.ts <= now
    ensures Refilled(Some(b), l, now) <= b.tokens + Inflow(l, now - b.ts)
  {
    Commute((now - b.ts) as real, l.rate);
  }

  lemma Commute(x: real, r: real)
    ensures x / 1000.0 * r == r * x / 1000.0
  {
  }

  lemma TakenTokens(b: Option<Bucket>, l: Limits, now: int)
    ensures Taken(b, l, now).ts == now
    ensures Taken(b, l, now).tokens == Refilled(b, l, now) - if Allows(b, l, now) then 1.0 else 0.0
  {
  }

  /** What a run of requests can be granted: at most what was in the bucket when
      the first arrived, plus what flows in until the last. */
  lemma {:induction false} GrantedBound(b: Option<Bucket>, l: Limits, times: seq<Arrival>)
    requires Usable(l) && InRange(b, l) && Forward(b, times) && |times| > 0
    ensures Granted(Decisions(b, l, times, false)) as real
            <= Refilled(b, l, times[0].now) + Inflow(l, times[|times| - 1].now - times[0].now)
    decreases |times|
  {
    var now, rest := times[0].now, times[1..];
    var after := Taken(b, l, now);
    TakenInRange(b, l, now);
    TakenTokens(b, l, now);
    InflowAdds(l, 0, 0);
    var ds := Decisions(b, l, times, false);
    assert ds == [Allows(b, l, now)] + Decisions(Some(after), l, rest, false);
    assert ds[1..] == Decisions(Some(after), l, rest, false);
    if |rest| > 0 {
      hide Refilled, Allows, Taken, Inflow, InRange, Decisions;
      var next := rest[0].now;
      assert rest[|rest| - 1] == times[|times| - 1] && now <= next;
      GrantedBound(Some(after), l, rest);
      RefilledAtMost(after, l, next);
      InflowAdds(l, next - now, times[|times| - 1].now - next);
    } else {
      assert Granted(ds) == if ds[0] then 1 else 0;
    }
  }

  function BucketAfter(b: Option<Bucket>, l: Limits, times: seq<Arrival>): Option<Bucket>
    decreases |times|
  {
    if |times| == 0 then b else BucketAfter(Some(Taken(b, l, times[0].now)), l, times[1..])
  }

  lemma {:induction false} DecisionsSplit(b: Option<Bucket>, l: Limits, x: seq<Arrival>, y: seq<Arrival>)
    requires Usable(l) && InRange(b, l) && Forward(b, x + y)
    ensures Decisions(b, l, x + y, false) == Decisions(b, l, x, false) + Decisions(BucketAfter(b, l, x), l, y, false)
    ensures InRange(BucketAfter(b, l, x), l) && Forward(BucketAfter(b, l, x), y)
    decreases |x|
  {
    hide Allows, Taken, Forward, InRange, Usable;
    if |x| == 0 {
      assert x + y == y;
    } else {
      TakenTokens(b, l, x[0].now);
      TakenInRange(b, l, x[0].now);
      var after := Taken(b, l, x[0].now);
      assert (x + y)[1..] == x[1..] + y && (x + y)[0] == x[0];
      ForwardTail(b, x + y, after);
      DecisionsSplit(Some(after), l, x[1..], y);
      assert Decisions(b, l, x + y, false) == [Allows(b, l, x[0].now)] + Decisions(Some(after), l, x[1..] + y, false);
    }
  }

  lemma ForwardTail(b: Option<Bucket>, times: seq<Arrival>, after: Bucket)
    requires Forward(b, times) && |times| > 0 && after.ts == times[0].now
    ensures Forward(Some(after), times[1..])
  {
  }

  /** The rate bound: in any window of a run of requests for one key, idle
      buckets dropped or not, at most the burst plus the rate times the window's
      length is granted. */
  lemma RateBound(b: Option<Bucket>, l: Limits, before: seq<Arrival>, window: seq<Arrival>, after: seq<Arrival>)
    requires Usable(l) && InRange(b, l) && Forward(b, before + window + after) && |window| > 0
    ensures var ds := Decisions(b, l, before + window + after, true);
            && |ds| == |before| + |window| + |after|
            && Granted(ds[|before|..|before| + |window|]) as real
               <= l.burst as real + Inflow(l, window[|window| - 1].now - window[0].now)
  {
    var all := before + window + after;
    DroppingUnobservable(b, l, all);
    assert all == before + (window + after);
    DecisionsSplit(b, l, before, window + after);
    var c := BucketAfter(b, l, before);
    DecisionsSplit(c, l, window, after);
    DecisionsLength(b, l, before);
    DecisionsLength(c, l, window);
    DecisionsLength(BucketAfter(c, l, window), l, after);
    var ds := Decisions(b, l, all, true);
    assert ds[|before|..|before| + |window|] == Decisions(c, l, window, false);
    assert forall i | 0 <= i < |window| :: (window + after)[i] == window[i];
    GrantedBound(c, l, window);
  }

  lemma {:induction false} DecisionsLength(b: Option<Bucket>, l: Limits, times: seq<Arrival>)
    requires Usable(l)
    ensures |Decisions(b, l, times, false)| == |times|
    decreases |times|
  {
    if |times| > 0 { DecisionsLength(Some(Taken(b, l, times[0].now)), l, times[1..]); }
  }

  // ---------- what is certainly granted ----------

  /** Requests no closer than the rate allows. */
  predicate Spaced(l: Limits, times: seq<Arrival>) {
    forall i, j | 0 <= i < |times| && j == i + 1 < |times| :: Inflow(l, times[j].now - times[i].now) >= 1.0
  }

  /** A request is granted exactly when a whole token is there, and requests that
      keep to the rate all find one, once the first does. */
  lemma {:induction false} SteadyGranted(b: Option<Bucket>, l: Limits, times: seq<Arrival>)
    requires Usable(l) && InRange(b, l) && Forward(b, times) && Spaced(l, times)
    requires |times| > 0 && Refilled(b, l, times[0].now) >= 1.0
    ensures forall i | 0 <= i < |Decisions(b, l, times, false)| :: Decisions(b, l, times, false)[i]
    decreases |times|
  {
    var now, rest := times[0].now, times[1..];
    var after := Taken(b, l, now);
    TakenInRange(b, l, now);
    TakenTokens(b, l, now);
    if |rest| > 0 {
      var next := rest[0].now;
      assert rest[0] == times[1] && Inflow(l, next - now) >= 1.0;
      SpacedTail(l, times);
      ForwardTail(b, times, after);
      RefilledAgain(after, l, next);
      hide Refilled, Taken, Inflow, InRange, Forward, Spaced;
      SteadyGranted(Some(after), l, rest);
    }
  }

  lemma SpacedTail(l: Limits, times: seq<Arrival>)
    requires Spaced(l, times) && |times| > 0
    ensures Spaced(l, times[1..])
  {
    hide Inflow;
    var rest := times[1..];
    forall i, j | 0 <= i < |rest| && j == i + 1 < |rest|
      ensures Inflow(l, rest[j].now - rest[i].now) >= 1.0
    {
      assert rest[i] == times[i + 1] && rest[j] == times[j + 1];
    }
  }

  lemma RefilledAgain(b: Bucket, l: Limits, now: int)
    requires Usable(l) && b.tokens >= 0.0 && b.ts <= now && Inflow(l, now - b.ts) >= 1.0
    ensures Refilled(Some(b), l, now) >= 1.0
  {
    Commute((now - b.ts) as real, l.rate);
  }

  /** A burst at one instant, on a bucket the server does not know, is granted to
      exactly the size of the burst. */
  lemma {:induction false} BurstGranted(b: Option<Bucket>, l: Limits, now: int, n: nat, left: nat)
    requires Usable(l) && Refilled(b, l, now) == left as real && left <= l.burst
    ensures var ds := Decisions(b, l, seq(n, i => Arrival(now, false)), false);
            |ds| == n && forall i | 0 <= i < n :: ds[i] <==> i < left
    decreases n
  {
    if n > 0 {
      var times := seq(n, i => Arrival(now, false));
      var after := Taken(b, l, now);
      assert times[1..] == seq(n - 1, i => Arrival(now, false));
      assert Refilled(Some(after), l, now) == (if left >= 1 then left - 1 else left) as real;
      hide Refilled, Taken;
      BurstGranted(Some(after), l, now, n - 1, if left >= 1 then left - 1 else left);
    }
  }
}
