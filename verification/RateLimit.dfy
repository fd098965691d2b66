/** The in-memory token bucket limiter and its sweep (packages/server/src/auth/ratelimit.ts). */
module RateLimit {
  import opened Common

  datatype Params = Params(capacity: real, refillPerMs: real)

  datatype Bucket = Bucket(tokens: real, updatedAt: int)

  datatype Decision = Decision(ok: bool, limit: real, remaining: int, retryAfterMs: int, resetMs: int)

  datatype Request = Request(key: string, now: int, cost: real)

  const SWEEP_EVERY_MS := 60_000
  const IDLE_MS := 600_000

  predicate Usable(p: Params) {
    p.capacity > 0.0 && p.refillPerMs > 0.0
  }

  function Ceil(x: real): int {
    -(-x).Floor
  }

  // ---------------------------------------------------------------- one bucket

  function Earned(rate: real, ms: int): real {
    ms as real * rate
  }

  function Capped(p: Params, tokens: real): real {
    if p.capacity <= tokens then p.capacity else tokens
  }

  /** Tokens at `now`; a key without a bucket has them all. */
  function Level(p: Params, b: Option<Bucket>, now: int): real {
    if b.None? then p.capacity
    else Capped(p, b.value.tokens + Earned(p.refillPerMs, Max(0, now - b.value.updatedAt)))
  }

  function Accepts(p: Params, b: Option<Bucket>, now: int, cost: real): bool {
    Level(p, b, now) >= cost
  }

  function BucketAfter(p: Params, b: Option<Bucket>, now: int, cost: real): Bucket {
    Bucket(Level(p, b, now) - (if Accepts(p, b, now, cost) then cost else 0.0), now)
  }

  function Answer(p: Params, b: Option<Bucket>, now: int, cost: real): Decision
    requires p.refillPerMs > 0.0
  {
    var level := Level(p, b, now);
    if level >= cost
    then Decision(true, p.capacity, (level - cost).Floor, 0, Ceil((p.capacity - (level - cost)) / p.refillPerMs))
    else
      var wait := Ceil((cost - level) / p.refillPerMs);
      Decision(false, p.capacity, 0, wait, wait)
  }

  // ---------------------------------------------------------------- the limiter

  datatype Table = Table(buckets: map<string, Bucket>, lastSweep: int)

  const EMPTY := Table(map[], 0)

  function Find(buckets: map<string, Bucket>, key: string): Option<Bucket> {
    if key in buckets then Some(buckets[key]) else None
  }

  predicate Idle(b: Bucket, now: int) {
    now - b.updatedAt > IDLE_MS
  }

  function Kept(buckets: map<string, Bucket>, now: int): (r: map<string, Bucket>)
    ensures forall k :: k in r <==> k in buckets && !Idle(buckets[k], now)
    ensures forall k :: k in r ==> r[k] == buckets[k]
  {
    map k | k in buckets && !Idle(buckets[k], now) :: buckets[k]
  }

  function Swept(t: Table, now: int): Table {
    if now - t.lastSweep < SWEEP_EVERY_MS then t else Table(Kept(t.buckets, now), now)
  }

  /** The limiter after a request; with sweeping off it never forgets a bucket. */
  function Step(p: Params, sweeping: bool, t: Table, r: Request): Table {
    var s := if sweeping then Swept(t, r.now) else t;
    s.(buckets := s.buckets[r.key := BucketAfter(p, Find(s.buckets, r.key), r.now, r.cost)])
  }

  function Run(p: Params, sweeping: bool, requests: seq<Request>): Table {
    if requests == [] then EMPTY
    else Step(p, sweeping, Run(p, sweeping, requests[..|requests| - 1]), requests[|requests| - 1])
  }

  /** Whether request k is let through. */
  function Ok(p: Params, sweeping: bool, requests: seq<Request>, k: nat): bool
    requires k < |requests|
  {
    var t := Run(p, sweeping, requests[..k]);
    var s := if sweeping then Swept(t, requests[k].now) else t;
    Accepts(p, Find(s.buckets, requests[k].key), requests[k].now, requests[k].cost)
  }

  /** A clock that never goes back, and no negative cost. */
  ghost predicate Ordered(requests: seq<Request>) {
    && (forall j, k :: 0 <= j < k < |requests| ==> requests[j].now <= requests[k].now)
    && (forall k :: 0 <= k < |requests| ==> requests[k].cost >= 0.0)
  }

  // ---------------------------------------------------------------- arithmetic of refilling

  lemma EarnedAdds(rate: real, a: int, b: int)
    ensures Earned(rate, a + b) == Earned(rate, a) + Earned(rate, b)
  {
  }

  lemma EarnedGrows(rate: real, a: int, b: int)
    requires rate > 0.0 && a <= b
    ensures Earned(rate, a) <= Earned(rate, b)
    ensures Earned(rate, 0) == 0.0
  {
    EarnedAdds(rate, a, b - a);
    assert (b - a) as real * rate >= 0.0;
  }

  /** Waiting pays for a debt exactly from the rounded-up quotient on. */
  lemma CeilIsExact(debt: real, rate: real, ms: int)
    requires rate > 0.0
    ensures Earned(rate, ms) >= debt <==> ms >= Ceil(debt / rate)
  {
    var q := debt / rate;
    assert q * rate == debt;
    assert Ceil(q) as real >= q > Ceil(q) as real - 1.0;
    if ms >= Ceil(q) {
      assert ms as real >= q;
      assert ms as real * rate >= q * rate by { Scale(q, ms as real, rate); }
    } else {
      assert ms as real <= Ceil(q) as real - 1.0 < q;
      assert ms as real * rate < q * rate by { Scale(ms as real, q, rate); }
    }
  }

  lemma Scale(a: real, b: real, rate: real)
    requires rate > 0.0
    ensures a <= b ==> a * rate <= b * rate
    ensures a < b ==> a * rate < b * rate
  {
    assert (b - a) * rate == b * rate - a * rate;
  }

  // ---------------------------------------------------------------- retrying

  /**
   * A refused request whose cost a full bucket covers, retried alone at any later time, passes exactly from retryAfterMs on.
   */
  lemma RetryAfterIsExact(p: Params, b: Option<Bucket>, now: int, cost: real, wait: nat)
    requires Usable(p) && cost <= p.capacity && !Accepts(p, b, now, cost)
    ensures var d := Answer(p, b, now, cost);
            Accepts(p, Some(BucketAfter(p, b, now, cost)), now + wait, cost) <==> wait >= d.retryAfterMs
  {
    var level := Level(p, b, now);
    CeilIsExact(cost - level, p.refillPerMs, wait);
  }

  /** After an accepted request the bucket is full again exactly from resetMs on. */
  lemma ResetIsExact(p: Params, b: Option<Bucket>, now: int, cost: real, wait: nat)
    requires Usable(p) && Accepts(p, b, now, cost)
    ensures var d := Answer(p, b, now, cost);
            Level(p, Some(BucketAfter(p, b, now, cost)), now + wait) == p.capacity <==> wait >= d.resetMs
  {
    var left := Level(p, b, now) - cost;
    CeilIsExact(p.capacity - left, p.refillPerMs, wait);
  }

  // ---------------------------------------------------------------- runs

  ghost predicate Sane(p: Params, buckets: map<string, Bucket>, clock: int) {
    forall k :: k in buckets ==> 0.0 <= buckets[k].tokens <= p.capacity && buckets[k].updatedAt <= clock
  }

  lemma LevelBounds(p: Params, b: Option<Bucket>, now: int)
    requires Usable(p) && (b.Some? ==> 0.0 <= b.value.tokens)
    ensures 0.0 <= Level(p, b, now) <= p.capacity
  {
    if b.Some? {
      EarnedGrows(p.refillPerMs, 0, Max(0, now - b.value.updatedAt));
    }
  }

  lemma StepIsSane(p: Params, sweeping: bool, t: Table, r: Request, clock: int)
    requires Usable(p) && Sane(p, t.buckets, clock) && clock <= r.now && r.cost >= 0.0
    ensures Sane(p, Step(p, sweeping, t, r).buckets, r.now)
  {
    LevelBounds(p, Find(if sweeping then Swept(t, r.now).buckets else t.buckets, r.key), r.now);
  }

  lemma RunStep(p: Params, sweeping: bool, requests: seq<Request>, k: nat)
    requires k < |requests|
    ensures Run(p, sweeping, requests[..k + 1]) == Step(p, sweeping, Run(p, sweeping, requests[..k]), requests[k])
  {
    assert requests[..k + 1][..k] == requests[..k];
  }

  lemma {:induction false} RunIsSane(p: Params, sweeping: bool, requests: seq<Request>, n: nat, clock: int)
    requires Usable(p) && Ordered(requests) && n <= |requests| && (n > 0 ==> requests[n - 1].now <= clock)
    ensures Sane(p, Run(p, sweeping, requests[..n]).buckets, clock)
  {
    if n > 0 {
      RunIsSane(p, sweeping, requests, n - 1, requests[n - 1].now);
      RunStep(p, sweeping, requests, n - 1);
      StepIsSane(p, sweeping, Run(p, sweeping, requests[..n - 1]), requests[n - 1], requests[n - 1].now);
    }
  }

  /** Time brings at most its earnings. */
  lemma LevelGrows(p: Params, b: Option<Bucket>, t: int, now: int)
    requires Usable(p) && t <= now && (b.Some? ==> b.value.updatedAt <= t)
    ensures Level(p, b, now) <= Level(p, b, t) + Earned(p.refillPerMs, now - t)
  {
    EarnedGrows(p.refillPerMs, 0, now - t);
    if b.Some? {
      EarnedAdds(p.refillPerMs, t - b.value.updatedAt, now - t);
    }
  }

  // ---------------------------------------------------------------- what sweeping changes

  /** The sweeping table has forgotten only buckets that are full by now. */
  ghost predicate Forgets(p: Params, swept: map<string, Bucket>, all: map<string, Bucket>, clock: int) {
    forall k :: k in swept || k in all ==>
                  if k in swept then k in all && swept[k] == all[k]
                  else all[k].tokens + Earned(p.refillPerMs, clock - all[k].updatedAt) >= p.capacity
  }

  lemma FullStaysFull(p: Params, b: Bucket, clock: int, now: int)
    requires Usable(p) && clock <= now && b.tokens + Earned(p.refillPerMs, clock - b.updatedAt) >= p.capacity
    ensures b.tokens + Earned(p.refillPerMs, now - b.updatedAt) >= p.capacity
  {
    EarnedGrows(p.refillPerMs, clock - b.updatedAt, now - b.updatedAt);
  }

  /** The condition: an idle bucket is full even if it was empty. */
  predicate RefillsWhileIdle(p: Params) {
    p.capacity <= Earned(p.refillPerMs, IDLE_MS + 1)
  }

  lemma SweepForgets(p: Params, t: Table, all: map<string, Bucket>, clock: int, now: int)
    requires Usable(p) && RefillsWhileIdle(p) && clock <= now && Sane(p, all, clock)
    requires Forgets(p, t.buckets, all, clock)
    ensures Forgets(p, Swept(t, now).buckets, all, now)
  {
    forall k | k in all && k !in Swept(t, now).buckets
      ensures all[k].tokens + Earned(p.refillPerMs, now - all[k].updatedAt) >= p.capacity
    {
      if k in t.buckets {
        EarnedGrows(p.refillPerMs, IDLE_MS + 1, now - all[k].updatedAt);
      } else {
        FullStaysFull(p, all[k], clock, now);
      }
    }
  }

  lemma SameLevel(p: Params, swept: map<string, Bucket>, all: map<string, Bucket>, now: int, key: string)
    requires Usable(p) && Forgets(p, swept, all, now) && Sane(p, all, now)
    ensures Level(p, Find(swept, key), now) == Level(p, Find(all, key), now)
  {
  }

  lemma {:induction false} SweepingForgets(p: Params, requests: seq<Request>, n: nat, clock: int)
    requires Usable(p) && RefillsWhileIdle(p) && Ordered(requests) && n <= |requests|
    requires n > 0 ==> requests[n - 1].now == clock
    ensures Forgets(p, Run(p, true, requests[..n]).buckets, Run(p, false, requests[..n]).buckets, clock)
  {
    if n > 0 {
      var r := requests[n - 1];
      var t, all := Run(p, true, requests[..n - 1]), Run(p, false, requests[..n - 1]).buckets;
      var last := if n > 1 then requests[n - 2].now else r.now;
      SweepingForgets(p, requests, n - 1, last);
      RunIsSane(p, false, requests, n - 1, last);
      SweepForgets(p, t, all, last, r.now);
      RunIsSane(p, false, requests, n - 1, r.now);
      SameLevel(p, Swept(t, r.now).buckets, all, r.now, r.key);
      RunStep(p, true, requests, n - 1);
      RunStep(p, false, requests, n - 1);
    }
  }

  lemma SweepingChangesNothing(p: Params, requests: seq<Request>, k: nat)
    requires Usable(p) && RefillsWhileIdle(p) && Ordered(requests) && k < |requests|
    ensures Ok(p, true, requests, k) == Ok(p, false, requests, k)
  {
    var r := requests[k];
    var t, all := Run(p, true, requests[..k]), Run(p, false, requests[..k]).buckets;
    var last := if k > 0 then requests[k - 1].now else r.now;
    SweepingForgets(p, requests, k, last);
    RunIsSane(p, false, requests, k, last);
    SweepForgets(p, t, all, last, r.now);
    RunIsSane(p, false, requests, k, r.now);
    SameLevel(p, Swept(t, r.now).buckets, all, r.now, r.key);
  }

  /** Empty the bucket, then ask for a full one as soon as the sweep has forgotten it. */
  function ReturnAfterIdling(p: Params, key: string): seq<Request> {
    [Request(key, 0, p.capacity), Request(key, IDLE_MS + 1, p.capacity)]
  }

  lemma SweepingShows(p: Params, key: string)
    requires Usable(p) && !RefillsWhileIdle(p)
    ensures var requests := ReturnAfterIdling(p, key);
            Ordered(requests) && Ok(p, true, requests, 1) && !Ok(p, false, requests, 1)
  {
    var requests := ReturnAfterIdling(p, key);
    var b := Bucket(p.capacity - p.capacity, 0);
    assert requests[..1][..0] == [] && requests[..0] == [];
    RunStep(p, true, requests, 0);
    RunStep(p, false, requests, 0);
    assert Run(p, true, requests[..1]) == Table(map[key := b], 0);
    assert Run(p, false, requests[..1]) == Table(map[key := b], 0);
    assert key !in Swept(Table(map[key := b], 0), IDLE_MS + 1).buckets;
    EarnedGrows(p.refillPerMs, 0, IDLE_MS + 1);
  }

  /** Sweeping never shows, over all runs of a clock that does not go back, exactly when idle buckets refill completely. */
  lemma SweepingIsInvisibleExactly(p: Params)
    requires Usable(p)
    ensures RefillsWhileIdle(p) <==>
            forall requests, k: nat :: Ordered(requests) && k < |requests| ==> Ok(p, true, requests, k) == Ok(p, false, requests, k)
  {
    if RefillsWhileIdle(p) {
      forall requests, k: nat | Ordered(requests) && k < |requests|
        ensures Ok(p, true, requests, k) == Ok(p, false, requests, k)
      {
        SweepingChangesNothing(p, requests, k);
      }
    } else {
      SweepingShows(p, "k");
    }
  }

  // ---------------------------------------------------------------- how much passes in a window

  /** The cost let through for a key among requests from..to. */
  function Passed(p: Params, sweeping: bool, requests: seq<Request>, key: string, from: nat, to: nat): real
    requires from <= to <= |requests|
  {
    if from == to then 0.0
    else
      Passed(p, sweeping, requests, key, from, to - 1) +
      (if requests[to - 1].key == key && Ok(p, sweeping, requests, to - 1) then requests[to - 1].cost else 0.0)
  }

  /** Refilling of which an idle bucket is full when it is swept. */
  function SweepRate(p: Params): real {
    p.capacity / (IDLE_MS + 1) as real
  }

  /** The limiter with the rate at which tokens can come back: by refilling, or by being swept and started afresh. */
  function Metered(p: Params, sweeping: bool): Params {
    p.(refillPerMs := if sweeping && SweepRate(p) > p.refillPerMs then SweepRate(p) else p.refillPerMs)
  }

  lemma MeteredIsFaster(p: Params, sweeping: bool)
    requires Usable(p)
    ensures var m := Metered(p, sweeping);
            && Usable(m) && m.capacity == p.capacity && p.refillPerMs <= m.refillPerMs && (sweeping ==> RefillsWhileIdle(m))
            && (RefillsWhileIdle(p) ==> m == p)
  {
    var n := (IDLE_MS + 1) as real;
    assert SweepRate(p) * n == p.capacity;
    assert p.refillPerMs * n == Earned(p.refillPerMs, IDLE_MS + 1);
    Scale(SweepRate(p), Metered(p, sweeping).refillPerMs, n);
    Scale(p.refillPerMs, SweepRate(p), n);
  }

  lemma FasterIsFuller(p: Params, m: Params, b: Option<Bucket>, now: int)
    requires Usable(p) && m.capacity == p.capacity && p.refillPerMs <= m.refillPerMs
    ensures Level(p, b, now) <= Level(m, b, now)
  {
    if b.Some? {
      var ms := Max(0, now - b.value.updatedAt);
      assert (m.refillPerMs - p.refillPerMs) * ms as real >= 0.0;
      assert Earned(m.refillPerMs, ms) - Earned(p.refillPerMs, ms) == (m.refillPerMs - p.refillPerMs) * ms as real;
    }
  }

  /** What is swept is full by the faster rate. */
  lemma SweptIsFull(m: Params, t: Table, now: int, key: string)
    requires Usable(m) && RefillsWhileIdle(m) && Sane(m, t.buckets, now)
    ensures Level(m, Find(Swept(t, now).buckets, key), now) == Level(m, Find(t.buckets, key), now)
  {
    if key in t.buckets && key !in Swept(t, now).buckets {
      EarnedGrows(m.refillPerMs, IDLE_MS + 1, now - t.buckets[key].updatedAt);
    }
  }

  /** One request costs the bucket, by the faster rate, at least what it lets through. */
  lemma RequestIsPaid(p: Params, m: Params, sweeping: bool, t: Table, r: Request, key: string)
    requires Usable(p) && Usable(m) && m.capacity == p.capacity && p.refillPerMs <= m.refillPerMs
    requires (sweeping ==> RefillsWhileIdle(m)) && Sane(p, t.buckets, r.now) && r.cost >= 0.0
    ensures var s := if sweeping then Swept(t, r.now) else t;
            var passed := if r.key == key && Accepts(p, Find(s.buckets, key), r.now, r.cost) then r.cost else 0.0;
            passed + Level(m, Find(Step(p, sweeping, t, r).buckets, key), r.now) <= Level(m, Find(t.buckets, key), r.now)
  {
    var s := if sweeping then Swept(t, r.now) else t;
    if sweeping {
      SweptIsFull(m, t, r.now, key);
    }
    if r.key == key {
      FasterIsFuller(p, m, Find(s.buckets, key), r.now);
      LevelBounds(p, Find(s.buckets, key), r.now);
      EarnedGrows(m.refillPerMs, 0, 0);
    }
  }

  /** What has passed since request `from`, and what is left now, is paid for by a full bucket and the time since. */
  lemma {:induction false} PassedIsPaid(p: Params, sweeping: bool, requests: seq<Request>, key: string, from: nat, to: nat)
    requires Usable(p) && Ordered(requests) && from < to <= |requests|
    ensures var t := Run(p, sweeping, requests[..to]);
            var (now, m) := (requests[to - 1].now, Metered(p, sweeping));
            Passed(p, sweeping, requests, key, from, to) + Level(m, Find(t.buckets, key), now) <=
            p.capacity + Earned(m.refillPerMs, now - requests[from].now)
  {
    var k, m := to - 1, Metered(p, sweeping);
    var t, r := Run(p, sweeping, requests[..k]), requests[k];
    MeteredIsFaster(p, sweeping);
    RunStep(p, sweeping, requests, k);
    RunIsSane(p, sweeping, requests, k, r.now);
    RequestIsPaid(p, m, sweeping, t, r, key);
    if from < k {
      var last := requests[k - 1].now;
      PassedIsPaid(p, sweeping, requests, key, from, k);
      RunIsSane(p, sweeping, requests, k, last);
      LevelGrows(m, Find(t.buckets, key), last, r.now);
      EarnedAdds(m.refillPerMs, last - requests[from].now, r.now - last);
    } else {
      LevelBounds(m, Find(t.buckets, key), r.now);
      EarnedGrows(m.refillPerMs, 0, 0);
    }
  }

  /**
   * In any run of consecutive requests the cost let through for one key is at most a full bucket and what comes back between
   * the first and the last of them: at the refill rate, or with sweeping at the rate of a full bucket in ten minutes if that
   * is faster.
   */
  lemma WindowIsBounded(p: Params, sweeping: bool, requests: seq<Request>, key: string, from: nat, to: nat)
    requires Usable(p) && Ordered(requests) && from < to <= |requests|
    ensures Passed(p, sweeping, requests, key, from, to) <=
            p.capacity + Earned(Metered(p, sweeping).refillPerMs, requests[to - 1].now - requests[from].now)
  {
    PassedIsPaid(p, sweeping, requests, key, from, to);
    MeteredIsFaster(p, sweeping);
    RunIsSane(p, sweeping, requests, to, requests[to - 1].now);
    LevelBounds(Metered(p, sweeping), Find(Run(p, sweeping, requests[..to]).buckets, key), requests[to - 1].now);
  }

  /** At most a full bucket and what is refilled since. */
  ghost predicate RefillBounds(p: Params, requests: seq<Request>, key: string, from: nat, to: nat)
    requires from < to <= |requests|
  {
    Passed(p, true, requests, key, from, to) <= p.capacity + Earned(p.refillPerMs, requests[to - 1].now - requests[from].now)
  }

  /** The refill rate bounds what the sweeping limiter lets through, in every run, exactly when idle buckets refill completely. */
  lemma RefillBoundsExactly(p: Params)
    requires Usable(p)
    ensures RefillsWhileIdle(p) <==>
            forall requests, key, from: nat, to: nat :: Ordered(requests) && from < to <= |requests| ==> RefillBounds(p, requests, key, from, to)
  {
    if RefillsWhileIdle(p) {
      MeteredIsFaster(p, true);
      forall requests, key, from: nat, to: nat | Ordered(requests) && from < to <= |requests|
        ensures RefillBounds(p, requests, key, from, to)
      {
        WindowIsBounded(p, true, requests, key, from, to);
      }
    } else {
      TwiceTheCapacity(p, "k");
      assert !RefillBounds(p, ReturnAfterIdling(p, "k"), "k", 0, 2);
    }
  }

  lemma TwiceTheCapacity(p: Params, key: string)
    requires Usable(p) && !RefillsWhileIdle(p)
    ensures var requests := ReturnAfterIdling(p, key);
            Ordered(requests) && Passed(p, true, requests, key, 0, 2) == 2.0 * p.capacity
  {
    var requests := ReturnAfterIdling(p, key);
    SweepingShows(p, key);
    assert requests[..0] == [];
    assert Ok(p, true, requests, 0);
    assert Passed(p, true, requests, key, 0, 1) == p.capacity;
  }

  // ---------------------------------------------------------------- the limiters in use

  function ApiLimiter(perMinute: int): Params {
    Params(perMinute as real, perMinute as real / 60000.0)
  }

  function AnonymousLimiter(perMinute: int): Params {
    var half := perMinute as real / 2.0;
    Params(Max(30, half.Floor) as real, (if half >= 30.0 then half else 30.0) / 60000.0)
  }

  function PreviewLimiter(perHour: int): Params {
    Params(perHour as real, perHour as real / 3600000.0)
  }

  const UPLOAD_LIMITER := Params(30.0, 30.0 / 3600000.0)

  /** The per-minute limiters meet the condition; the per-hour ones do not, so sweeping refills them early. */
  lemma HourlyLimitersAreReset(perMinute: int, perHour: int)
    requires perMinute > 0 && perHour > 0
    ensures RefillsWhileIdle(ApiLimiter(perMinute)) && RefillsWhileIdle(AnonymousLimiter(perMinute))
    ensures !RefillsWhileIdle(PreviewLimiter(perHour)) && !RefillsWhileIdle(UPLOAD_LIMITER)
  {
    var half := perMinute as real / 2.0;
    assert half.Floor as real <= half;
  }

  /** So the hourly limits can come back every 600,001 ms. */
  lemma HourlyLimitersRefillSooner(perHour: int)
    requires perHour > 0
    ensures Metered(PreviewLimiter(perHour), true).refillPerMs == perHour as real / 600001.0
    ensures Metered(UPLOAD_LIMITER, true).refillPerMs == 30.0 / 600001.0
  {
  }
}

/** The limiter as an object. */
module RateLimiter {
  import opened Common
  import opened RateLimit

  class TokenBucketLimiter {
    const params: Params
    var buckets: map<string, Bucket>
    var lastSweep: int

    function State(): Table
      reads this
    {
      Table(buckets, lastSweep)
    }

    constructor (params: Params)
      ensures this.params == params && State() == EMPTY
    {
      this.params := params;
      buckets, lastSweep := map[], 0;
    }

    method Take(key: string, now: int, cost: real) returns (d: Decision)
      requires Usable(params)
      modifies this
      ensures State() == Step(params, true, old(State()), Request(key, now, cost))
      ensures d == Answer(params, Find(Swept(old(State()), now).buckets, key), now, cost)
    {
      Sweep(now);
      var b := if key in buckets then buckets[key] else Bucket(params.capacity, now);
      var elapsed := Max(0, now - b.updatedAt);
      var tokens := Capped(params, b.tokens + elapsed as real * params.refillPerMs);
      EarnedGrows(params.refillPerMs, 0, 0);
      assert tokens == Level(params, Find(buckets, key), now);
      if tokens >= cost {
        tokens := tokens - cost;
        buckets := buckets[key := Bucket(tokens, now)];
        return Decision(true, params.capacity, tokens.Floor, 0, Ceil((params.capacity - tokens) / params.refillPerMs));
      }
      buckets := buckets[key := Bucket(tokens, now)];
      var retryAfterMs := Ceil((cost - tokens) / params.refillPerMs);
      d := Decision(false, params.capacity, 0, retryAfterMs, retryAfterMs);
    }

    method Sweep(now: int)
      modifies this
      ensures State() == Swept(old(State()), now)
    {
      if now - lastSweep < SWEEP_EVERY_MS {
        return;
      }
      lastSweep := now;
      ghost var all := buckets;
      var keys := buckets.Keys;
      while keys != {}
        invariant keys <= all.Keys && buckets.Keys <= all.Keys
        invariant forall k :: k in all ==> (k in buckets <==> k in keys || !Idle(all[k], now))
        invariant forall k :: k in buckets ==> buckets[k] == all[k]
        invariant lastSweep == now
        decreases |keys|
      {
        var k :| k in keys;
        if Idle(buckets[k], now) {
          buckets := buckets - {k};
        }
        keys := keys - {k};
      }
      assert buckets == Kept(all, now);
    }
  }
}
