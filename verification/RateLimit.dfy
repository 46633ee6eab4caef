/** The in-memory token-bucket rate limiter: how much it can admit, and whether its clean-up shows. */
module RateLimit {
  import opened Types

  /** Whole numbers, as every caller configures it; times are whole milliseconds. */
  datatype Config = Config(capacity: nat, refillIntervalMs: nat, refillAmount: nat)

  predicate Proper(c: Config) {
    c.refillIntervalMs > 0
  }

  datatype Bucket = Bucket(tokens: int, lastRefill: int)

  type Buckets = map<string, Bucket>

  const STALE_MS: nat := 1_800_000

  datatype Answer = Allowed | Denied(retryAfterSeconds: int) | Remaining(tokens: int)

  // ---------------------------- one bucket ----------------------------

  function Refills(c: Config, b: Bucket, now: int): int
    requires Proper(c)
  {
    (now - b.lastRefill) / c.refillIntervalMs
  }

  function Refilled(c: Config, b: Bucket, now: int): Bucket
    requires Proper(c)
  {
    var n := Refills(c, b, now);
    if n > 0 then Bucket(Min(c.capacity, b.tokens + n * c.refillAmount), now) else b
  }

  /** `Math.ceil(ms / 1000)` */
  function CeilSeconds(ms: int): int {
    (ms + 999) / 1000
  }

  function RetryAfter(c: Config, b: Bucket, now: int): int {
    var s := CeilSeconds(c.refillIntervalMs - (now - b.lastRefill));
    if s < 1 then 1 else s
  }

  function Asked(c: Config, b: Option<Bucket>, now: int): (Bucket, Answer)
    requires Proper(c)
  {
    if b.None? then (Bucket(c.capacity - 1, now), Allowed)
    else
      var r := Refilled(c, b.value, now);
      if r.tokens > 0 then (r.(tokens := r.tokens - 1), Allowed) else (r, Denied(RetryAfter(c, r, now)))
  }

  function Peeked(c: Config, b: Option<Bucket>, now: int): int
    requires Proper(c)
  {
    if b.None? then c.capacity else Min(c.capacity, b.value.tokens + Refills(c, b.value, now) * c.refillAmount)
  }

  // ---------------------------- the store ----------------------------

  datatype Event = Ask(client: string, now: int) | Peek(client: string, now: int) | Sweep(now: int)

  function Find(s: Buckets, client: string): Option<Bucket> {
    if client in s then Some(s[client]) else None
  }

  function Swept(s: Buckets, now: int): Buckets {
    map k | k in s && now - s[k].lastRefill <= STALE_MS :: s[k]
  }

  function Next(c: Config, s: Buckets, e: Event): Buckets
    requires Proper(c)
  {
    match e
    case Ask(client, now) => s[client := Asked(c, Find(s, client), now).0]
    case Peek(_, _) => s
    case Sweep(now) => Swept(s, now)
  }

  function Reply(c: Config, s: Buckets, e: Event): seq<Answer>
    requires Proper(c)
  {
    match e
    case Ask(client, now) => [Asked(c, Find(s, client), now).1]
    case Peek(client, now) => [Remaining(Peeked(c, Find(s, client), now))]
    case Sweep(_) => []
  }

  function Run(c: Config, events: seq<Event>): Buckets
    requires Proper(c)
  {
    if events == [] then map[] else Next(c, Run(c, events[..|events| - 1]), events[|events| - 1])
  }

  /** Everything the callers were told. */
  function Answers(c: Config, events: seq<Event>): seq<Answer>
    requires Proper(c)
  {
    if events == [] then []
    else Answers(c, events[..|events| - 1]) + Reply(c, Run(c, events[..|events| - 1]), events[|events| - 1])
  }

  /** How many requests of one client were let through. */
  function Admitted(c: Config, events: seq<Event>, client: string): nat
    requires Proper(c)
  {
    if events == [] then 0
    else
      var before, e := events[..|events| - 1], events[|events| - 1];
      Admitted(c, before, client)
      + (if e.Ask? && e.client == client && Reply(c, Run(c, before), e) == [Allowed] then 1 else 0)
  }

  predicate ClockForward(events: seq<Event>) {
    forall i, j :: 0 <= i < j < |events| ==> events[i].now <= events[j].now
  }

  // ---------------------------- the store as it runs ----------------------------

  class RateLimitStore {
    const config: Config
    var buckets: Buckets

    constructor (c: Config)
      ensures config == c && buckets == map[]
    {
      config, buckets := c, map[];
    }

    method IsAllowed(client: string, now: int) returns (r: Answer)
      requires Proper(config)
      modifies this`buckets
      ensures buckets == Next(config, old(buckets), Ask(client, now))
      ensures [r] == Reply(config, old(buckets), Ask(client, now))
    {
      if client !in buckets {
        buckets := buckets[client := Bucket(config.capacity - 1, now)];
        return Allowed;
      }
      var bucket := buckets[client];
      var elapsed := now - bucket.lastRefill;
      var refills := elapsed / config.refillIntervalMs;
      if refills > 0 {
        bucket := Bucket(Min(config.capacity, bucket.tokens + refills * config.refillAmount), now);
        buckets := buckets[client := bucket];
      }
      if bucket.tokens > 0 {
        buckets := buckets[client := bucket.(tokens := bucket.tokens - 1)];
        return Allowed;
      }
      assert buckets == old(buckets)[client := bucket];
      var untilNext := config.refillIntervalMs - (now - bucket.lastRefill);
      var seconds := CeilSeconds(untilNext);
      return Denied(if seconds < 1 then 1 else seconds);
    }

    method GetRemainingTokens(client: string, now: int) returns (r: int)
      requires Proper(config)
      ensures [Remaining(r)] == Reply(config, buckets, Peek(client, now))
    {
      if client !in buckets {
        return config.capacity;
      }
      var bucket := buckets[client];
      var refills := (now - bucket.lastRefill) / config.refillIntervalMs;
      return Min(config.capacity, bucket.tokens + refills * config.refillAmount);
    }

    method Cleanup(now: int)
      modifies this`buckets
      ensures buckets == Swept(old(buckets), now)
    {
      var left := buckets.Keys;
      while left != {}
        invariant left <= old(buckets).Keys
        invariant forall k :: k in buckets <==> k in old(buckets) && (k in left || now - old(buckets)[k].lastRefill <= STALE_MS)
        invariant forall k :: k in buckets ==> buckets[k] == old(buckets)[k]
        decreases |left|
      {
        var client :| client in left;
        if now - buckets[client].lastRefill > STALE_MS {
          buckets := buckets - {client};
        }
        left := left - {client};
      }
    }
  }

  // ---------------------------- the bound ----------------------------

  function Floor(a: int, n: nat): int
    requires n > 0
  {
    a / n
  }

  /** Whole intervals counted separately are never more than those counted together. */
  lemma FloorsAdd(a: int, b: int, n: nat)
    requires n > 0
    ensures Floor(a, n) + Floor(b, n) <= Floor(a + b, n)
  {
    var p, q := Floor(a, n), Floor(b, n);
    assert a == p * n + a % n && b == q * n + b % n;
    var rest := a % n + b % n;
    assert a + b == (p + q) * n + rest;
    FloorAtLeast(a + b, p + q, n);
  }

  lemma FloorAtLeast(a: int, k: int, n: nat)
    requires n > 0 && a >= k * n
    ensures Floor(a, n) >= k
  {
    var d := Floor(a, n);
    assert a == d * n + a % n;
    if d < k {
      Monotone(d, k - 1, n);
    }
  }

  lemma Monotone(a: int, b: int, n: nat)
    requires a <= b
    ensures a * n <= b * n
  {
  }

  /** The allowance of a client whose bucket was created at `t0`. */
  function Allowance(c: Config, t0: int, t: int): int
    requires Proper(c)
  {
    c.capacity + Floor(t - t0, c.refillIntervalMs) * c.refillAmount
  }

  /** What a refill adds is covered by the time that passed, although it forgets the fraction. */
  lemma RefillIsCovered(c: Config, b: Bucket, t0: int, now: int)
    requires Proper(c) && t0 <= b.lastRefill <= now
    ensures Refilled(c, b, now).tokens - b.tokens
         <= Allowance(c, t0, Refilled(c, b, now).lastRefill) - Allowance(c, t0, b.lastRefill)
  {
    var n := Refills(c, b, now);
    if n > 0 {
      FloorsAdd(now - b.lastRefill, b.lastRefill - t0, c.refillIntervalMs);
      var p, q := Floor(b.lastRefill - t0, c.refillIntervalMs), Floor(now - t0, c.refillIntervalMs);
      assert n == Floor(now - b.lastRefill, c.refillIntervalMs);
      Monotone(n, q - p, c.refillAmount);
      assert (q - p) * c.refillAmount == q * c.refillAmount - p * c.refillAmount;
    }
  }

  /** The client sends nothing before `t0`, and nothing happens after `t`. */
  predicate Between(events: seq<Event>, client: string, t0: int, t: int) {
    forall e :: e in events ==> e.now <= t && (e.Ask? && e.client == client ==> t0 <= e.now)
  }

  predicate NoSweeps(events: seq<Event>) {
    forall e :: e in events ==> !e.Sweep?
  }

  lemma AskStep(c: Config, s: Buckets, client: string, t0: int, e: Event, admitted: nat)
    requires Proper(c) && c.capacity > 0 && client in s && !e.Sweep?
    requires var b := s[client]; t0 <= b.lastRefill <= e.now && b.tokens >= 0 && admitted + b.tokens <= Allowance(c, t0, b.lastRefill)
    ensures client in Next(c, s, e)
    ensures var b := Next(c, s, e)[client];
      && t0 <= b.lastRefill <= e.now && b.tokens >= 0
      && admitted + (if e.Ask? && e.client == client && Reply(c, s, e) == [Allowed] then 1 else 0) + b.tokens <= Allowance(c, t0, b.lastRefill)
  {
    hide Allowance;
    if e.Ask? && e.client == client {
      RefillIsCovered(c, s[client], t0, e.now);
      RefillKeepsSign(c, s[client], e.now);
    }
  }

  lemma RefillKeepsSign(c: Config, b: Bucket, now: int)
    requires Proper(c) && b.tokens >= 0 && b.lastRefill <= now
    ensures Refilled(c, b, now).tokens >= 0 && b.lastRefill <= Refilled(c, b, now).lastRefill <= now
  {
    var n := Refills(c, b, now);
    if n > 0 {
      Monotone(0, n, c.refillAmount);
    }
  }

  lemma FirstAsk(c: Config, t0: int, now: int)
    requires Proper(c) && t0 <= now
    ensures c.capacity <= Allowance(c, t0, now)
  {
    FloorAtLeast(now - t0, 0, c.refillIntervalMs);
    Monotone(0, Floor(now - t0, c.refillIntervalMs), c.refillAmount);
  }

  /** Tokens left and requests admitted never exceed the allowance up to the last refill. */
  lemma {:induction false} TokensAreBacked(c: Config, events: seq<Event>, client: string, t0: int, t: int)
    requires Proper(c) && c.capacity > 0 && ClockForward(events) && Between(events, client, t0, t) && NoSweeps(events)
    ensures client !in Run(c, events) ==> Admitted(c, events, client) == 0
    ensures client in Run(c, events) ==>
      var b := Run(c, events)[client];
      && events != [] && t0 <= b.lastRefill <= events[|events| - 1].now && b.tokens >= 0
      && Admitted(c, events, client) + b.tokens <= Allowance(c, t0, b.lastRefill)
  {
    hide Allowance, Asked;
    if events != [] {
      var before, e := events[..|events| - 1], events[|events| - 1];
      assert events == before + [e];
      TokensAreBacked(c, before, client, t0, t);
      if client in Run(c, before) {
        AskStep(c, Run(c, before), client, t0, e, Admitted(c, before, client));
      } else if e.Ask? && e.client == client {
        FirstAsk(c, t0, e.now);
        CreatesABucket(c, e.now);
      }
    }
  }

  lemma CreatesABucket(c: Config, now: int)
    requires Proper(c)
    ensures Asked(c, None, now) == (Bucket(c.capacity - 1, now), Allowed)
  {
  }

  lemma AllowanceGrows(c: Config, t0: int, u: int, t: int)
    requires Proper(c) && t0 <= u <= t
    ensures Allowance(c, t0, u) <= Allowance(c, t0, t)
  {
    var p, q := Floor(u - t0, c.refillIntervalMs), Floor(t - t0, c.refillIntervalMs);
    FloorsAdd(u - t0, t - u, c.refillIntervalMs);
    FloorAtLeast(t - u, 0, c.refillIntervalMs);
    Monotone(p, q, c.refillAmount);
  }

  /** Between two clean-ups, for each client and any interleaving with others: at most the capacity and one
      refill per whole interval since its first request. */
  lemma AdmittedWithinAllowance(c: Config, events: seq<Event>, client: string, t0: int, t: int)
    requires Proper(c) && c.capacity > 0 && ClockForward(events) && Between(events, client, t0, t) && NoSweeps(events) && t0 <= t
    ensures Admitted(c, events, client) <= Allowance(c, t0, t)
  {
    hide Allowance, Run, Admitted;
    TokensAreBacked(c, events, client, t0, t);
    FirstAsk(c, t0, t);
    if client in Run(c, events) {
      var b := Run(c, events)[client];
      assert events[|events| - 1] in events;
      AllowanceGrows(c, t0, b.lastRefill, t);
    }
  }

  lemma NoTimeNoRefill(c: Config, t: int)
    requires Proper(c)
    ensures Allowance(c, t, t) == c.capacity
  {
  }

  /** A limiter configured with no capacity still lets the first request of every client through. */
  lemma NoCapacityStillAdmits(c: Config, client: string, t: int)
    requires Proper(c)
    ensures Admitted(c, [Ask(client, t)], client) <= Allowance(c, t, t) <==> c.capacity > 0
  {
    assert [Ask(client, t)][..0] == [];
    NoTimeNoRefill(c, t);
    assert Run(c, []) == map[];
    assert Admitted(c, [], client) == 0;
  }
}
