/** Clean-up of old buckets: when nobody can tell, and that a denied client can rely on its waiting time. */
module RateLimitEviction {
  import opened Types
  import opened RateLimit

  function WithoutSweeps(events: seq<Event>): seq<Event> {
    if events == [] then []
    else
      var e := events[|events| - 1];
      WithoutSweeps(events[..|events| - 1]) + (if e.Sweep? then [] else [e])
  }

  /** No run with clean-up anywhere gives an answer that it would not give without. */
  ghost predicate Unobservable(c: Config)
    requires Proper(c)
  {
    forall events :: ClockForward(events) ==> Answers(c, events) == Answers(c, WithoutSweeps(events))
  }

  /** In the shortest time after which a bucket is dropped, refills alone would have filled it. */
  predicate FullWhenDropped(c: Config)
    requires Proper(c)
  {
    c.capacity >= 1 && Floor(STALE_MS + 1, c.refillIntervalMs) * c.refillAmount >= c.capacity
  }

  // ---------------------------- it does not show ----------------------------

  /** A bucket that is old enough to be dropped answers as no bucket would. */
  lemma DroppedIsFull(c: Config, b: Bucket, now: int)
    requires Proper(c) && FullWhenDropped(c)
    requires b.tokens >= 0 && now - b.lastRefill > STALE_MS
    ensures Asked(c, Some(b), now) == Asked(c, None, now)
    ensures Peeked(c, Some(b), now) == Peeked(c, None, now)
  {
    var n, m := Floor(now - b.lastRefill, c.refillIntervalMs), Floor(STALE_MS + 1, c.refillIntervalMs);
    FloorsAdd(STALE_MS + 1, now - b.lastRefill - STALE_MS - 1, c.refillIntervalMs);
    FloorAtLeast(now - b.lastRefill - STALE_MS - 1, 0, c.refillIntervalMs);
    assert n >= m;
    Monotone(m, n, c.refillAmount);
    assert n * c.refillAmount >= c.capacity;
  }

  /** The store with clean-up (`a`) against the one without (`b`): it lacks only buckets due for removal. */
  ghost predicate Sim(c: Config, a: Buckets, b: Buckets, now: int)
    requires Proper(c)
  {
    forall k: string {:trigger Find(b, k)} ::
      && (Find(b, k).Some? ==> 0 <= Find(b, k).value.tokens)
      && (Find(a, k) == Find(b, k) || (Find(a, k).None? && now - Find(b, k).value.lastRefill > STALE_MS))
  }

  lemma SameAnswer(c: Config, a: Buckets, b: Buckets, e: Event)
    requires Proper(c) && FullWhenDropped(c) && Sim(c, a, b, e.now)
    ensures Reply(c, a, e) == Reply(c, b, e)
    ensures e.Ask? ==> Asked(c, Find(a, e.client), e.now) == Asked(c, Find(b, e.client), e.now)
  {
    hide Asked, Peeked, FullWhenDropped;
    if !e.Sweep? {
      var k := e.client;
      assert Find(b, k).Some? ==> 0 <= Find(b, k).value.tokens;
      if Find(a, k) != Find(b, k) {
        DroppedIsFull(c, Find(b, k).value, e.now);
      }
    }
  }

  lemma AskedKeepsSign(c: Config, b: Option<Bucket>, now: int)
    requires Proper(c) && c.capacity > 0 && (b.Some? ==> b.value.tokens >= 0)
    ensures Asked(c, b, now).0.tokens >= 0
  {
    if b.Some? && Refills(c, b.value, now) > 0 {
      Monotone(0, Refills(c, b.value, now), c.refillAmount);
    }
  }

  lemma SimStep(c: Config, a: Buckets, b: Buckets, e: Event)
    requires Proper(c) && FullWhenDropped(c) && Sim(c, a, b, e.now)
    ensures Sim(c, Next(c, a, e), if e.Sweep? then b else Next(c, b, e), e.now)
  {
    hide Asked, FullWhenDropped;
    var a', b' := Next(c, a, e), if e.Sweep? then b else Next(c, b, e);
    SameAnswer(c, a, b, e);
    forall k: string {:trigger Find(b', k)}
      ensures Find(b', k).Some? ==> 0 <= Find(b', k).value.tokens
      ensures Find(a', k) == Find(b', k) || (Find(a', k).None? && e.now - Find(b', k).value.lastRefill > STALE_MS)
    {
      assert Find(b, k).Some? ==> 0 <= Find(b, k).value.tokens;
      if e.Ask? && e.client == k {
        assert c.capacity > 0 by {
          CapacityOfFull(c);
        }
        AskedKeepsSign(c, Find(b, k), e.now);
      }
    }
  }

  lemma CapacityOfFull(c: Config)
    requires Proper(c) && FullWhenDropped(c)
    ensures c.capacity > 0
  {
  }

  lemma LaterSim(c: Config, a: Buckets, b: Buckets, t: int, now: int)
    requires Proper(c) && Sim(c, a, b, t) && t <= now
    ensures Sim(c, a, b, now)
  {
  }

  lemma Last(events: seq<Event>, e: Event)
    ensures (events + [e])[..|events|] == events && (events + [e])[|events|] == e
  {
  }

  lemma AnswersGrow(c: Config, events: seq<Event>, e: Event)
    requires Proper(c)
    ensures Answers(c, events + [e]) == Answers(c, events) + Reply(c, Run(c, events), e)
    ensures Run(c, events + [e]) == Next(c, Run(c, events), e)
  {
    Last(events, e);
  }

  lemma {:induction false} SweepsDoNotShow(c: Config, events: seq<Event>)
    requires Proper(c) && FullWhenDropped(c) && ClockForward(events)
    ensures Answers(c, events) == Answers(c, WithoutSweeps(events))
    ensures events != [] ==> Sim(c, Run(c, events), Run(c, WithoutSweeps(events)), events[|events| - 1].now)
  {
    hide FullWhenDropped, Sim, Next, Reply;
    if events != [] {
      var before, e := events[..|events| - 1], events[|events| - 1];
      SweepsDoNotShow(c, before);
      if before == [] {
        EmptySim(c, e.now);
      } else {
        LaterSim(c, Run(c, before), Run(c, WithoutSweeps(before)), before[|before| - 1].now, e.now);
      }
      SameAnswer(c, Run(c, before), Run(c, WithoutSweeps(before)), e);
      SimStep(c, Run(c, before), Run(c, WithoutSweeps(before)), e);
      if e.Sweep? {
        SweepIsSilent(c, Run(c, before), e);
        assert WithoutSweeps(before) + [] == WithoutSweeps(before);
      } else {
        AnswersGrow(c, WithoutSweeps(before), e);
      }
    }
  }

  lemma EmptySim(c: Config, now: int)
    requires Proper(c)
    ensures Sim(c, Run(c, []), Run(c, []), now)
  {
  }

  lemma SweepIsSilent(c: Config, s: Buckets, e: Event)
    requires Proper(c) && e.Sweep?
    ensures Reply(c, s, e) == []
  {
  }

  lemma {:induction false} SweepsDoNotAdmit(c: Config, events: seq<Event>, client: string)
    requires Proper(c) && FullWhenDropped(c) && ClockForward(events)
    ensures Admitted(c, events, client) == Admitted(c, WithoutSweeps(events), client)
  {
    hide FullWhenDropped, Sim, Run, Reply;
    if events != [] {
      var before, e := events[..|events| - 1], events[|events| - 1];
      SweepsDoNotAdmit(c, before, client);
      if e.Sweep? {
        assert WithoutSweeps(before) + [] == WithoutSweeps(before);
      } else {
        Last(WithoutSweeps(before), e);
        SweepsDoNotShow(c, before);
        if before == [] {
          EmptySim(c, e.now);
        } else {
          LaterSim(c, Run(c, before), Run(c, WithoutSweeps(before)), before[|before| - 1].now, e.now);
        }
        SameAnswer(c, Run(c, before), Run(c, WithoutSweeps(before)), e);
      }
    }
  }

  lemma {:induction false} SweepsOnlyDrop(events: seq<Event>)
    ensures forall e :: e in WithoutSweeps(events) ==> e in events && !e.Sweep?
    ensures ClockForward(events) ==> ClockForward(WithoutSweeps(events))
  {
    if events != [] {
      var before, e := events[..|events| - 1], events[|events| - 1];
      var w := WithoutSweeps(before);
      SweepsOnlyDrop(before);
      if ClockForward(events) {
        forall i | 0 <= i < |w| ensures w[i].now <= e.now {
          assert w[i] in before;
        }
      }
    }
  }

  /** The bound with the clean-up timer running, for a limiter whose refills keep pace with it. */
  lemma AdmittedDespiteSweeps(c: Config, events: seq<Event>, client: string, t0: int, t: int)
    requires Proper(c) && FullWhenDropped(c) && ClockForward(events) && t0 <= t && Between(events, client, t0, t)
    ensures Admitted(c, events, client) <= Allowance(c, t0, t)
  {
    SweepsDoNotAdmit(c, events, client);
    SweepsOnlyDrop(events);
    CapacityOfFull(c);
    AdmittedWithinAllowance(c, WithoutSweeps(events), client, t0, t);
  }

  /** Every client in every run, with clean-up at any time, stays within its allowance. */
  ghost predicate BoundHolds(c: Config)
    requires Proper(c)
  {
    forall events, client, t0: int, t: int ::
      ClockForward(events) && t0 <= t && Between(events, client, t0, t) ==> Admitted(c, events, client) <= Allowance(c, t0, t)
  }

  // ---------------------------- when it does show ----------------------------

  function Asks(client: string, t: int, n: nat): seq<Event> {
    if n == 0 then [] else Asks(client, t, n - 1) + [Ask(client, t)]
  }

  lemma {:induction false} AsksAre(client: string, t: int, n: nat)
    ensures |Asks(client, t, n)| == n && forall i :: 0 <= i < n ==> Asks(client, t, n)[i] == Ask(client, t)
  {
    if n > 0 {
      AsksAre(client, t, n - 1);
    }
  }

  /** Asking again and again at one moment takes the tokens one by one. */
  lemma {:induction false} AsksDrain(c: Config, events: seq<Event>, client: string, t: int, n: nat)
    requires Proper(c) && client in Run(c, events)
    ensures var s, b := Run(c, events + Asks(client, t, n)), Refilled(c, Run(c, events)[client], t);
      client in s && Refilled(c, s[client], t).tokens == if b.tokens >= n then b.tokens - n else Min(b.tokens, 0)
  {
    hide Run, Refilled, Asked, Next, Reply;
    if n == 0 {
      assert events + [] == events;
      RefilledTwice(c, Run(c, events)[client], t);
    } else {
      AsksDrain(c, events, client, t, n - 1);
      var so := events + Asks(client, t, n - 1);
      assert events + Asks(client, t, n) == so + [Ask(client, t)];
      AnswersGrow(c, so, Ask(client, t));
      AskNext(c, Run(c, so), client, t);
      OneMoreAsk(c, Run(c, so)[client], t);
    }
  }

  lemma AskNext(c: Config, s: Buckets, client: string, t: int)
    requires Proper(c)
    ensures client in Next(c, s, Ask(client, t))
    ensures Next(c, s, Ask(client, t))[client] == Asked(c, Find(s, client), t).0
    ensures Reply(c, s, Ask(client, t)) == [Asked(c, Find(s, client), t).1]
    ensures client in s ==> Find(s, client) == Some(s[client])
    ensures client !in s ==> Asked(c, Find(s, client), t) == (Bucket(c.capacity - 1, t), Allowed)
  {
  }

  lemma JustRefilled(c: Config, tokens: int, t: int)
    requires Proper(c)
    ensures Refilled(c, Bucket(tokens, t), t) == Bucket(tokens, t)
  {
  }

  lemma RefilledTwice(c: Config, b: Bucket, t: int)
    requires Proper(c)
    ensures Refilled(c, Refilled(c, b, t), t) == Refilled(c, b, t)
  {
  }

  lemma OneMoreAsk(c: Config, b: Bucket, t: int)
    requires Proper(c)
    ensures var r := Refilled(c, b, t).tokens;
      && Refilled(c, Asked(c, Some(b), t).0, t).tokens == (if r > 0 then r - 1 else r)
      && (Asked(c, Some(b), t).1 == Allowed <==> r > 0)
  {
  }

  /** Fill the quota at once, wait just over half an hour, and fill it again: with clean-up the last request
      passes, without it is denied. */
  function Telling(c: Config, client: string): seq<Event> {
    var n := if c.capacity == 0 then 1 else c.capacity;
    Asks(client, 0, n) + [Sweep(STALE_MS + 1)] + Asks(client, STALE_MS + 1, n)
  }

  lemma AskStays(events: seq<Event>, client: string, t: int)
    ensures WithoutSweeps(events + [Ask(client, t)]) == WithoutSweeps(events) + [Ask(client, t)]
  {
    Last(events, Ask(client, t));
  }

  lemma {:induction false} SweepsOfAsks(events: seq<Event>, client: string, t: int, n: nat)
    ensures WithoutSweeps(events + Asks(client, t, n)) == WithoutSweeps(events) + Asks(client, t, n)
  {
    hide WithoutSweeps;
    if n == 0 {
      assert events + [] == events && WithoutSweeps(events) + [] == WithoutSweeps(events);
    } else {
      SweepsOfAsks(events, client, t, n - 1);
      var so := events + Asks(client, t, n - 1);
      assert events + Asks(client, t, n) == so + [Ask(client, t)];
      AskStays(so, client, t);
    }
  }

  lemma TellingIsForward(c: Config, client: string)
    ensures ClockForward(Telling(c, client))
  {
    var n := if c.capacity == 0 then 1 else c.capacity;
    AsksAre(client, 0, n);
    AsksAre(client, STALE_MS + 1, n);
    var e := Telling(c, client);
    assert forall i :: 0 <= i < |e| ==> e[i].now == if i < n then 0 else STALE_MS + 1;
  }

  /** After the quota is used up at time 0. */
  lemma Spent(c: Config, client: string, n: nat)
    requires Proper(c) && n == if c.capacity == 0 then 1 else c.capacity
    ensures Run(c, Asks(client, 0, n)) == map[client := Bucket(if c.capacity == 0 then -1 else 0, 0)]
  {
    SpendsDown(c, client, n);
  }

  lemma {:induction false} SpendsDown(c: Config, client: string, n: nat)
    requires Proper(c) && 0 < n && (c.capacity == 0 ==> n == 1) && (c.capacity > 0 ==> n <= c.capacity)
    ensures Run(c, Asks(client, 0, n)) == map[client := Bucket(c.capacity - n, 0)]
  {
    hide Run;
    AnswersGrow(c, Asks(client, 0, n - 1), Ask(client, 0));
    if n > 1 {
      SpendsDown(c, client, n - 1);
      SpendsOne(c, client, c.capacity - (n - 1));
    } else {
      NothingRun(c);
    }
  }

  lemma NothingRun(c: Config)
    requires Proper(c)
    ensures Run(c, []) == map[]
  {
  }

  lemma SpendsOne(c: Config, client: string, tokens: int)
    requires Proper(c) && tokens > 0
    ensures Next(c, map[client := Bucket(tokens, 0)], Ask(client, 0)) == map[client := Bucket(tokens - 1, 0)]
  {
    assert Refills(c, Bucket(tokens, 0), 0) == 0;
  }

  lemma ShowsOtherwise(c: Config, client: string)
    requires Proper(c) && !FullWhenDropped(c)
    ensures var e := Telling(c, client); Answers(c, e) != Answers(c, WithoutSweeps(e))
  {
    hide Run, Answers, FullWhenDropped;
    var n := if c.capacity == 0 then 1 else c.capacity;
    var t := STALE_MS + 1;
    var first, last := Asks(client, 0, n), Ask(client, t);
    var with, without := first + [Sweep(t)], first;
    Spent(c, client, n);
    AnswersGrow(c, first, Sweep(t));
    // the events of the two runs, up to the last request
    var e, w := with + Asks(client, t, n - 1), without + Asks(client, t, n - 1);
    assert Telling(c, client) == e + [last];
    TellingWithout(c, client, n, t);
    AllowedAgain(c, with, client, t, n, n);
    LastDenied(c, without, client, t, n);
    AnswersGrow(c, e, last);
    AnswersGrow(c, w, last);
    var x, y := Answers(c, e + [last]), Answers(c, w + [last]);
    assert x[|x| - 1] == Reply(c, Run(c, e), last)[0];
    assert y[|y| - 1] == Reply(c, Run(c, w), last)[0];
  }

  lemma TellingWithout(c: Config, client: string, n: nat, t: int)
    requires n == (if c.capacity == 0 then 1 else c.capacity) && t == STALE_MS + 1
    ensures WithoutSweeps(Telling(c, client)) == Asks(client, 0, n) + Asks(client, t, n - 1) + [Ask(client, t)]
  {
    hide WithoutSweeps;
    var first := Asks(client, 0, n);
    SweepsOfAsks(first + [Sweep(t)], client, t, n);
    SweepsOfAsks([], client, 0, n);
    assert [] + first == first;
    SweepVanishes(first, t);
    assert first + Asks(client, t, n) == first + Asks(client, t, n - 1) + [Ask(client, t)];
  }

  lemma SweepVanishes(events: seq<Event>, t: int)
    ensures WithoutSweeps(events + [Sweep(t)]) == WithoutSweeps(events) && WithoutSweeps([]) == []
  {
    Last(events, Sweep(t));
  }

  /** After the sweep every request of a full quota passes. */
  lemma AllowedAgain(c: Config, with: seq<Event>, client: string, t: int, n: nat, m: nat)
    requires Proper(c) && n == (if c.capacity == 0 then 1 else c.capacity) && t == STALE_MS + 1 && 1 <= m <= n
    requires Run(c, with) == Swept(map[client := Bucket(if c.capacity == 0 then -1 else 0, 0)], t)
    ensures Reply(c, Run(c, with + Asks(client, t, m - 1)), Ask(client, t)) == [Allowed]
  {
    hide Run, Refilled, Asked, Next, Reply;
    assert client !in Run(c, with);
    AskNext(c, Run(c, with), client, t);
    if m == 1 {
      assert with + [] == with;
    } else {
      var one := with + [Ask(client, t)];
      AnswersGrow(c, with, Ask(client, t));
      JustRefilled(c, c.capacity - 1, t);
      AsksFront(client, t, m - 1);
      assert with + Asks(client, t, m - 1) == one + Asks(client, t, m - 2);
      AsksDrain(c, one, client, t, m - 2);
      var s := Run(c, one + Asks(client, t, m - 2));
      OneMoreAsk(c, s[client], t);
      AskNext(c, s, client, t);
    }
  }

  lemma {:induction false} AsksFront(client: string, t: int, n: nat)
    requires n > 0
    ensures Asks(client, t, n) == [Ask(client, t)] + Asks(client, t, n - 1)
  {
    if n > 1 {
      AsksFront(client, t, n - 1);
    }
  }

  lemma LastDenied(c: Config, without: seq<Event>, client: string, t: int, n: nat)
    requires Proper(c) && !FullWhenDropped(c) && n == (if c.capacity == 0 then 1 else c.capacity) && t == STALE_MS + 1
    requires Run(c, without) == map[client := Bucket(if c.capacity == 0 then -1 else 0, 0)]
    ensures Reply(c, Run(c, without + Asks(client, t, n - 1)), Ask(client, t)) != [Allowed]
  {
    hide Run;
    AsksDrain(c, without, client, t, n - 1);
    OneMoreAsk(c, Run(c, without + Asks(client, t, n - 1))[client], t);
    var b := Run(c, without)[client];
    assert Refills(c, b, t) == Floor(STALE_MS + 1, c.refillIntervalMs);
  }

  /** Eviction is unobservable exactly when the refills of the shortest eviction time fill the bucket. */
  lemma EvictionIsUnobservableIff(c: Config)
    requires Proper(c)
    ensures Unobservable(c) <==> FullWhenDropped(c)
  {
    if FullWhenDropped(c) {
      forall events | ClockForward(events) ensures Answers(c, events) == Answers(c, WithoutSweeps(events)) {
        SweepsDoNotShow(c, events);
      }
    } else {
      TellingIsForward(c, "client");
      ShowsOtherwise(c, "client");
    }
  }

  // ---------------------------- the bound fails with it ----------------------------

  lemma AdmittedGrows(c: Config, events: seq<Event>, e: Event, client: string)
    requires Proper(c)
    ensures Admitted(c, events + [e], client)
         == Admitted(c, events, client) + (if e.Ask? && e.client == client && Reply(c, Run(c, events), e) == [Allowed] then 1 else 0)
  {
    Last(events, e);
  }

  lemma {:induction false} AllAdmitted(c: Config, events: seq<Event>, client: string, t: int, n: nat)
    requires Proper(c)
    requires forall i: nat {:trigger Asks(client, t, i)} :: i < n ==> Reply(c, Run(c, events + Asks(client, t, i)), Ask(client, t)) == [Allowed]
    ensures Admitted(c, events + Asks(client, t, n), client) == Admitted(c, events, client) + n
  {
    hide Admitted, Run, Reply;
    if n == 0 {
      assert events + [] == events;
    } else {
      var so := events + Asks(client, t, n - 1);
      AllAdmitted(c, events, client, t, n - 1);
      assert events + Asks(client, t, n) == so + [Ask(client, t)];
      AdmittedGrows(c, so, Ask(client, t), client);
    }
  }

  lemma FirstQuota(c: Config, client: string, i: nat)
    requires Proper(c) && i < (if c.capacity == 0 then 1 else c.capacity)
    ensures Reply(c, Run(c, Asks(client, 0, i)), Ask(client, 0)) == [Allowed]
  {
    hide Run;
    if i == 0 {
      NothingRun(c);
    } else {
      SpendsDown(c, client, i);
      assert Refills(c, Bucket(c.capacity - i, 0), 0) == 0;
    }
  }

  lemma NothingAdmitted(c: Config, client: string)
    requires Proper(c)
    ensures Admitted(c, [], client) == 0
  {
  }

  /** Both quotas of the telling run are let through in full. */
  lemma TellingAdmitsTwice(c: Config, client: string)
    requires Proper(c) && c.capacity > 0
    ensures Admitted(c, Telling(c, client), client) == 2 * c.capacity
  {
    hide Admitted, Run, Reply;
    var n, t := c.capacity, STALE_MS + 1;
    var first := Asks(client, 0, n);
    var with := first + [Sweep(t)];
    forall i: nat {:trigger Asks(client, 0, i)} | i < n
      ensures Reply(c, Run(c, [] + Asks(client, 0, i)), Ask(client, 0)) == [Allowed]
    {
      assert [] + Asks(client, 0, i) == Asks(client, 0, i);
      FirstQuota(c, client, i);
    }
    AllAdmitted(c, [], client, 0, n);
    assert [] + first == first;
    NothingAdmitted(c, client);
    AdmittedGrows(c, first, Sweep(t), client);
    Spent(c, client, n);
    SweepRun(c, first, t);
    forall i: nat {:trigger Asks(client, t, i)} | i < n
      ensures Reply(c, Run(c, with + Asks(client, t, i)), Ask(client, t)) == [Allowed]
    {
      AllowedAgain(c, with, client, t, n, i + 1);
    }
    AllAdmitted(c, with, client, t, n);
  }

  lemma SweepRun(c: Config, events: seq<Event>, t: int)
    requires Proper(c)
    ensures Run(c, events + [Sweep(t)]) == Swept(Run(c, events), t)
  {
    AnswersGrow(c, events, Sweep(t));
  }

  lemma TellingIsBetween(c: Config, client: string)
    ensures Between(Telling(c, client), client, 0, STALE_MS + 1)
  {
    var n := if c.capacity == 0 then 1 else c.capacity;
    AsksAre(client, 0, n);
    AsksAre(client, STALE_MS + 1, n);
  }

  /** Without the condition a concrete client exceeds its allowance. */
  lemma BoundFailsOtherwise(c: Config, client: string)
    requires Proper(c) && !FullWhenDropped(c)
    ensures !BoundHolds(c)
  {
    if c.capacity == 0 {
      NoCapacityStillAdmits(c, client, 0);
      assert Between([Ask(client, 0)], client, 0, 0);
      assert !(Admitted(c, [Ask(client, 0)], client) <= Allowance(c, 0, 0));
    } else {
      TellingIsForward(c, client);
      TellingIsBetween(c, client);
      TellingAdmitsTwice(c, client);
      assert Allowance(c, 0, STALE_MS + 1) < 2 * c.capacity;
      assert !(Admitted(c, Telling(c, client), client) <= Allowance(c, 0, STALE_MS + 1));
    }
  }

  /** The admission bound holds in every run with the clean-up timer exactly when the refills of the shortest
      eviction time fill the bucket. */
  lemma BoundHoldsIff(c: Config)
    requires Proper(c)
    ensures BoundHolds(c) <==> FullWhenDropped(c)
  {
    if FullWhenDropped(c) {
      forall events, client, t0: int, t: int | ClockForward(events) && t0 <= t && Between(events, client, t0, t)
        ensures Admitted(c, events, client) <= Allowance(c, t0, t)
      {
        AdmittedDespiteSweeps(c, events, client, t0, t);
      }
    } else {
      BoundFailsOtherwise(c, "client");
    }
  }

  // ---------------------------- waiting as told ----------------------------

  /** The client sends nothing and time does not run backwards. */
  predicate Silent(events: seq<Event>, client: string, from: int) {
    forall i :: 0 <= i < |events| ==> from <= events[i].now && !(events[i].Ask? && events[i].client == client)
  }

  lemma {:induction false} SilenceKeepsTheBucket(c: Config, before: seq<Event>, pause: seq<Event>, client: string, from: int)
    requires Proper(c) && client in Run(c, before) && Silent(pause, client, from)
    ensures Find(Run(c, before + pause), client) in {None, Some(Run(c, before)[client])}
  {
    hide Asked;
    if pause == [] {
      assert before + [] == before;
    } else {
      var n := |pause| - 1;
      SilenceKeepsTheBucket(c, before, pause[..n], client, from);
      assert before + pause == before + pause[..n] + [pause[n]];
      AnswersGrow(c, before + pause[..n], pause[n]);
    }
  }

  /** A denied client that stays silent for the time it was told is then admitted, whatever other clients
      and clean-ups do meanwhile (section 10.2.3 of RFC 9110). */
  lemma WaitingIsEnough(c: Config, before: seq<Event>, client: string, now: int, pause: seq<Event>, later: int)
    requires Proper(c) && c.capacity > 0 && c.refillAmount > 0
    requires ClockForward(before) && (before != [] ==> before[|before| - 1].now <= now)
    requires Reply(c, Run(c, before), Ask(client, now))[0].Denied?
    requires Silent(pause, client, now)
    requires later >= now + 1000 * Reply(c, Run(c, before), Ask(client, now))[0].retryAfterSeconds
    ensures Reply(c, Run(c, before + [Ask(client, now)] + pause), Ask(client, later)) == [Allowed]
  {
    hide Run;
    var s := Run(c, before);
    var told := before + [Ask(client, now)];
    AnswersGrow(c, before, Ask(client, now));
    SilenceKeepsTheBucket(c, told, pause, client, now);
    DeniedIsEmpty(c, before, client, now);
    var b := Run(c, told)[client];
    EnoughForARefill(c, b, now, later);
  }

  lemma {:induction false} TokensNotNegative(c: Config, events: seq<Event>, client: string)
    requires Proper(c) && c.capacity > 0
    ensures Find(Run(c, events), client).Some? ==> Find(Run(c, events), client).value.tokens >= 0
  {
    hide Asked;
    if events != [] {
      var before, e := events[..|events| - 1], events[|events| - 1];
      TokensNotNegative(c, before, client);
      AskedKeepsSign(c, Find(Run(c, before), client), e.now);
    }
  }

  lemma DeniedIsEmpty(c: Config, before: seq<Event>, client: string, now: int)
    requires Proper(c) && c.capacity > 0 && Reply(c, Run(c, before), Ask(client, now))[0].Denied?
    ensures var b := Next(c, Run(c, before), Ask(client, now))[client];
      b.tokens == 0 && Reply(c, Run(c, before), Ask(client, now))[0].retryAfterSeconds == RetryAfter(c, b, now)
  {
    TokensNotNegative(c, before, client);
    AskedKeepsSign(c, Find(Run(c, before), client), now);
  }

  lemma EnoughForARefill(c: Config, b: Bucket, now: int, later: int)
    requires Proper(c) && c.capacity > 0 && c.refillAmount > 0 && b.tokens == 0
    requires later >= now + 1000 * RetryAfter(c, b, now)
    ensures Asked(c, Some(b), later).1 == Allowed
  {
    assert later - b.lastRefill >= 1 * c.refillIntervalMs;
    FloorAtLeast(later - b.lastRefill, 1, c.refillIntervalMs);
    var n := Refills(c, b, later);
    assert n == Floor(later - b.lastRefill, c.refillIntervalMs);
    Monotone(1, n, c.refillAmount);
  }

  /** The waiting time is exact: the told number of seconds is at least one and is the first whole number after
      which the next refill is due; asked before that refill, the client is denied again. */
  lemma WaitingIsNeeded(c: Config, before: seq<Event>, client: string, now: int, later: int)
    requires Proper(c) && c.capacity > 0
    requires Reply(c, Run(c, before), Ask(client, now))[0].Denied?
    ensures var told, due := Reply(c, Run(c, before), Ask(client, now))[0].retryAfterSeconds,
                             Next(c, Run(c, before), Ask(client, now))[client].lastRefill + c.refillIntervalMs;
      && told >= 1 && now + 1000 * told >= due
      && (told > 1 ==> now + 1000 * (told - 1) < due)
      && (now <= later < due ==> Reply(c, Run(c, before + [Ask(client, now)]), Ask(client, later))[0].Denied?)
  {
    hide Run;
    AnswersGrow(c, before, Ask(client, now));
    DeniedIsEmpty(c, before, client, now);
    var b := Next(c, Run(c, before), Ask(client, now))[client];
    if later < b.lastRefill + c.refillIntervalMs {
      NoRefillYet(c, b, later);
    }
  }

  lemma NoRefillYet(c: Config, b: Bucket, later: int)
    requires Proper(c) && b.tokens == 0 && later < b.lastRefill + c.refillIntervalMs
    ensures Asked(c, Some(b), later).1.Denied?
  {
    BelowOneInterval(later - b.lastRefill, c.refillIntervalMs);
  }

  lemma BelowOneInterval(d: int, n: nat)
    requires n > 0 && d < n
    ensures d / n <= 0
  {
    var q := d / n;
    if q >= 1 {
      Monotone(1, q, n);
    }
  }

  /** Clean-up drops exactly the buckets without a refill for more than thirty minutes, and changes no other. */
  lemma SweepDropsStale(s: Buckets, now: int, client: string)
    ensures Find(Swept(s, now), client)
         == if client in s && now - s[client].lastRefill <= 30 * 60 * 1000 then Some(s[client]) else None
  {
  }
}
