/** The circuit breaker around RPC calls: a timed state machine, restartable from any snapshot it has persisted. */
module Breaker {
  import opened Types

  datatype Phase = CLOSED | OPEN | HALF_OPEN

  /** Times are in milliseconds. */
  datatype Config = Config(failureThreshold: int, cooldownMs: real, backoffMultiplier: real, maxCooldownMs: real, successThreshold: int)

  datatype State = State(
    phase: Phase, failureCount: int, successCount: int,
    lastFailureTime: Option<real>, openedAt: Option<real>, attemptCount: nat)

  const FRESH: State := State(CLOSED, 0, 0, None, None, 0)

  function Pow(x: real, k: nat): real {
    if k == 0 then 1.0 else x * Pow(x, k - 1)
  }

  /** `calculateCooldown` */
  function Cooldown(c: Config, attempts: nat): real {
    var exponential := c.cooldownMs * Pow(c.backoffMultiplier, attempts);
    if exponential <= c.maxCooldownMs then exponential else c.maxCooldownMs
  }

  // ---------------------------- the calls on a state ----------------------------

  /** Whether `allowRequest` lets a request through. */
  predicate Allows(c: Config, s: State, now: real) {
    s.phase != OPEN || (s.openedAt.Some? && now - s.openedAt.value >= Cooldown(c, s.attemptCount))
  }

  function OnAllow(c: Config, s: State, now: real): State {
    if s.phase == OPEN && Allows(c, s, now) then s.(phase := HALF_OPEN, successCount := 0, failureCount := 0) else s
  }

  function OnSuccess(c: Config, s: State): State {
    match s.phase
    case HALF_OPEN =>
      if s.successCount + 1 >= c.successThreshold then s.(phase := CLOSED, failureCount := 0, successCount := 0, attemptCount := 0)
      else s.(successCount := s.successCount + 1)
    case CLOSED => s.(failureCount := 0)
    case OPEN => s
  }

  function OnFailure(c: Config, s: State, now: real): State {
    var t := s.(lastFailureTime := Some(now));
    match s.phase
    case HALF_OPEN => t.(phase := OPEN, successCount := 0, attemptCount := s.attemptCount + 1, openedAt := Some(now))
    case CLOSED =>
      if s.failureCount + 1 >= c.failureThreshold
      then t.(phase := OPEN, failureCount := s.failureCount + 1, openedAt := Some(now), attemptCount := 0)
      else t.(failureCount := s.failureCount + 1)
    case OPEN => t
  }

  function OnRestore(c: Config, persisted: State, now: real): State {
    var since := if persisted.openedAt.Some? then persisted.openedAt else persisted.lastFailureTime;
    if persisted.phase != CLOSED && (since.None? || now - since.value >= Cooldown(c, persisted.attemptCount))
    then FRESH else persisted
  }

  // ---------------------------- runs ----------------------------

  /** `Restart(i, now)`: the process dies and restores what was persisted after the first `i` events; a lagging
      store may hold any earlier snapshot. */
  datatype Event = Allow(now: real) | Success(now: real) | Failure(now: real) | Reset(now: real) | Restart(upTo: nat, now: real)

  function Next(c: Config, s: State, e: Event): State
    requires !e.Restart?
  {
    match e
    case Allow(now) => OnAllow(c, s, now)
    case Success(_) => OnSuccess(c, s)
    case Failure(now) => OnFailure(c, s, now)
    case Reset(_) => FRESH
  }

  function Persisted(events: seq<Event>): seq<Event>
    requires events != [] && events[|events| - 1].Restart?
    ensures |Persisted(events)| < |events|
  {
    var before := events[..|events| - 1];
    var i := events[|events| - 1].upTo;
    if i <= |before| then before[..i] else before
  }

  function Run(c: Config, events: seq<Event>): State
    decreases |events|
  {
    if events == [] then FRESH
    else
      var e := events[|events| - 1];
      if e.Restart? then OnRestore(c, Run(c, Persisted(events)), e.now)
      else Next(c, Run(c, events[..|events| - 1]), e)
  }

  predicate ClockForward(events: seq<Event>) {
    forall i, j :: 0 <= i < j < |events| ==> events[i].now <= events[j].now
  }

  // ---------------------------- the breaker object ----------------------------

  class CircuitBreaker {
    const config: Config
    var phase: Phase
    var failureCount: int
    var successCount: int
    var lastFailureTime: Option<real>
    var openedAt: Option<real>
    var attemptCount: nat

    ghost function Snapshot(): State
      reads this
    {
      State(phase, failureCount, successCount, lastFailureTime, openedAt, attemptCount)
    }

    constructor (c: Config)
      ensures config == c && Snapshot() == FRESH
    {
      config := c;
      phase, failureCount, successCount, lastFailureTime, openedAt, attemptCount := CLOSED, 0, 0, None, None, 0;
    }

    method GetSnapshot() returns (s: State)
      ensures s == Snapshot()
    {
      return State(phase, failureCount, successCount, lastFailureTime, openedAt, attemptCount);
    }

    method CalculateCooldown() returns (r: real)
      ensures r == Cooldown(config, attemptCount)
    {
      var factor, k := 1.0, 0;
      while k < attemptCount
        invariant 0 <= k <= attemptCount && factor == Pow(config.backoffMultiplier, k)
      {
        factor := config.backoffMultiplier * factor;
        k := k + 1;
      }
      var exponential := config.cooldownMs * factor;
      return if exponential <= config.maxCooldownMs then exponential else config.maxCooldownMs;
    }

    method AllowRequest(now: real) returns (allowed: bool)
      modifies this
      ensures Snapshot() == OnAllow(config, old(Snapshot()), now)
      ensures allowed == Allows(config, old(Snapshot()), now)
    {
      if phase == CLOSED {
        return true;
      }
      if phase == HALF_OPEN {
        return true;
      }
      if openedAt.Some? {
        var cooldown := CalculateCooldown();
        var elapsed := now - openedAt.value;
        if elapsed >= cooldown {
          phase := HALF_OPEN;
          successCount := 0;
          failureCount := 0;
          return true;
        }
      }
      return false;
    }

    method RecordSuccess()
      modifies this
      ensures Snapshot() == OnSuccess(config, old(Snapshot()))
    {
      if phase == HALF_OPEN {
        successCount := successCount + 1;
        if successCount >= config.successThreshold {
          phase := CLOSED;
          failureCount := 0;
          successCount := 0;
          attemptCount := 0;
        }
      } else if phase == CLOSED {
        failureCount := 0;
      }
    }

    method RecordFailure(now: real) returns (tripped: bool)
      modifies this
      ensures Snapshot() == OnFailure(config, old(Snapshot()), now)
      ensures tripped <==> old(phase) != OPEN && phase == OPEN
    {
      lastFailureTime := Some(now);
      if phase == HALF_OPEN {
        phase := OPEN;
        successCount := 0;
        attemptCount := attemptCount + 1;
        openedAt := Some(now);
        return true;
      }
      if phase == CLOSED {
        failureCount := failureCount + 1;
        if failureCount >= config.failureThreshold {
          phase := OPEN;
          openedAt := Some(now);
          attemptCount := 0;
          return true;
        }
      }
      return false;
    }

    method Reset()
      modifies this
      ensures Snapshot() == FRESH
    {
      phase := CLOSED;
      failureCount, successCount, lastFailureTime, openedAt, attemptCount := 0, 0, None, None, 0;
    }

    method RestoreState(persisted: State, now: real)
      modifies this
      ensures Snapshot() == OnRestore(config, persisted, now)
    {
      phase, failureCount, successCount := persisted.phase, persisted.failureCount, persisted.successCount;
      lastFailureTime, openedAt, attemptCount := persisted.lastFailureTime, persisted.openedAt, persisted.attemptCount;
      if phase == OPEN || phase == HALF_OPEN {
        var since := if openedAt.Some? then openedAt else lastFailureTime;
        var cooldown := CalculateCooldown();
        if since.None? || now - since.value >= cooldown {
          phase := CLOSED;
          failureCount := 0;
          successCount := 0;
          lastFailureTime := None;
          openedAt := None;
          attemptCount := 0;
        }
      }
    }
  }

  // ---------------------------- what every state of a run keeps ----------------------------

  ghost predicate Inv(c: Config, s: State, now: real) {
    && (s.phase == CLOSED ==> s.attemptCount == 0)
    && (s.phase != CLOSED ==> s.openedAt.Some? && s.openedAt.value <= now)
    && (s.phase == HALF_OPEN ==> now - s.openedAt.value >= Cooldown(c, s.attemptCount))
  }

  lemma NextInv(c: Config, s: State, e: Event)
    requires Inv(c, s, e.now) && !e.Restart?
    ensures Inv(c, Next(c, s, e), e.now)
  {
    hide Cooldown;
  }

  lemma RestoreInv(c: Config, s: State, now: real)
    requires Inv(c, s, now)
    ensures Inv(c, OnRestore(c, s, now), now)
  {
    hide Cooldown;
  }

  lemma PrefixForward(events: seq<Event>, i: nat)
    requires ClockForward(events) && i < |events|
    ensures ClockForward(events[..i])
    ensures i > 0 ==> events[i - 1].now <= events[|events| - 1].now
  {
  }

  /** In every run, through any number of restarts: a half-open breaker has served its cooldown, an open one
      knows when it opened, a closed one has no back-off left. */
  lemma {:induction false} RunInv(c: Config, events: seq<Event>, now: real)
    requires ClockForward(events) && (events != [] ==> events[|events| - 1].now <= now)
    ensures Inv(c, Run(c, events), now)
    decreases |events|
  {
    hide Inv, Next, OnRestore;
    if events == [] {
      FreshInv(c, now);
    } else {
      var e := events[|events| - 1];
      if e.Restart? {
        var p := Persisted(events);
        PrefixForward(events, |p|);
        assert p == events[..|p|];
        RunInv(c, p, e.now);
        RestoreInv(c, Run(c, p), e.now);
      } else {
        PrefixForward(events, |events| - 1);
        RunInv(c, events[..|events| - 1], e.now);
        NextInv(c, Run(c, events[..|events| - 1]), e);
      }
      InvLasts(c, Run(c, events), e.now, now);
    }
  }

  lemma FreshInv(c: Config, now: real)
    ensures Inv(c, FRESH, now)
  {
  }

  lemma InvLasts(c: Config, s: State, then_: real, now: real)
    requires Inv(c, s, then_) && then_ <= now
    ensures Inv(c, s, now)
  {
    hide Cooldown;
  }

  // ---------------------------- restarts ----------------------------

  /** Restoring any state of a run at any later time: a closed one comes back as it was, a half-open one comes
      back closed with nothing counted, and an open one comes back open exactly when it would still refuse. */
  lemma RestoreMirrorsAllow(c: Config, events: seq<Event>, now: real)
    requires ClockForward(events) && (events != [] ==> events[|events| - 1].now <= now)
    ensures var s := Run(c, events);
      && (s.phase == CLOSED ==> OnRestore(c, s, now) == s)
      && (s.phase == HALF_OPEN ==> OnRestore(c, s, now) == FRESH)
      && (s.phase == OPEN ==>
           && (OnRestore(c, s, now).phase == OPEN <==> !Allows(c, s, now))
           && OnRestore(c, s, now) == if Allows(c, s, now) then FRESH else s)
  {
    hide Cooldown, Run;
    RunInv(c, events, now);
  }

  /** Restarting at the moment of a request decides that request as the running breaker would. */
  lemma RestartDecidesAlike(c: Config, events: seq<Event>, now: real)
    requires ClockForward(events) && (events != [] ==> events[|events| - 1].now <= now)
    ensures Allows(c, OnRestore(c, Run(c, events), now), now) == Allows(c, Run(c, events), now)
  {
    hide Run;
    RunInv(c, events, now);
  }

  // ---------------------------- when it opens and closes ----------------------------

  /** While closed: the failures since the last success, reset or closing. */
  function FailuresInARow(c: Config, events: seq<Event>): nat
    decreases |events|
  {
    if events == [] || Run(c, events).phase != CLOSED then 0
    else
      match events[|events| - 1]
      case Failure(_) => FailuresInARow(c, events[..|events| - 1]) + 1
      case Allow(_) => FailuresInARow(c, events[..|events| - 1])
      case Restart(_, _) => FailuresInARow(c, Persisted(events))
      case _ => 0
  }

  /** While half-open: the successes since the cooldown ended. */
  function SuccessesInARow(c: Config, events: seq<Event>): nat
    decreases |events|
  {
    if events == [] || Run(c, events).phase != HALF_OPEN then 0
    else if events[|events| - 1].Restart? then SuccessesInARow(c, Persisted(events))
    else SuccessesInARow(c, events[..|events| - 1]) + (if events[|events| - 1].Success? then 1 else 0)
  }

  lemma {:induction false} CountsInARow(c: Config, events: seq<Event>)
    ensures var s := Run(c, events);
      && (s.phase == CLOSED ==> s.failureCount == FailuresInARow(c, events))
      && (s.phase == HALF_OPEN ==> s.successCount == SuccessesInARow(c, events))
    decreases |events|
  {
    hide Cooldown;
    if events != [] {
      if events[|events| - 1].Restart? {
        CountsInARow(c, Persisted(events));
      } else {
        CountsInARow(c, events[..|events| - 1]);
      }
    }
  }

  /** The failures that opened the breaker out of closed; a re-opening counts none. */
  function FailuresAtOpening(c: Config, events: seq<Event>): nat
    decreases |events|
  {
    if events == [] || Run(c, events).phase != OPEN then 0
    else if events[|events| - 1].Restart? then FailuresAtOpening(c, Persisted(events))
    else
      var before := events[..|events| - 1];
      match Run(c, before).phase
      case CLOSED => FailuresInARow(c, before) + 1
      case HALF_OPEN => 0
      case OPEN => FailuresAtOpening(c, before)
  }

  /** When the last failure was reported, unless a reset or a restart after the cooldown forgot it. */
  function LastFailure(c: Config, events: seq<Event>): Option<real>
    decreases |events|
  {
    if events == [] then None
    else
      match events[|events| - 1]
      case Failure(now) => Some(now)
      case Reset(_) => None
      case Restart(_, _) =>
        if Run(c, Persisted(events)).phase != CLOSED && Run(c, events).phase == CLOSED then None else LastFailure(c, Persisted(events))
      case _ => LastFailure(c, events[..|events| - 1])
  }

  /** In every run, what the status shows besides the phase: successes only while half-open, the failures in a
      row while closed, those that opened it while open, and the time of the last failure. */
  lemma {:induction false} CountersAreShown(c: Config, events: seq<Event>)
    ensures var s := Run(c, events);
      && s.successCount == (if s.phase == HALF_OPEN then SuccessesInARow(c, events) else 0)
      && s.failureCount == (match s.phase
                            case CLOSED => FailuresInARow(c, events)
                            case OPEN => FailuresAtOpening(c, events)
                            case HALF_OPEN => 0)
      && s.lastFailureTime == LastFailure(c, events)
    decreases |events|
  {
    hide Cooldown;
    CountsInARow(c, events);
    if events != [] {
      if events[|events| - 1].Restart? {
        CountersAreShown(c, Persisted(events));
      } else {
        CountersAreShown(c, events[..|events| - 1]);
      }
    }
  }

  /** In every run a closed breaker opens exactly at the failureThreshold-th failure in a row, and a half-open
      one closes exactly at the successThreshold-th success and opens at any failure. */
  lemma OpensAndClosesAtTheThreshold(c: Config, events: seq<Event>, now: real)
    ensures var s := Run(c, events);
      && (s.phase == CLOSED ==> (OnFailure(c, s, now).phase == OPEN <==> FailuresInARow(c, events) + 1 >= c.failureThreshold))
      && (s.phase == HALF_OPEN ==> (OnSuccess(c, s).phase == CLOSED <==> SuccessesInARow(c, events) + 1 >= c.successThreshold))
      && (s.phase == HALF_OPEN ==> OnFailure(c, s, now).phase == OPEN && OnSuccess(c, s).phase != OPEN)
  {
    hide Run, FailuresInARow, SuccessesInARow;
    CountsInARow(c, events);
  }

  /** Probing: in every run a request that an open breaker lets through leaves it half-open with nothing counted
      and the back-off kept; every other request leaves it as it was. */
  lemma AllowProbes(c: Config, events: seq<Event>, now: real)
    requires ClockForward(events) && (events != [] ==> events[|events| - 1].now <= now)
    ensures var s := Run(c, events);
      var t := OnAllow(c, s, now);
      if s.phase == OPEN && Allows(c, s, now)
      then t.phase == HALF_OPEN && t.successCount == 0 && t.failureCount == 0
           && t.attemptCount == Reopenings(c, events) && t.openedAt == s.openedAt && t.lastFailureTime == s.lastFailureTime
      else t == s
  {
    hide Run, Reopenings, Cooldown;
    CountsReopenings(c, events, now);
  }

  // ---------------------------- how long it refuses ----------------------------

  /** How often the breaker went from half-open back to open since it last left closed, read off the phases
      that the run went through. */
  function Reopenings(c: Config, events: seq<Event>): nat
    decreases |events|
  {
    if events == [] || Run(c, events).phase == CLOSED then 0
    else if events[|events| - 1].Restart? then Reopenings(c, Persisted(events))
    else
      var before := events[..|events| - 1];
      Reopenings(c, before) + (if Run(c, before).phase == HALF_OPEN && Run(c, events).phase == OPEN then 1 else 0)
  }

  /** When the breaker last turned open; the start if never since it was closed. */
  function OpenSince(c: Config, events: seq<Event>, start: real): real
    decreases |events|
  {
    if events == [] || Run(c, events).phase == CLOSED then start
    else if events[|events| - 1].Restart? then OpenSince(c, Persisted(events), start)
    else
      var before := events[..|events| - 1];
      if Run(c, before).phase != OPEN && Run(c, events).phase == OPEN then events[|events| - 1].now else OpenSince(c, before, start)
  }

  lemma {:induction false} CountsReopenings(c: Config, events: seq<Event>, start: real)
    requires ClockForward(events)
    ensures var s := Run(c, events);
      && s.attemptCount == Reopenings(c, events)
      && (s.phase != CLOSED ==> s.openedAt == Some(OpenSince(c, events, start)))
    decreases |events|
  {
    hide Cooldown;
    if events != [] {
      var e := events[|events| - 1];
      RunInv(c, events, e.now);
      if e.Restart? {
        var p := Persisted(events);
        PrefixForward(events, |p|);
        assert p == events[..|p|];
        CountsReopenings(c, p, start);
      } else {
        PrefixForward(events, |events| - 1);
        CountsReopenings(c, events[..|events| - 1], start);
        RunInv(c, events[..|events| - 1], e.now);
      }
    }
  }

  /** In every run that leaves the breaker open, the k-th consecutive re-opening (k = 0 is the opening itself)
      refuses for exactly min(cooldownMs * backoffMultiplier^k, maxCooldownMs) from the moment it opened. */
  lemma RefusesForTheCooldown(c: Config, events: seq<Event>, start: real, now: real)
    requires ClockForward(events) && Run(c, events).phase == OPEN
    ensures var k := Reopenings(c, events);
      var exponential := c.cooldownMs * Pow(c.backoffMultiplier, k);
      Allows(c, Run(c, events), now)
      <==> now - OpenSince(c, events, start) >= (if exponential <= c.maxCooldownMs then exponential else c.maxCooldownMs)
  {
    hide Run, Reopenings, OpenSince, Pow;
    CountsReopenings(c, events, start);
  }

  /** While open, requests, successes, failures and restarts from a snapshot since the opening neither end nor
      extend the refusal. */
  lemma {:induction false} NothingExtendsIt(c: Config, events: seq<Event>, more: seq<Event>)
    requires ClockForward(events + more) && Run(c, events).phase == OPEN
    requires forall i :: 0 <= i < |more| ==>
      && !more[i].Reset?
      && (more[i].Restart? ==> more[i].upTo >= |events|)
      && !Allows(c, Run(c, events), more[i].now)
    ensures var s, t := Run(c, events), Run(c, events + more);
      t.phase == OPEN && t.openedAt == s.openedAt && t.attemptCount == s.attemptCount
    decreases |more|
  {
    hide Cooldown;
    if more == [] {
      assert events + more == events;
    } else {
      var n := |more| - 1;
      var all := events + more;
      var e := more[n];
      assert all[|all| - 1] == e && all[..|all| - 1] == events + more[..n];
      if e.Restart? {
        var p := Persisted(all);
        var m := |p| - |events|;
        assert p == events + more[..m];
        PrefixForward(all, |p|);
        assert p == all[..|p|];
        NothingExtendsIt(c, events, more[..m]);
        RunInv(c, p, e.now);
        assert !Allows(c, Run(c, p), e.now);
      } else {
        PrefixForward(all, |all| - 1);
        NothingExtendsIt(c, events, more[..n]);
      }
    }
  }

  /** With a multiplier of at least one the refusals never get shorter. */
  lemma {:induction false} BackoffGrows(c: Config, j: nat, k: nat)
    requires c.cooldownMs >= 0.0 && c.backoffMultiplier >= 1.0 && j <= k
    ensures Cooldown(c, j) <= Cooldown(c, k) <= c.maxCooldownMs
  {
    PowGrows(c.backoffMultiplier, j, k);
    TimesMonotone(c.cooldownMs, Pow(c.backoffMultiplier, j), Pow(c.backoffMultiplier, k));
  }

  lemma {:induction false} PowGrows(x: real, j: nat, k: nat)
    requires x >= 1.0 && j <= k
    ensures 1.0 <= Pow(x, j) <= Pow(x, k)
  {
    if j < k {
      PowGrows(x, j, k - 1);
      TimesMonotone(Pow(x, k - 1), 1.0, x);
    } else if j > 0 {
      PowGrows(x, j - 1, j - 1);
      TimesMonotone(Pow(x, j - 1), 1.0, x);
    }
  }

  lemma TimesMonotone(a: real, x: real, y: real)
    requires a >= 0.0 && x <= y
    ensures a * x <= a * y
  {
  }
}
