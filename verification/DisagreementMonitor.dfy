/** The outcome disagreement monitor: an incremental window against a batch reading of the whole history. */
module DisagreementMonitor {
  import opened Types

  datatype Kind = Agree | Disagree | Unverifiable
  datatype Observation = Observation(matchId: int, platform: string, kind: Kind, observedAt: real)

  datatype Config = Config(windowSize: nat, maxAgeMs: real, minDecided: nat, minDisagreements: nat, minDisagreementRate: real)

  /** `validateConfig` */
  predicate ValidConfig(c: Config) {
    && c.windowSize > 0 && c.minDecided > 0 && c.minDisagreements > 0
    && c.maxAgeMs > 0.0
    && 0.0 < c.minDisagreementRate <= 1.0
    && c.minDecided <= c.windowSize && c.minDisagreements <= c.windowSize
  }

  const MAX_REPORTED_MATCH_IDS: nat := 20

  // ---------------------------- filters ----------------------------

  function Fresh(s: seq<Observation>, cutoff: real): seq<Observation> {
    if s == [] then []
    else (if s[0].observedAt > cutoff then [s[0]] else []) + Fresh(s[1..], cutoff)
  }

  function Without(s: seq<Observation>, matchId: int): seq<Observation> {
    if s == [] then []
    else (if s[0].matchId != matchId then [s[0]] else []) + Without(s[1..], matchId)
  }

  function LastN<T>(s: seq<T>, n: nat): seq<T> {
    if |s| > n then s[|s| - n..] else s
  }

  /** `prune` */
  function Pruned(c: Config, s: seq<Observation>, now: real): seq<Observation> {
    LastN(Fresh(s, now - c.maxAgeMs), c.windowSize)
  }

  /** The window after `record`. */
  function Recorded(c: Config, s: seq<Observation>, o: Observation, now: real): seq<Observation> {
    Pruned(c, Without(Pruned(c, s, now), o.matchId) + [o], now)
  }

  // ---------------------------- the batch reading ----------------------------

  predicate Mentions(s: seq<Observation>, matchId: int) {
    exists x :: x in s && x.matchId == matchId
  }

  /** The last observation of each match, in the order in which they were made. */
  function Latest(h: seq<Observation>): seq<Observation> {
    if h == [] then []
    else (if Mentions(h[1..], h[0].matchId) then [] else [h[0]]) + Latest(h[1..])
  }

  /** The last observation of each match, not older than the maximum age, and of those the last windowSize. */
  function Batch(c: Config, h: seq<Observation>, now: real): seq<Observation> {
    Pruned(c, Latest(h), now)
  }

  predicate NotAfter(o: Observation, s: seq<Observation>) {
    forall x :: x in s ==> o.observedAt <= x.observedAt
  }

  predicate InOrder(s: seq<Observation>) {
    s != [] ==> NotAfter(s[0], s[1..]) && InOrder(s[1..])
  }

  predicate OncePerMatch(s: seq<Observation>) {
    s != [] ==> !Mentions(s[1..], s[0].matchId) && OncePerMatch(s[1..])
  }

  // ---------------------------- lemmas on filters ----------------------------

  lemma {:induction false} FreshAppend(a: seq<Observation>, b: seq<Observation>, cutoff: real)
    ensures Fresh(a + b, cutoff) == Fresh(a, cutoff) + Fresh(b, cutoff)
  {
    if a == [] {
      assert a + b == b;
    } else {
      assert (a + b)[1..] == a[1..] + b;
      FreshAppend(a[1..], b, cutoff);
    }
  }

  lemma {:induction false} WithoutAppend(a: seq<Observation>, b: seq<Observation>, id: int)
    ensures Without(a + b, id) == Without(a, id) + Without(b, id)
  {
    if a == [] {
      assert a + b == b;
    } else {
      assert (a + b)[1..] == a[1..] + b;
      WithoutAppend(a[1..], b, id);
    }
  }

  lemma {:induction false} FreshWithoutCommute(s: seq<Observation>, cutoff: real, id: int)
    ensures Fresh(Without(s, id), cutoff) == Without(Fresh(s, cutoff), id)
  {
    if s != [] {
      FreshWithoutCommute(s[1..], cutoff, id);
      var head := if s[0].matchId != id then [s[0]] else [];
      FreshAppend(head, Without(s[1..], id), cutoff);
      var kept := if s[0].observedAt > cutoff then [s[0]] else [];
      WithoutAppend(kept, Fresh(s[1..], cutoff), id);
    }
  }

  lemma {:induction false} FreshTwice(s: seq<Observation>, a: real, b: real)
    requires a <= b
    ensures Fresh(Fresh(s, a), b) == Fresh(s, b)
  {
    if s != [] {
      FreshTwice(s[1..], a, b);
      FreshAppend(if s[0].observedAt > a then [s[0]] else [], Fresh(s[1..], a), b);
    }
  }

  /** What ageing keeps: only old members, all of them fresh, in the same order. */
  lemma {:induction false} FreshKeeps(s: seq<Observation>, cutoff: real)
    ensures forall x :: x in Fresh(s, cutoff) <==> x in s && x.observedAt > cutoff
    ensures |Fresh(s, cutoff)| <= |s|
    ensures InOrder(s) ==> InOrder(Fresh(s, cutoff))
    ensures OncePerMatch(s) ==> OncePerMatch(Fresh(s, cutoff))
  {
    if s != [] {
      var t := s[1..];
      assert s == [s[0]] + t;
      FreshKeeps(t, cutoff);
      if s[0].observedAt > cutoff {
        assert Fresh(s, cutoff)[1..] == Fresh(t, cutoff);
      } else {
        assert Fresh(s, cutoff) == Fresh(t, cutoff);
      }
    }
  }

  lemma {:induction false} AllFresh(s: seq<Observation>, cutoff: real)
    requires forall x :: x in s ==> x.observedAt > cutoff
    ensures Fresh(s, cutoff) == s
  {
    if s != [] {
      AllFresh(s[1..], cutoff);
    }
  }

  lemma {:induction false} NoneFresh(s: seq<Observation>, cutoff: real)
    requires forall x :: x in s ==> x.observedAt <= cutoff
    ensures Fresh(s, cutoff) == []
  {
    if s != [] {
      NoneFresh(s[1..], cutoff);
    }
  }

  /** In order as a whole means: both parts in order, and the first part not after the second. */
  lemma {:induction false} InOrderParts(p: seq<Observation>, q: seq<Observation>)
    requires InOrder(p + q)
    ensures InOrder(p) && InOrder(q)
    ensures forall x :: x in p ==> NotAfter(x, q)
  {
    if p == [] {
      assert p + q == q;
    } else {
      var t := p[1..];
      assert (p + q)[1..] == t + q;
      assert p == [p[0]] + t;
      InOrderParts(t, q);
      assert forall x :: x in t || x in q ==> x in t + q;
    }
  }

  lemma LastNOfAppend(p: seq<Observation>, q: seq<Observation>, n: nat)
    requires |q| >= n || p == []
    ensures LastN(p + q, n) == LastN(q, n)
  {
    if p == [] {
      assert p + q == q;
    }
  }

  lemma LastNParts(s: seq<Observation>, n: nat) returns (p: seq<Observation>, q: seq<Observation>)
    ensures s == p + q && LastN(s, n) == q
    ensures p == [] || |q| == n
  {
    if |s| > n {
      p, q := s[..|s| - n], s[|s| - n..];
    } else {
      p, q := [], s;
    }
  }

  /** In time order, ageing and cutting to the last n commute. */
  lemma FreshOfLastN(s: seq<Observation>, cutoff: real, n: nat)
    requires InOrder(s)
    ensures Fresh(LastN(s, n), cutoff) == LastN(Fresh(s, cutoff), n)
  {
    hide LastN, InOrder, Fresh;
    var p, q := LastNParts(s, n);
    InOrderParts(p, q);
    FreshAppend(p, q, cutoff);
    FreshKeeps(q, cutoff);
    LastNLength(s, n);
    if p == [] {
      assert p + q == q;
    } else if x :| x in p && x.observedAt > cutoff {
      AllFresh(q, cutoff);
      LastNOfAppend(Fresh(p, cutoff), Fresh(q, cutoff), n);
    } else {
      NoneFresh(p, cutoff);
      LastNOfAppend(Fresh(p, cutoff), Fresh(q, cutoff), n);
    }
    ShortLast(Fresh(q, cutoff), n);
  }

  lemma LastNLength<T>(s: seq<T>, n: nat)
    ensures |LastN(s, n)| <= n
  {
  }

  /** Nothing is cut from a sequence that already fits. */
  lemma ShortLast(s: seq<Observation>, n: nat)
    requires |s| <= n
    ensures LastN(s, n) == s
  {
  }

  lemma {:induction false} WithoutKeeps(s: seq<Observation>, id: int)
    ensures |Without(s, id)| <= |s|
    ensures !Mentions(s, id) ==> Without(s, id) == s
    ensures OncePerMatch(s) ==> |Without(s, id)| >= |s| - 1
  {
    if s != [] {
      assert s == [s[0]] + s[1..];
      WithoutKeeps(s[1..], id);
    }
  }

  // ---------------------------- lemmas on Latest ----------------------------

  lemma MentionsAppend(s: seq<Observation>, o: Observation, id: int)
    ensures Mentions(s + [o], id) <==> Mentions(s, id) || o.matchId == id
  {
    assert o in s + [o];
    assert forall x :: x in s + [o] <==> x in s || x == o;
  }

  lemma NotMentionedInEmpty(id: int)
    ensures !Mentions([], id)
  {
  }

  lemma {:induction false} LatestAppend(h: seq<Observation>, o: Observation)
    ensures Latest(h + [o]) == Without(Latest(h), o.matchId) + [o]
  {
    hide Mentions;
    if h == [] {
      assert h + [o] == [o];
      assert !Mentions([o][1..], o.matchId) by {
        NotMentionedInEmpty(o.matchId);
      }
      assert Latest([o]) == [o];
    } else {
      var t := h[1..];
      assert (h + [o])[1..] == t + [o];
      LatestAppend(t, o);
      MentionsAppend(t, o, h[0].matchId);
      WithoutAppend(if Mentions(t, h[0].matchId) then [] else [h[0]], Latest(t), o.matchId);
    }
  }

  lemma {:induction false} LatestKeeps(h: seq<Observation>)
    ensures forall x :: x in Latest(h) ==> x in h
    ensures InOrder(h) ==> InOrder(Latest(h))
    ensures OncePerMatch(Latest(h))
  {
    if h != [] {
      var t := h[1..];
      assert h == [h[0]] + t;
      LatestKeeps(t);
      if Mentions(t, h[0].matchId) {
        assert Latest(h) == Latest(t);
      } else {
        assert Latest(h)[1..] == Latest(t);
      }
    }
  }

  // ---------------------------- the window is the batch window ----------------------------

  /** Pruning an ordered window at an earlier time changes nothing about pruning it later. */
  lemma PrunedTwice(c: Config, s: seq<Observation>, then_: real, now: real)
    requires InOrder(s) && then_ <= now
    ensures Pruned(c, Pruned(c, s, then_), now) == Pruned(c, s, now)
  {
    hide LastN, InOrder, Fresh;
    var a, b := then_ - c.maxAgeMs, now - c.maxAgeMs;
    FreshKeeps(s, a);
    FreshOfLastN(Fresh(s, a), b, c.windowSize);
    FreshTwice(s, a, b);
    LastNTwice(Fresh(s, b), c.windowSize);
  }

  lemma LastNTwice(s: seq<Observation>, n: nat)
    ensures LastN(LastN(s, n), n) == LastN(s, n)
  {
  }

  /** Ageing a batch window later is the batch window at the later time. */
  lemma AgeingTheWindow(c: Config, h: seq<Observation>, then_: real, now: real)
    requires InOrder(h) && then_ <= now
    ensures Pruned(c, Batch(c, h, then_), now) == Batch(c, h, now)
  {
    hide Pruned, Latest, InOrder;
    LatestKeeps(h);
    PrunedTwice(c, Latest(h), then_, now);
  }

  /** Cutting before or after a re-observed match is removed gives the same window. */
  lemma CutThenReplace(f: seq<Observation>, o: Observation, n: nat)
    requires OncePerMatch(f) && n > 0
    ensures LastN(Without(LastN(f, n), o.matchId) + [o], n) == LastN(Without(f, o.matchId) + [o], n)
  {
    hide LastN, Without, OncePerMatch;
    var p, q := LastNParts(f, n);
    WithoutAppend(p, q, o.matchId);
    OncePerMatchSuffix(p, q);
    WithoutKeeps(q, o.matchId);
    var x := Without(q, o.matchId);
    assert Without(f, o.matchId) + [o] == Without(p, o.matchId) + (x + [o]);
    if p == [] {
      assert p + q == q;
    } else {
      LastNOfAppend(Without(p, o.matchId), x + [o], n);
    }
  }

  lemma {:induction false} OncePerMatchSuffix(p: seq<Observation>, q: seq<Observation>)
    requires OncePerMatch(p + q)
    ensures OncePerMatch(q)
  {
    if p == [] {
      assert p + q == q;
    } else {
      assert (p + q)[1..] == p[1..] + q;
      OncePerMatchSuffix(p[1..], q);
    }
  }

  /** Adding to a pruned window, or to the whole series before pruning, gives the same window. */
  lemma ReplacingInWindow(c: Config, d: seq<Observation>, o: Observation, now: real)
    requires ValidConfig(c) && OncePerMatch(d) && forall x :: x in d ==> x.observedAt <= o.observedAt
    ensures Pruned(c, Without(Pruned(c, d, now), o.matchId) + [o], now) == Pruned(c, Without(d, o.matchId) + [o], now)
  {
    hide LastN, Without, OncePerMatch, Fresh;
    var n, b := c.windowSize, now - c.maxAgeMs;
    var f := Fresh(d, b);
    var w := LastN(f, n);
    var p, q := LastNParts(f, n);
    FreshAppend(Without(d, o.matchId), [o], b);
    FreshWithoutCommute(d, b, o.matchId);
    FreshAppend(Without(w, o.matchId), [o], b);
    FreshWithoutCommute(w, b, o.matchId);
    FreshKeeps(d, b);
    if o.observedAt > b {
      AllFresh(w, b);
      AllFresh([o], b);
      CutThenReplace(f, o, n);
    } else {
      NoneFresh(d, b);
      NoneFresh([o], b);
      assert w == [];
      WithoutKeeps([], o.matchId);
      FreshKeeps([], b);
    }
  }

  /** Recording an observation turns the batch window of the history into that of the longer history. */
  lemma RecordingTheWindow(c: Config, h: seq<Observation>, o: Observation, then_: real, now: real)
    requires ValidConfig(c) && InOrder(h + [o]) && then_ <= now
    ensures Recorded(c, Batch(c, h, then_), o, now) == Batch(c, h + [o], now)
  {
    hide Pruned, Latest, InOrder, Without;
    InOrderParts(h, [o]);
    AgeingTheWindow(c, h, then_, now);
    LatestKeeps(h);
    LatestAppend(h, o);
    forall x | x in Latest(h) ensures x.observedAt <= o.observedAt {
      assert x in h && o in [o];
    }
    ReplacingInWindow(c, Latest(h), o, now);
  }

  // ---------------------------- status ----------------------------

  datatype Counts = Counts(agree: nat, disagree: nat, unverifiable: nat)

  datatype Status = Status(
    reviewRequired: bool, evidenceDegraded: bool, windowObservations: nat,
    decided: nat, agreements: nat, disagreements: nat, unverifiable: nat,
    disagreementRate: real, byPlatform: map<string, Counts>, disagreeingMatchIds: seq<int>)

  function CountKind(s: seq<Observation>, k: Kind): nat {
    if s == [] then 0 else CountKind(s[..|s| - 1], k) + (if s[|s| - 1].kind == k then 1 else 0)
  }

  function CountOn(s: seq<Observation>, platform: string, k: Kind): nat {
    if s == [] then 0
    else CountOn(s[..|s| - 1], platform, k) + (if s[|s| - 1].platform == platform && s[|s| - 1].kind == k then 1 else 0)
  }

  function Disagreeing(s: seq<Observation>): seq<int> {
    if s == [] then []
    else Disagreeing(s[..|s| - 1]) + (if s[|s| - 1].kind == Disagree then [s[|s| - 1].matchId] else [])
  }

  ghost function Platforms(s: seq<Observation>): map<string, Counts> {
    map o | o in s :: o.platform := Counts(CountOn(s, o.platform, Agree), CountOn(s, o.platform, Disagree), CountOn(s, o.platform, Unverifiable))
  }

  function Rate(part: nat, whole: nat): real {
    if whole == 0 then 0.0 else part as real / whole as real
  }

  /** The review signal, from the counts alone. */
  ghost predicate ReviewRequired(c: Config, s: seq<Observation>) {
    var decided := CountKind(s, Agree) + CountKind(s, Disagree);
    && decided >= c.minDecided
    && CountKind(s, Disagree) >= c.minDisagreements
    && Rate(CountKind(s, Disagree), decided) >= c.minDisagreementRate
  }

  ghost predicate EvidenceDegraded(c: Config, s: seq<Observation>) {
    |s| >= c.minDecided && Rate(CountKind(s, Unverifiable), |s|) >= 0.5
  }

  ghost function StatusOf(c: Config, s: seq<Observation>): Status {
    var a, d, u := CountKind(s, Agree), CountKind(s, Disagree), CountKind(s, Unverifiable);
    Status(ReviewRequired(c, s), EvidenceDegraded(c, s), |s|, a + d, a, d, u, Rate(d, a + d),
           Platforms(s), LastN(Disagreeing(s), MAX_REPORTED_MATCH_IDS))
  }

  lemma {:induction false} KindsAddUp(s: seq<Observation>)
    ensures CountKind(s, Agree) + CountKind(s, Disagree) + CountKind(s, Unverifiable) == |s|
  {
    if s != [] {
      KindsAddUp(s[..|s| - 1]);
    }
  }

  lemma PlatformsStep(s: seq<Observation>, o: Observation)
    ensures var was := if o.platform in Platforms(s) then Platforms(s)[o.platform] else Counts(0, 0, 0);
      Platforms(s + [o]) == Platforms(s)[o.platform := Bumped(was, o.kind)]
  {
    hide CountOn;
    var t := s + [o];
    forall p, k ensures CountOn(t, p, k) == CountOn(s, p, k) + (if o.platform == p && o.kind == k then 1 else 0) {
      CountOnStep(s, o, p, k);
    }
    if o.platform !in Platforms(s) {
      AbsentPlatform(s, o.platform);
    }
    assert forall x :: x in t <==> x in s || x == o;
  }

  lemma NothingCounted()
    ensures Platforms([]) == map[] && Disagreeing([]) == []
    ensures forall k :: CountKind([], k) == 0
  {
  }

  /** What one more observation adds to everything that is counted. */
  lemma CountingStep(s: seq<Observation>, i: nat)
    requires i < |s|
    ensures var seen, o := s[..i], s[i];
      && (forall k :: CountKind(s[..i + 1], k) == CountKind(seen, k) + (if o.kind == k then 1 else 0))
      && Disagreeing(s[..i + 1]) == Disagreeing(seen) + (if o.kind == Disagree then [o.matchId] else [])
      && Platforms(s[..i + 1])
         == Platforms(seen)[o.platform := Bumped(if o.platform in Platforms(seen) then Platforms(seen)[o.platform] else Counts(0, 0, 0), o.kind)]
  {
    hide Platforms;
    assert s[..i + 1] == s[..i] + [s[i]];
    assert s[..i + 1][..i] == s[..i];
    PlatformsStep(s[..i], s[i]);
  }

  lemma CountOnStep(s: seq<Observation>, o: Observation, p: string, k: Kind)
    ensures CountOn(s + [o], p, k) == CountOn(s, p, k) + (if o.platform == p && o.kind == k then 1 else 0)
  {
    assert (s + [o])[..|s|] == s;
  }

  lemma {:induction false} AbsentPlatform(s: seq<Observation>, p: string)
    requires forall x :: x in s ==> x.platform != p
    ensures CountOn(s, p, Agree) == CountOn(s, p, Disagree) == CountOn(s, p, Unverifiable) == 0
  {
    if s != [] {
      AbsentPlatform(s[..|s| - 1], p);
    }
  }

  function Bumped(c: Counts, k: Kind): Counts {
    match k
    case Agree => c.(agree := c.agree + 1)
    case Disagree => c.(disagree := c.disagree + 1)
    case Unverifiable => c.(unverifiable := c.unverifiable + 1)
  }

  // ---------------------------- the status in terms of the window alone ----------------------------

  /** The positions of the observations of one kind. */
  function Of(s: seq<Observation>, k: Kind): set<nat> {
    set i: nat | i < |s| && s[i].kind == k
  }

  function OfOn(s: seq<Observation>, platform: string, k: Kind): set<nat> {
    set i: nat | i < |s| && s[i].kind == k && s[i].platform == platform
  }

  /** The disagreements after position `i`. */
  function Later(s: seq<Observation>, i: nat): set<nat> {
    set j: nat | i < j < |s| && s[j].kind == Disagree
  }

  /** What a status says of a window, by counting positions: with A agreeing, D disagreeing and U unverifiable
      ones, review is required when enough are decided, enough disagree and D / (A + D) reaches the rate;
      evidence is degraded when U is at least half of enough observations. */
  ghost predicate Describes(c: Config, s: seq<Observation>, st: Status) {
    var a, d, u := |Of(s, Agree)|, |Of(s, Disagree)|, |Of(s, Unverifiable)|;
    && st.agreements == a && st.disagreements == d && st.unverifiable == u
    && st.decided == a + d && st.windowObservations == |s|
    && (a + d == 0 ==> st.disagreementRate == 0.0)
    && (a + d > 0 ==> st.disagreementRate * (a + d) as real == d as real)
    && (st.reviewRequired <==>
          a + d >= c.minDecided && d >= c.minDisagreements && d as real >= c.minDisagreementRate * (a + d) as real)
    && (st.evidenceDegraded <==> |s| >= c.minDecided && 2 * u >= |s|)
    && (forall p :: p in st.byPlatform <==> exists o :: o in s && o.platform == p)
    && (forall p {:trigger st.byPlatform[p]} :: p in st.byPlatform ==>
          st.byPlatform[p] == Counts(|OfOn(s, p, Agree)|, |OfOn(s, p, Disagree)|, |OfOn(s, p, Unverifiable)|))
    && LastIds(s, st.disagreeingMatchIds)
  }

  /** The match ids of the last twenty disagreements, in window order. */
  ghost predicate LastIds(s: seq<Observation>, ids: seq<int>) {
    && |ids| == Min(|Of(s, Disagree)|, 20)
    && forall i: nat {:trigger Later(s, i)} :: i < |s| && i in Of(s, Disagree) && |Later(s, i)| < |ids| ==> ids[|ids| - 1 - |Later(s, i)|] == s[i].matchId
  }

  lemma OfStep(s: seq<Observation>, k: Kind)
    requires s != []
    ensures |Of(s, k)| == |Of(s[..|s| - 1], k)| + (if s[|s| - 1].kind == k then 1 else 0)
  {
    var n := |s| - 1;
    var a, b := Of(s[..n], k), Of(s, k);
    forall i: nat ensures i in b <==> i in a || (i == n && s[n].kind == k) {
      if i < n {
        assert s[..n][i] == s[i];
      }
    }
    assert b == a + (if s[n].kind == k then {n} else {});
  }

  lemma OfOnStep(s: seq<Observation>, p: string, k: Kind)
    requires s != []
    ensures |OfOn(s, p, k)| == |OfOn(s[..|s| - 1], p, k)| + (if s[|s| - 1].kind == k && s[|s| - 1].platform == p then 1 else 0)
  {
    var n := |s| - 1;
    var a, b := OfOn(s[..n], p, k), OfOn(s, p, k);
    forall i: nat ensures i in b <==> i in a || (i == n && s[n].kind == k && s[n].platform == p) {
      if i < n {
        assert s[..n][i] == s[i];
      }
    }
    assert b == a + (if s[n].kind == k && s[n].platform == p then {n} else {});
  }

  lemma NoneOf(p: string, k: Kind)
    ensures Of([], k) == {} && OfOn([], p, k) == {}
  {
  }

  lemma {:induction false} CountKindIs(s: seq<Observation>, k: Kind)
    ensures CountKind(s, k) == |Of(s, k)|
  {
    hide Of, OfOn;
    NoneOf("", k);
    if s != [] {
      CountKindIs(s[..|s| - 1], k);
      OfStep(s, k);
    }
  }

  lemma {:induction false} CountOnIs(s: seq<Observation>, p: string, k: Kind)
    ensures CountOn(s, p, k) == |OfOn(s, p, k)|
  {
    hide Of, OfOn;
    NoneOf(p, k);
    if s != [] {
      CountOnIs(s[..|s| - 1], p, k);
      OfOnStep(s, p, k);
    }
  }

  lemma LaterShrinks(s: seq<Observation>, i: nat)
    requires i in Of(s, Disagree)
    ensures |Later(s, i)| < |Of(s, Disagree)|
  {
    SubsetIsSmaller(Later(s, i) + {i}, Of(s, Disagree));
  }

  lemma {:induction false} SubsetIsSmaller(a: set<nat>, b: set<nat>)
    requires a <= b
    ensures |a| <= |b|
  {
    if x :| x in a {
      SubsetIsSmaller(a - {x}, b - {x});
    }
  }

  lemma LaterStep(s: seq<Observation>, i: nat)
    requires s != [] && i < |s| - 1
    ensures var n := |s| - 1; |Later(s, i)| == |Later(s[..n], i)| + (if s[n].kind == Disagree then 1 else 0)
    ensures i in Of(s, Disagree) <==> i in Of(s[..|s| - 1], Disagree)
  {
    var n := |s| - 1;
    var t := s[..n];
    assert forall j: nat :: j < n ==> t[j] == s[j];
    assert Later(s, i) == Later(t, i) + (if s[n].kind == Disagree then {n} else {});
    assert n !in Later(t, i);
  }

  lemma LastHasNoneLater(s: seq<Observation>)
    requires s != []
    ensures Later(s, |s| - 1) == {}
    ensures |s| - 1 in Of(s, Disagree) <==> s[|s| - 1].kind == Disagree
  {
  }

  lemma {:induction false} DisagreeingCount(s: seq<Observation>)
    ensures |Disagreeing(s)| == |Of(s, Disagree)|
  {
    hide Of;
    NoneOf("", Disagree);
    if s != [] {
      DisagreeingCount(s[..|s| - 1]);
      OfStep(s, Disagree);
    }
  }

  lemma {:induction false} DisagreeingAre(s: seq<Observation>, i: nat)
    requires i < |s| && i in Of(s, Disagree)
    ensures |Later(s, i)| < |Disagreeing(s)| && Disagreeing(s)[|Disagreeing(s)| - 1 - |Later(s, i)|] == s[i].matchId
  {
    LaterShrinks(s, i);
    DisagreeingCount(s);
    hide Of, Later;
    LastHasNoneLater(s);
    if i < |s| - 1 {
      LaterStep(s, i);
      DisagreeingAre(s[..|s| - 1], i);
    }
  }

  lemma RatesCompare(part: nat, whole: nat, rate: real)
    requires whole > 0
    ensures Rate(part, whole) * whole as real == part as real
    ensures Rate(part, whole) >= rate <==> part as real >= rate * whole as real
  {
    var q, w := Rate(part, whole), whole as real;
    assert q * w == part as real;
    if q >= rate {
      assert (q - rate) * w >= 0.0;
    } else {
      assert (rate - q) * w > 0.0;
    }
  }

  lemma PlatformsAre(s: seq<Observation>)
    ensures forall p :: p in Platforms(s) <==> exists o :: o in s && o.platform == p
    ensures forall p {:trigger Platforms(s)[p]} :: p in Platforms(s) ==>
      Platforms(s)[p] == Counts(|OfOn(s, p, Agree)|, |OfOn(s, p, Disagree)|, |OfOn(s, p, Unverifiable)|)
  {
    hide CountOn, OfOn;
    forall p, k ensures CountOn(s, p, k) == |OfOn(s, p, k)| {
      CountOnIs(s, p, k);
    }
  }

  lemma LastIdsAre(s: seq<Observation>)
    ensures LastIds(s, LastN(Disagreeing(s), MAX_REPORTED_MATCH_IDS))
  {
    hide Disagreeing, Of, Later;
    DisagreeingCount(s);
    forall i: nat {:trigger Later(s, i)} | i < |s| && i in Of(s, Disagree)
      ensures |Later(s, i)| < |Disagreeing(s)| && Disagreeing(s)[|Disagreeing(s)| - 1 - |Later(s, i)|] == s[i].matchId
    {
      DisagreeingAre(s, i);
    }
  }

  /** The computed status describes the window. */
  lemma StatusDescribes(c: Config, s: seq<Observation>)
    requires ValidConfig(c)
    ensures Describes(c, s, StatusOf(c, s))
  {
    hide Platforms, Of, OfOn, CountKind, Rate, LastIds, LastN, Disagreeing;
    forall k ensures CountKind(s, k) == |Of(s, k)| {
      CountKindIs(s, k);
    }
    var a, d, u := |Of(s, Agree)|, |Of(s, Disagree)|, |Of(s, Unverifiable)|;
    if a + d > 0 {
      RatesCompare(d, a + d, c.minDisagreementRate);
    } else {
      NoRate(d);
    }
    if |s| > 0 {
      RatesCompare(u, |s|, 0.5);
    }
    PlatformsAre(s);
    LastIdsAre(s);
  }

  lemma NoRate(d: nat)
    ensures Rate(d, 0) == 0.0
  {
  }

  /** Without a disagreement in the window no review is asked for. */
  lemma AgreementNeedsNoReview(c: Config, s: seq<Observation>)
    requires ValidConfig(c) && forall o :: o in s ==> o.kind != Disagree
    ensures !StatusOf(c, s).reviewRequired
  {
    StatusDescribes(c, s);
    assert Of(s, Disagree) == {};
  }

  /** One more disagreement in place of an agreement never withdraws a review. */
  lemma DisagreementKeepsReview(c: Config, s: seq<Observation>, i: nat)
    requires ValidConfig(c) && i < |s| && s[i].kind == Agree
    ensures StatusOf(c, s).reviewRequired ==> StatusOf(c, s[i := s[i].(kind := Disagree)]).reviewRequired
  {
    hide StatusOf, Of;
    var t := s[i := s[i].(kind := Disagree)];
    ReviewIs(c, s);
    ReviewIs(c, t);
    OneMoreDisagrees(s, i);
  }

  lemma ReviewIs(c: Config, s: seq<Observation>)
    requires ValidConfig(c)
    ensures var a, d := |Of(s, Agree)|, |Of(s, Disagree)|;
      StatusOf(c, s).reviewRequired
      <==> a + d >= c.minDecided && d >= c.minDisagreements && d as real >= c.minDisagreementRate * (a + d) as real
  {
    hide StatusOf, Of;
    StatusDescribes(c, s);
  }

  lemma OneMoreDisagrees(s: seq<Observation>, i: nat)
    requires i < |s| && s[i].kind == Agree
    ensures var t := s[i := s[i].(kind := Disagree)];
      |Of(t, Disagree)| == |Of(s, Disagree)| + 1 && |Of(t, Agree)| == |Of(s, Agree)| - 1
  {
    var t := s[i := s[i].(kind := Disagree)];
    assert Of(t, Disagree) == Of(s, Disagree) + {i};
    assert Of(t, Agree) == Of(s, Agree) - {i};
  }

  // ---------------------------- the window in terms of the history alone ----------------------------

  /** Observation `j` is the last of its match. */
  predicate IsLatest(h: seq<Observation>, j: nat)
    requires j < |h|
  {
    forall k: nat :: j < k < |h| ==> h[k].matchId != h[j].matchId
  }

  /** The observations from `from` on that are the last of their match and younger than the maximum age. */
  function Live(c: Config, h: seq<Observation>, now: real, from: nat): set<nat> {
    set j: nat | from <= j < |h| && IsLatest(h, j) && now - h[j].observedAt < c.maxAgeMs
  }

  /** In the window: live, with fewer than windowSize live ones after it. */
  predicate InWindow(c: Config, h: seq<Observation>, now: real, j: nat)
    requires j < |h|
  {
    j in Live(c, h, now, 0) && |Live(c, h, now, j + 1)| < c.windowSize
  }

  lemma MentionsIsLatest(h: seq<Observation>)
    requires h != []
    ensures IsLatest(h, 0) <==> !Mentions(h[1..], h[0].matchId)
  {
    if Mentions(h[1..], h[0].matchId) {
      var x :| x in h[1..] && x.matchId == h[0].matchId;
      var k :| 0 <= k < |h[1..]| && h[1..][k] == x;
      assert h[k + 1].matchId == h[0].matchId;
    } else {
      forall k: nat | 0 < k < |h| ensures h[k].matchId != h[0].matchId {
        assert h[1..][k - 1] == h[k] && h[k] in h[1..];
      }
    }
  }

  lemma LatestInTail(h: seq<Observation>, j: nat)
    requires j + 1 < |h|
    ensures IsLatest(h, j + 1) <==> IsLatest(h[1..], j)
  {
    var t := h[1..];
    assert forall k: nat :: k < |t| ==> t[k] == h[k + 1];
    if IsLatest(h, j + 1) {
      forall k: nat | j < k < |t| ensures t[k].matchId != t[j].matchId {
        assert h[k + 1] == t[k];
      }
    }
    if IsLatest(t, j) {
      forall k: nat | j + 1 < k < |h| ensures h[k].matchId != h[j + 1].matchId {
        assert t[k - 1] == h[k];
      }
    }
  }

  lemma {:induction false} ShiftedSize(a: set<nat>, b: set<nat>)
    requires forall j :: j in a <==> j + 1 in b
    requires 0 !in b
    ensures |a| == |b|
  {
    if x :| x in a {
      ShiftedSize(a - {x}, b - {x + 1});
    } else {
      forall y: nat ensures y !in b {
        if y > 0 {
          assert y - 1 in a <==> (y - 1) + 1 in b;
        }
      }
    }
  }

  lemma LiveInTail(c: Config, h: seq<Observation>, now: real, from: nat)
    requires h != []
    ensures |Live(c, h, now, from + 1)| == |Live(c, h[1..], now, from)|
  {
    hide IsLatest;
    var a, b := Live(c, h[1..], now, from), Live(c, h, now, from + 1);
    forall j: nat ensures j in a <==> j + 1 in b {
      if j + 1 < |h| {
        LatestInTail(h, j);
        assert h[1..][j] == h[j + 1];
      }
    }
    ShiftedSize(a, b);
  }

  /** One more observation in front. */
  lemma LiveStep(c: Config, h: seq<Observation>, now: real)
    requires h != []
    ensures Fresh(Latest(h), now - c.maxAgeMs)
         == (if 0 in Live(c, h, now, 0) then [h[0]] else []) + Fresh(Latest(h[1..]), now - c.maxAgeMs)
    ensures |Live(c, h, now, 0)| == |Live(c, h[1..], now, 0)| + (if 0 in Live(c, h, now, 0) then 1 else 0)
  {
    hide IsLatest, Mentions, Fresh;
    LiveHead(c, h, now);
    LiveInTail(c, h, now, 0);
    MentionsIsLatest(h);
    FreshHead(h, now - c.maxAgeMs);
  }

  lemma LiveHead(c: Config, h: seq<Observation>, now: real)
    requires h != []
    ensures 0 in Live(c, h, now, 0) <==> IsLatest(h, 0) && now - h[0].observedAt < c.maxAgeMs
    ensures |Live(c, h, now, 0)| == |Live(c, h, now, 1)| + (if 0 in Live(c, h, now, 0) then 1 else 0)
  {
    hide IsLatest;
    var a, b := Live(c, h, now, 1), Live(c, h, now, 0);
    assert b == a + (if 0 in b then {0} else {});
  }

  lemma FreshHead(h: seq<Observation>, cutoff: real)
    requires h != []
    ensures Fresh(Latest(h), cutoff)
         == (if !Mentions(h[1..], h[0].matchId) && h[0].observedAt > cutoff then [h[0]] else []) + Fresh(Latest(h[1..]), cutoff)
  {
    hide Mentions;
    FreshAppend(if Mentions(h[1..], h[0].matchId) then [] else [h[0]], Latest(h[1..]), cutoff);
  }

  lemma {:induction false} LiveCount(c: Config, h: seq<Observation>, now: real)
    ensures |Fresh(Latest(h), now - c.maxAgeMs)| == |Live(c, h, now, 0)|
  {
    if h == [] {
      assert Live(c, h, now, 0) == {};
    } else {
      hide Live, Fresh, Latest;
      LiveCount(c, h[1..], now);
      LiveStep(c, h, now);
    }
  }

  lemma LiveBefore(c: Config, h: seq<Observation>, now: real, j: nat)
    requires j in Live(c, h, now, 0)
    ensures j < |h| && |Live(c, h, now, j + 1)| < |Live(c, h, now, 0)|
    ensures j > 0 ==> j - 1 in Live(c, h[1..], now, 0) && h[1..][j - 1] == h[j]
  {
    hide IsLatest;
    SubsetIsSmaller(Live(c, h, now, j + 1) + {j}, Live(c, h, now, 0));
    if j > 0 {
      LatestInTail(h, j - 1);
    }
  }

  /** Ageing the latest observations leaves the live ones, in order. */
  lemma {:induction false} LiveAt(c: Config, h: seq<Observation>, now: real, j: nat)
    requires j in Live(c, h, now, 0)
    ensures j < |h|
    ensures var f := Fresh(Latest(h), now - c.maxAgeMs);
      |Live(c, h, now, j + 1)| < |f| && f[|f| - 1 - |Live(c, h, now, j + 1)|] == h[j]
  {
    hide Live, Fresh, Latest;
    LiveBefore(c, h, now, j);
    LiveCount(c, h, now);
    LiveStep(c, h, now);
    LiveInTail(c, h, now, j);
    if j > 0 {
      LiveAt(c, h[1..], now, j - 1);
    } else {
      LiveCount(c, h[1..], now);
    }
  }

  /** The batch window of a history: as many observations as are live, at most windowSize, and the live
      observation with m live ones after it stands m places from the end. */
  lemma WindowHolds(c: Config, h: seq<Observation>, now: real)
    ensures var w := Batch(c, h, now);
      && |w| == Min(|Live(c, h, now, 0)|, c.windowSize)
      && forall j: nat {:trigger InWindow(c, h, now, j)} :: j < |h| && InWindow(c, h, now, j) ==>
           |Live(c, h, now, j + 1)| < |w| && w[|w| - 1 - |Live(c, h, now, j + 1)|] == h[j]
  {
    hide Fresh, Latest, Live;
    LiveCount(c, h, now);
    forall j: nat {:trigger InWindow(c, h, now, j)} | j < |h| && InWindow(c, h, now, j)
      ensures var w := Batch(c, h, now); |Live(c, h, now, j + 1)| < |w| && w[|w| - 1 - |Live(c, h, now, j + 1)|] == h[j]
    {
      LiveAt(c, h, now, j);
    }
  }

  // ---------------------------- the monitor object ----------------------------

  class Monitor {
    const config: Config
    var observations: seq<Observation>
    var reviewActive: bool
    var degradedActive: bool
    /** The statuses handed to `onReviewSignal`, in order. */
    var signals: seq<Status>

    constructor (c: Config)
      requires ValidConfig(c)
      ensures config == c && observations == [] && !reviewActive && !degradedActive && signals == []
    {
      config, observations, reviewActive, degradedActive, signals := c, [], false, false, [];
    }

    ghost function Snapshot(): State
      reads this
    {
      State(observations, reviewActive, degradedActive, signals)
    }

    method Prune(now: real)
      modifies this`observations
      ensures observations == Pruned(config, old(observations), now)
    {
      var cutoff := now - config.maxAgeMs;
      observations := Fresh(observations, cutoff);
      if |observations| > config.windowSize {
        observations := observations[|observations| - config.windowSize..];
      }
    }

    method ComputeStatus() returns (status: Status)
      ensures status == StatusOf(config, observations)
      ensures ValidConfig(config) ==> Describes(config, observations, status)
    {
      hide CountKind, Disagreeing, Platforms, Bumped, Describes;
      NothingCounted();
      var agreements, disagreements, unverifiable := 0, 0, 0;
      var byPlatform: map<string, Counts> := map[];
      var ids: seq<int> := [];
      var i := 0;
      while i < |observations|
        invariant 0 <= i <= |observations|
        invariant agreements == CountKind(observations[..i], Agree)
        invariant disagreements == CountKind(observations[..i], Disagree)
        invariant unverifiable == CountKind(observations[..i], Unverifiable)
        invariant byPlatform == Platforms(observations[..i])
        invariant ids == Disagreeing(observations[..i])
      {
        var o := observations[i];
        CountingStep(observations, i);
        var was := if o.platform in byPlatform then byPlatform[o.platform] else Counts(0, 0, 0);
        byPlatform := byPlatform[o.platform := Bumped(was, o.kind)];
        if o.kind == Agree {
          agreements := agreements + 1;
        } else if o.kind == Disagree {
          disagreements := disagreements + 1;
          ids := ids + [o.matchId];
        } else {
          unverifiable := unverifiable + 1;
        }
        i := i + 1;
      }
      assert observations[..i] == observations;
      var decided := agreements + disagreements;
      var rate := if decided == 0 then 0.0 else disagreements as real / decided as real;
      var total := |observations|;
      var review := decided >= config.minDecided && disagreements >= config.minDisagreements && rate >= config.minDisagreementRate;
      var degraded := total >= config.minDecided && Rate(unverifiable, total) >= 0.5;
      status := Status(review, degraded, total, decided, agreements, disagreements, unverifiable, rate, byPlatform,
                       LastN(ids, MAX_REPORTED_MATCH_IDS));
      if ValidConfig(config) {
        StatusDescribes(config, observations);
      }
    }

    method HandleTransitions(status: Status)
      modifies this`reviewActive, this`degradedActive, this`signals
      ensures reviewActive == status.reviewRequired && degradedActive == status.evidenceDegraded
      ensures signals == old(signals) + if status.reviewRequired && !old(reviewActive) then [status] else []
    {
      if status.reviewRequired && !reviewActive {
        reviewActive := true;
        signals := signals + [status];
      } else if !status.reviewRequired && reviewActive {
        reviewActive := false;
      }
      if status.evidenceDegraded && !degradedActive {
        degradedActive := true;
      } else if !status.evidenceDegraded && degradedActive {
        degradedActive := false;
      }
    }

    method Record(o: Observation, now: real) returns (status: Status)
      modifies this
      ensures Snapshot() == Next(config, old(Snapshot()), Seen(o, now))
      ensures status == StatusOf(config, observations)
    {
      Prune(now);
      observations := Without(observations, o.matchId);
      observations := observations + [o];
      Prune(now);
      status := ComputeStatus();
      HandleTransitions(status);
    }

    method GetStatus(now: real) returns (status: Status)
      modifies this
      ensures Snapshot() == Next(config, old(Snapshot()), Asked(now))
      ensures status == StatusOf(config, observations)
    {
      Prune(now);
      status := ComputeStatus();
    }
  }

  // ---------------------------- runs ----------------------------

  datatype State = State(window: seq<Observation>, reviewActive: bool, degradedActive: bool, signals: seq<Status>)

  datatype Event = Seen(o: Observation, now: real) | Asked(now: real)

  ghost function Next(c: Config, s: State, e: Event): State {
    match e
    case Asked(now) => s.(window := Pruned(c, s.window, now))
    case Seen(o, now) =>
      var w := Recorded(c, s.window, o, now);
      var status := StatusOf(c, w);
      State(w, status.reviewRequired, status.evidenceDegraded,
            s.signals + if status.reviewRequired && !s.reviewActive then [status] else [])
  }

  ghost function Run(c: Config, events: seq<Event>): State {
    if events == [] then State([], false, false, [])
    else Next(c, Run(c, events[..|events| - 1]), events[|events| - 1])
  }

  function History(events: seq<Event>): seq<Observation> {
    if events == [] then []
    else History(events[..|events| - 1]) + (if events[|events| - 1].Seen? then [events[|events| - 1].o] else [])
  }

  predicate ClockForward(events: seq<Event>) {
    forall i, j :: 0 <= i < j < |events| ==> events[i].now <= events[j].now
  }

  lemma HistoryPrefix(events: seq<Event>)
    requires events != [] && ClockForward(events) && InOrder(History(events))
    ensures var rest := events[..|events| - 1];
      ClockForward(rest) && InOrder(History(rest))
  {
    var rest := events[..|events| - 1];
    forall i, j | 0 <= i < j < |rest| ensures rest[i].now <= rest[j].now {
      assert rest[i] == events[i] && rest[j] == events[j];
    }
    InOrderParts(History(rest), if events[|events| - 1].Seen? then [events[|events| - 1].o] else []);
  }

  /** Refinement: with a clock and observation times that never go back, the window kept step by step is
      the batch window of the whole history, and so is every count and signal read from it. */
  lemma {:induction false} WindowIsBatch(c: Config, events: seq<Event>)
    requires ValidConfig(c) && events != [] && ClockForward(events) && InOrder(History(events))
    ensures Run(c, events).window == Batch(c, History(events), events[|events| - 1].now)
  {
    hide Batch, Pruned, Recorded, InOrder, StatusOf;
    var last := events[|events| - 1];
    var rest := events[..|events| - 1];
    HistoryPrefix(events);
    var then_ := last.now;
    if rest == [] {
      EmptyWindow(c, last.now);
    } else {
      then_ := rest[|rest| - 1].now;
      assert then_ <= last.now;
      WindowIsBatch(c, rest);
    }
    assert Run(c, rest).window == Batch(c, History(rest), then_);
    if last.Seen? {
      RecordingTheWindow(c, History(rest), last.o, then_, last.now);
    } else {
      AgeingTheWindow(c, History(rest), then_, last.now);
      assert History(rest) + [] == History(rest);
    }
  }

  lemma EmptyWindow(c: Config, now: real)
    ensures Batch(c, [], now) == [] && Pruned(c, [], now) == []
  {
  }

  /** The statuses that the batch reading would give, one for each recorded observation. */
  ghost function BatchStatuses(c: Config, events: seq<Event>): seq<Status> {
    if events == [] then []
    else
      var last := events[|events| - 1];
      BatchStatuses(c, events[..|events| - 1])
      + (if last.Seen? then [StatusOf(c, Batch(c, History(events), last.now))] else [])
  }

  predicate Alarmed(a: seq<Status>) {
    a != [] && a[|a| - 1].reviewRequired
  }

  /** The statuses at which the review signal turns from false to true; it starts from false. */
  function RisingEdges(a: seq<Status>): seq<Status> {
    if a == [] then []
    else
      var before := a[..|a| - 1];
      RisingEdges(before) + (if Alarmed(a) && !Alarmed(before) then [a[|a| - 1]] else [])
  }

  lemma RisingStep(a: seq<Status>, x: Status)
    ensures RisingEdges(a + [x]) == RisingEdges(a) + (if x.reviewRequired && !Alarmed(a) then [x] else [])
    ensures Alarmed(a + [x]) == x.reviewRequired
  {
    assert (a + [x])[..|a|] == a;
  }

  lemma SignalStep(c: Config, s: State, e: Event)
    ensures var t := Next(c, s, e);
      && (e.Asked? ==> t.signals == s.signals && t.reviewActive == s.reviewActive)
      && (e.Seen? ==>
           && t.reviewActive == StatusOf(c, t.window).reviewRequired
           && t.signals == s.signals + (if t.reviewActive && !s.reviewActive then [StatusOf(c, t.window)] else []))
  {
    hide StatusOf, Recorded, Pruned;
  }

  /** The callback fires exactly once for each time the batch signal turns from false to true, with the
      batch status of that moment. */
  lemma {:induction false} OneSignalPerEdge(c: Config, events: seq<Event>)
    requires ValidConfig(c) && ClockForward(events) && InOrder(History(events))
    ensures Run(c, events).signals == RisingEdges(BatchStatuses(c, events))
    ensures Run(c, events).reviewActive == Alarmed(BatchStatuses(c, events))
  {
    hide Batch, History, InOrder, StatusOf, Next, RisingEdges, Alarmed;
    if events == [] {
      NoEdges();
    } else {
      var last := events[|events| - 1];
      var rest := events[..|events| - 1];
      HistoryPrefix(events);
      OneSignalPerEdge(c, rest);
      WindowIsBatch(c, events);
      SignalStep(c, Run(c, rest), last);
      if last.Seen? {
        RisingStep(BatchStatuses(c, rest), StatusOf(c, Run(c, events).window));
      } else {
        assert BatchStatuses(c, rest) + [] == BatchStatuses(c, rest);
      }
    }
  }

  lemma NoEdges()
    ensures RisingEdges([]) == [] && !Alarmed([])
  {
  }

  // ---------------------------- colours ----------------------------

  datatype MatchResult = Player1Wins | Player2Wins | Draw
  datatype Game = Game(result: Option<MatchResult>, white: string, black: string)

  function Flip(r: MatchResult): MatchResult {
    match r
    case Player1Wins => Player2Wins
    case Player2Wins => Player1Wins
    case Draw => Draw
  }

  /** `toPlayer1Perspective`, for any way of normalising names. */
  function ToPlayer1Perspective(norm: string -> string, game: Game, player1: string, player2: string): Option<MatchResult> {
    if game.result.None? then None
    else
      var white, black, p1, p2 := norm(game.white), norm(game.black), norm(player1), norm(player2);
      if white == "" || black == "" || p1 == "" || p2 == "" then None
      else if white == p1 && black == p2 then game.result
      else if white == p2 && black == p1 then Some(Flip(game.result.value))
      else None
  }

  /** The same game reported with the colours exchanged. */
  function Exchanged(g: Game): Game {
    Game(if g.result.Some? then Some(Flip(g.result.value)) else None, g.black, g.white)
  }

  /** The classification does not depend on who had white, except for a decisive game between two names
      that normalise alike, where the two readings contradict each other. */
  lemma ColoursDoNotMatter(norm: string -> string, g: Game, player1: string, player2: string)
    ensures ToPlayer1Perspective(norm, Exchanged(g), player1, player2) == ToPlayer1Perspective(norm, g, player1, player2)
       <==> !(g.result.Some? && g.result != Some(Draw) && norm(g.white) != ""
              && norm(g.white) == norm(g.black) == norm(player1) == norm(player2))
  {
  }

  /** The player who won keeps winning under their own name: the mapped outcome names player 1 or player 2
      exactly as the name of the game's winner does, and a draw stays a draw. */
  lemma WinnerKeepsTheName(norm: string -> string, g: Game, player1: string, player2: string)
    requires g.result.Some? && ToPlayer1Perspective(norm, g, player1, player2).Some?
    ensures var outcome := ToPlayer1Perspective(norm, g, player1, player2).value;
      && (outcome == Draw <==> g.result.value == Draw)
      && (g.result.value != Draw ==>
            norm(if g.result.value == Player1Wins then g.white else g.black) == norm(if outcome == Player1Wins then player1 else player2))
      && (g.result.value != Draw ==>
            norm(if g.result.value == Player1Wins then g.black else g.white) == norm(if outcome == Player1Wins then player2 else player1))
  {
  }

  /** A finished game is mapped exactly if all four names say something and the two pairs are the same people. */
  lemma MappedIff(norm: string -> string, g: Game, player1: string, player2: string)
    ensures ToPlayer1Perspective(norm, g, player1, player2).Some?
       <==> && g.result.Some? && "" !in {norm(g.white), norm(g.black), norm(player1), norm(player2)}
            && multiset{norm(g.white), norm(g.black)} == multiset{norm(player1), norm(player2)}
  {
    var w, b, p, q := norm(g.white), norm(g.black), norm(player1), norm(player2);
    if multiset{w, b} == multiset{p, q} {
      assert w in multiset{p, q} && b in multiset{p, q};
      assert multiset{w, b} - multiset{w} == multiset{b};
      assert w == p ==> multiset{p, q} - multiset{w} == multiset{q};
      assert w == q ==> multiset{p, q} - multiset{w} == multiset{p};
      assert w == p ==> b in multiset{q};
      assert w == q ==> b in multiset{p};
    }
  }

  /** Naming the two players the other way round turns every mapped outcome around. */
  lemma PerspectiveFlips(norm: string -> string, g: Game, player1: string, player2: string)
    requires norm(player1) != norm(player2)
    ensures var a, b := ToPlayer1Perspective(norm, g, player1, player2), ToPlayer1Perspective(norm, g, player2, player1);
      (a.Some? <==> b.Some?) && (a.Some? ==> b.value == Flip(a.value))
  {
  }
}
