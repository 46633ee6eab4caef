/** What every accepted call keeps true of one tournament and its nodes. */
module TournamentBracket {
  import opened Types
  import opened TournamentModel

  // ---------------------------- the invariant ----------------------------

  ghost predicate SeedsDistinct(b: Bracket)
    requires Shape(b)
  {
    ShapeHasSlots(b);
    && (forall k: nat :: k < b.info.playerCount ==> Slot(b.nodes, k).Some?)
    && (forall j: nat, k: nat :: j < k < b.info.playerCount ==> Slot(b.nodes, j) != Slot(b.nodes, k))
  }

  /** A node above round 0 holds exactly the recorded winners of its two children. */
  ghost predicate Wired(b: Bracket, r: nat, i: nat)
    requires Shape(b) && r > 0 && (r, i) in b.nodes
  {
    ChildrenInTree(b, r, i);
    && b.nodes[(r, i)].player1 == b.nodes[(r - 1, 2 * i)].winner
    && b.nodes[(r, i)].player2 == b.nodes[(r - 1, 2 * i + 1)].winner
    && !b.nodes[(r, i)].funded1 && !b.nodes[(r, i)].funded2
  }

  lemma ChildrenInTree(b: Bracket, r: nat, i: nat)
    requires Shape(b) && r > 0 && (r, i) in b.nodes
    ensures (r - 1, 2 * i) in b.nodes && (r - 1, 2 * i + 1) in b.nodes
  {
    assert InTree(b.info.rounds, r, i);
    assert InTree(b.info.rounds, r - 1, 2 * i) && InTree(b.info.rounds, r - 1, 2 * i + 1);
  }

  ghost predicate BothKnown(node: Node) {
    node.player1.Some? && node.player2.Some?
  }

  ghost predicate NodeOk(b: Bracket, r: nat, i: nat)
    requires (r, i) in b.nodes
  {
    var node := b.nodes[(r, i)];
    && (node.status == Decided <==> node.winner.Some?)
    && (node.winner.Some? <==> node.resultLedger.Some?)
    && (node.winner.Some? ==> BothKnown(node) && (node.winner == node.player1 || node.winner == node.player2))
    && (r > 0 ==> (node.status == AwaitingFunding <==> !BothKnown(node)))
    && (r == 0 && b.info.phase != Cancelled ==> (node.status == AwaitingFunding <==> !(node.funded1 && node.funded2)))
  }

  ghost predicate MoneyOk(b: Bracket)
    requires Shape(b)
  {
    ShapeHasSlots(b);
    && b.info.fundedCount == CountFunded(b.nodes, b.info.playerCount)
    && (forall k: nat :: k < b.info.playerCount && Funded(b.nodes, k) ==> Slot(b.nodes, k) != Some(SELF))
    && (b.info.phase == Cancelled ==> b.info.fundedCount == 0)
  }

  ghost predicate PhaseOk(b: Bracket)
    requires Shape(b)
  {
    FinalInTree(b);
    && (b.info.phase == Registration ==> b.info.fundedCount < b.info.playerCount)
    && (b.info.phase == InProgress ==> b.info.fundedCount == b.info.playerCount)
    && (b.info.phase == Completed <==> b.nodes[Final(b)].winner.Some?)
    && (b.info.phase == Completed ==> b.info.champion == b.nodes[Final(b)].winner)
    && (b.info.phase != Completed ==> b.info.champion == None)
    && (Terminal(b.info.phase) <==> b.info.completedLedger.Some?)
  }

  lemma FinalInTree(b: Bracket)
    requires Shape(b)
    ensures Final(b) in b.nodes
  {
    assert InTree(b.info.rounds, b.info.rounds - 1, 0);
  }

  ghost predicate Inv(b: Bracket) {
    && Shape(b)
    && SeedsDistinct(b)
    && (forall r: nat, i: nat {:trigger Wired(b, r, i)} :: (r, i) in b.nodes && r > 0 ==> Wired(b, r, i))
    && (forall r: nat, i: nat {:trigger NodeOk(b, r, i)} :: (r, i) in b.nodes ==> NodeOk(b, r, i))
    && MoneyOk(b)
    && PhaseOk(b)
  }

  lemma InvShape(b: Bracket)
    requires Inv(b)
    ensures Shape(b) && HasSlots(b.nodes, b.info.playerCount) && b.info.playerCount % 2 == 0
  {
    ShapeHasSlots(b);
  }

  // ---------------------------- seeding ----------------------------

  /** The round-0 slot given to seed `a` of `n`. */
  function SlotOfSeed(a: nat, n: nat): (k: nat)
    requires a < n && n % 2 == 0
  {
    if a < n / 2 then 2 * a else 2 * (n - 1 - a) + 1
  }

  /** Seeding is a bijection of [0, n), with SlotOfSeed as its inverse. */
  lemma SeedPositionBijective(n: nat, k: nat, a: nat)
    requires n % 2 == 0 && k < n && a < n
    ensures 0 <= SeedPosition(k, n) < n
    ensures SlotOfSeed(SeedPosition(k, n), n) == k
    ensures SlotOfSeed(a, n) < n && SeedPosition(SlotOfSeed(a, n), n) == a
    ensures SlotOfSeed(a, n) / 2 == Min(a, n - 1 - a)
  {
  }

  lemma {:induction false} EntrantsDistinct(players: seq<Address>, m: nat, i: nat, j: nat)
    requires m <= |players| && EntrantsVerdict(players, m).None?
    requires j < i < m
    ensures players[i] != players[j] && players[i] != ZERO_ADDRESS
  {
    if i < m - 1 {
      EntrantsDistinct(players, m - 1, i, j);
    }
  }

  /** The comprehension that seeds the tree holds exactly the keys of the tree. */
  lemma SeededKeys(players: seq<Address>, rounds: nat, r: nat, i: nat)
    requires |players| == Pow2(rounds) && rounds > 0
    ensures (r, i) in SeededNodes(players, rounds) <==> InTree(rounds, r, i)
  {
    if InTree(rounds, r, i) {
      Pow2Grows(rounds - 1 - r, rounds);
    }
  }

  lemma NewBracketShape(c: Config, fee: int, players: seq<Address>, schedule: seq<int>, now: U32)
    requires |players| >= 2 && |players| <= 64 && IsPowerOfTwo(|players|) && fee >= 1
    ensures Shape(NewBracket(c, fee, players, schedule, now))
  {
    PowerOfTwoIsPow2(|players|);
    var b := NewBracket(c, fee, players, schedule, now);
    forall r: nat, i: nat ensures (r, i) in b.nodes <==> InTree(b.info.rounds, r, i) {
      SeededKeys(players, b.info.rounds, r, i);
    }
  }

  lemma SeatIsSeedPosition(n: nat, k: nat)
    requires n % 2 == 0 && k < n
    ensures 0 <= SeedPosition(k, n) < n && Seat(k, n) == SeedPosition(k, n)
  {
  }

  lemma SeededAt(players: seq<Address>, rounds: nat, i: nat)
    requires |players| == Pow2(rounds) && rounds > 0 && InTree(rounds, 0, i)
    ensures (0, i) in SeededNodes(players, rounds)
    ensures var node := SeededNodes(players, rounds)[(0, i)];
      && node.player1 == Some(players[Seat(2 * i, |players|)])
      && node.player2 == Some(players[Seat(2 * i + 1, |players|)])
      && !node.funded1 && !node.funded2
  {
    SeededKeys(players, rounds, 0, i);
  }

  /** Slot k of a new bracket holds the entrant that snake seeding puts there. */
  lemma NewBracketSlot(c: Config, fee: int, players: seq<Address>, schedule: seq<int>, now: U32, k: nat)
    requires |players| >= 2 && |players| <= 64 && IsPowerOfTwo(|players|) && fee >= 1
    requires k < |players|
    ensures 0 <= SeedPosition(k, |players|) < |players|
    ensures var nodes := NewBracket(c, fee, players, schedule, now).nodes;
      && (0, k / 2) in nodes
      && Slot(nodes, k) == Some(players[SeedPosition(k, |players|)])
      && !Funded(nodes, k)
  {
    hide SeededNodes, SeedPosition, Shape;
    var b := NewBracket(c, fee, players, schedule, now);
    NewBracketShape(c, fee, players, schedule, now);
    ShapeHasSlots(b);
    var i := k / 2;
    assert k == 2 * i || k == 2 * i + 1;
    assert InTree(b.info.rounds, 0, i);
    SeededAt(players, b.info.rounds, i);
    SeatIsSeedPosition(|players|, k);
  }

  lemma {:induction false} NobodyFunded(nodes: Nodes, m: nat)
    requires HasSlots(nodes, m)
    requires forall k: nat :: k < m ==> !Funded(nodes, k)
    ensures CountFunded(nodes, m) == 0
  {
    if m > 0 {
      NobodyFunded(nodes, m - 1);
    }
  }

  /** A new tree: opening nodes without payments, empty nodes above, nothing decided. */
  lemma NewNodes(players: seq<Address>, rounds: nat, r: nat, i: nat)
    requires |players| == Pow2(rounds) && rounds > 0 && (r, i) in SeededNodes(players, rounds)
    ensures var node := SeededNodes(players, rounds)[(r, i)];
      && node.status == AwaitingFunding && node.winner.None? && node.resultLedger.None? && !node.funded1 && !node.funded2
      && (r > 0 ==> node == EMPTY_NODE)
  {
  }

  lemma NewBracketInv(c: Config, fee: int, players: seq<Address>, schedule: seq<int>, now: U32)
    requires |players| >= 2 && |players| <= 64 && IsPowerOfTwo(|players|) && fee >= 1
    requires EntrantsVerdict(players, |players|).None?
    ensures Inv(NewBracket(c, fee, players, schedule, now))
    ensures forall key :: key in NewBracket(c, fee, players, schedule, now).nodes
              ==> NewBracket(c, fee, players, schedule, now).nodes[key].status == AwaitingFunding
  {
    hide SeededNodes, SeedPosition, EntrantsVerdict, Shape, SlotOfSeed;
    var b := NewBracket(c, fee, players, schedule, now);
    var n := |players|;
    NewBracketShape(c, fee, players, schedule, now);
    ShapeHasSlots(b);
    forall k: nat | k < n ensures Slot(b.nodes, k).Some? && !Funded(b.nodes, k) {
      NewBracketSlot(c, fee, players, schedule, now, k);
    }
    forall j: nat, k: nat | j < k < n ensures Slot(b.nodes, j) != Slot(b.nodes, k) {
      var p, q := SeedPosition(j, n), SeedPosition(k, n);
      NewBracketSlot(c, fee, players, schedule, now, j);
      NewBracketSlot(c, fee, players, schedule, now, k);
      SeedPositionBijective(n, j, j);
      SeedPositionBijective(n, k, k);
      if p < q {
        EntrantsDistinct(players, n, q, p);
      } else {
        EntrantsDistinct(players, n, p, q);
      }
    }
    NobodyFunded(b.nodes, n);
    forall r: nat, i: nat {:trigger Wired(b, r, i)} | (r, i) in b.nodes && r > 0 ensures Wired(b, r, i) {
      ChildrenInTree(b, r, i);
      NewNodes(players, b.info.rounds, r, i);
      NewNodes(players, b.info.rounds, r - 1, 2 * i);
      NewNodes(players, b.info.rounds, r - 1, 2 * i + 1);
    }
    forall key | key in b.nodes ensures b.nodes[key].status == AwaitingFunding {
      NewNodes(players, b.info.rounds, key.0, key.1);
    }
    forall r: nat, i: nat {:trigger NodeOk(b, r, i)} | (r, i) in b.nodes ensures NodeOk(b, r, i) {
      NewNodes(players, b.info.rounds, r, i);
    }
    FinalInTree(b);
    NewNodes(players, b.info.rounds, b.info.rounds - 1, 0);
  }

  // ---------------------------- deposits ----------------------------

  lemma {:induction false} FundCounts(b: Bracket, k: nat, m: nat)
    requires Shape(b) && k < b.info.playerCount && m <= b.info.playerCount
    requires HasSlots(b.nodes, b.info.playerCount) && HasSlots(Fund(b, k).nodes, b.info.playerCount)
    requires !Funded(b.nodes, k)
    ensures CountFunded(Fund(b, k).nodes, m) == CountFunded(b.nodes, m) + (if k < m then 1 else 0)
  {
    if m > 0 {
      FundCounts(b, k, m - 1);
      var j := m - 1;
      assert (0, j / 2) in b.nodes;
      assert j / 2 == k / 2 && j % 2 == k % 2 ==> j == k;
    }
  }

  lemma FundKeepsSlots(b: Bracket, k: nat, j: nat)
    requires Shape(b) && k < b.info.playerCount && j < b.info.playerCount
    requires HasSlots(b.nodes, b.info.playerCount)
    ensures (0, j / 2) in Fund(b, k).nodes && Shape(Fund(b, k))
    ensures Slot(Fund(b, k).nodes, j) == Slot(b.nodes, j)
    ensures Funded(Fund(b, k).nodes, j) <==> Funded(b.nodes, j) || j == k
  {
    assert (0, j / 2) in b.nodes && (0, k / 2) in b.nodes;
    assert j / 2 == k / 2 && j % 2 == k % 2 ==> j == k;
  }

  lemma FundMoney(b: Bracket, k: nat)
    requires Inv(b) && !Terminal(b.info.phase)
    requires HasSlots(b.nodes, b.info.playerCount)
    requires k < b.info.playerCount && !Funded(b.nodes, k) && Slot(b.nodes, k) != Some(SELF)
    ensures Shape(Fund(b, k)) && SeedsDistinct(Fund(b, k)) && MoneyOk(Fund(b, k))
    ensures Fund(b, k).info.fundedCount == b.info.fundedCount + 1 <= b.info.playerCount
  {
    hide Wired, NodeOk;
    var b' := Fund(b, k);
    var n := b.info.playerCount;
    FundKeepsSlots(b, k, k);
    ShapeHasSlots(b');
    forall j: nat | j < n
      ensures (0, j / 2) in b'.nodes && Slot(b'.nodes, j) == Slot(b.nodes, j) && (Funded(b'.nodes, j) <==> Funded(b.nodes, j) || j == k)
    {
      FundKeepsSlots(b, k, j);
    }
    FundCounts(b, k, n);
    CountBelowAll(b.nodes, n, k);
  }

  lemma FundInv(b: Bracket, k: nat)
    requires Inv(b) && !Terminal(b.info.phase)
    requires HasSlots(b.nodes, b.info.playerCount)
    requires k < b.info.playerCount && !Funded(b.nodes, k) && Slot(b.nodes, k) != Some(SELF)
    ensures Inv(Fund(b, k))
    ensures Undecided(Fund(b, k).nodes) == Undecided(b.nodes)
    ensures Fund(b, k).info.fundedCount == b.info.fundedCount + 1
  {
    hide SeedsDistinct, MoneyOk;
    var b' := Fund(b, k);
    assert (0, k / 2) in b.nodes;
    FundMoney(b, k);
    assert NodeOk(b, 0, k / 2);
    assert b.nodes[(0, k / 2)].status == AwaitingFunding;
    forall r: nat, i: nat {:trigger NodeOk(b', r, i)} | (r, i) in b'.nodes ensures NodeOk(b', r, i) {
      assert NodeOk(b, r, i);
    }
    forall r: nat, i: nat {:trigger Wired(b', r, i)} | (r, i) in b'.nodes && r > 0 ensures Wired(b', r, i) {
      assert Wired(b, r, i);
      ChildrenInTree(b, r, i);
    }
    assert b'.nodes[(0, k / 2)].winner == b.nodes[(0, k / 2)].winner;
    FinalInTree(b);
  }

  /** A missing fee keeps the count below the field size. */
  lemma {:induction false} CountBelowAll(nodes: Nodes, m: nat, k: nat)
    requires HasSlots(nodes, m) && k < m && !Funded(nodes, k)
    ensures CountFunded(nodes, m) < m
  {
    if k < m - 1 {
      CountBelowAll(nodes, m - 1, k);
    }
  }

  // ---------------------------- results ----------------------------

  lemma DecideOthers(b: Bracket, r: nat, i: nat, w: Address, now: nat, r': nat, i': nat)
    requires Shape(b) && (r, i) in b.nodes && (r', i') in b.nodes
    requires r + 1 < b.info.rounds ==> (r + 1, i / 2) in b.nodes
    ensures (r', i') in Decide(b, r, i, w, now).nodes
    ensures var node', node := Decide(b, r, i, w, now).nodes[(r', i')], b.nodes[(r', i')];
      && node'.winner == (if (r', i') == (r, i) then Some(w) else node.winner)
      && node'.resultLedger == (if (r', i') == (r, i) then Some(now) else node.resultLedger)
      && node'.funded1 == node.funded1 && node'.funded2 == node.funded2
      && node'.player1 == (if r' == r + 1 && i == 2 * i' then Some(w) else node.player1)
      && node'.player2 == (if r' == r + 1 && i == 2 * i' + 1 then Some(w) else node.player2)
  {
    if r' == r + 1 {
      assert InTree(b.info.rounds, r', i');
    }
  }

  lemma DecideShape(b: Bracket, r: nat, i: nat, w: Address, now: nat)
    requires Shape(b) && (r, i) in b.nodes
    requires r + 1 < b.info.rounds ==> (r + 1, i / 2) in b.nodes
    ensures Shape(Decide(b, r, i, w, now))
  {
  }

  lemma {:induction false} SameFunding(a: Nodes, c: Nodes, m: nat)
    requires HasSlots(a, m) && HasSlots(c, m)
    requires forall k: nat :: k < m ==> (Funded(a, k) <==> Funded(c, k))
    ensures CountFunded(a, m) == CountFunded(c, m)
  {
    if m > 0 {
      SameFunding(a, c, m - 1);
    }
  }

  /** The node that is about to be decided and the parent that takes its winner. */
  lemma Deciding(b: Bracket, r: nat, i: nat)
    requires Inv(b) && !Terminal(b.info.phase)
    requires (r, i) in b.nodes && b.nodes[(r, i)].status == AwaitingResult
    ensures BothKnown(b.nodes[(r, i)]) && b.nodes[(r, i)].winner.None?
    ensures r + 1 < b.info.rounds ==>
      (r + 1, i / 2) in b.nodes && b.nodes[(r + 1, i / 2)].status == AwaitingFunding && b.nodes[(r + 1, i / 2)].winner.None?
  {
    ParentInTree(b, r, i);
    assert NodeOk(b, r, i);
    if r == 0 {
      RoundZeroKnown(b, i);
    }
    if r + 1 < b.info.rounds {
      assert Wired(b, r + 1, i / 2);
      assert NodeOk(b, r + 1, i / 2);
      ChildrenInTree(b, r + 1, i / 2);
    }
  }

  lemma DecideNodeOk(b: Bracket, r: nat, i: nat, w: Address, now: nat, r': nat, i': nat)
    requires Inv(b) && !Terminal(b.info.phase)
    requires (r, i) in b.nodes && b.nodes[(r, i)].status == AwaitingResult
    requires b.nodes[(r, i)].player1 == Some(w) || b.nodes[(r, i)].player2 == Some(w)
    requires r + 1 < b.info.rounds ==> (r + 1, i / 2) in b.nodes
    requires (r', i') in b.nodes
    ensures (r', i') in Decide(b, r, i, w, now).nodes
    ensures NodeOk(Decide(b, r, i, w, now), r', i')
  {
    Deciding(b, r, i);
    DecideOthers(b, r, i, w, now, r', i');
    assert NodeOk(b, r', i') && NodeOk(b, r, i);
  }

  lemma DecideMoney(b: Bracket, r: nat, i: nat, w: Address, now: nat)
    requires Inv(b) && !Terminal(b.info.phase)
    requires (r, i) in b.nodes
    requires r + 1 < b.info.rounds ==> (r + 1, i / 2) in b.nodes
    ensures Shape(Decide(b, r, i, w, now)) && SeedsDistinct(Decide(b, r, i, w, now)) && MoneyOk(Decide(b, r, i, w, now))
  {
    var b' := Decide(b, r, i, w, now);
    DecideShape(b, r, i, w, now);
    ShapeHasSlots(b);
    ShapeHasSlots(b');
    forall k: nat | k < b.info.playerCount
      ensures Slot(b'.nodes, k) == Slot(b.nodes, k) && (Funded(b'.nodes, k) <==> Funded(b.nodes, k))
    {
      DecideOthers(b, r, i, w, now, 0, k / 2);
    }
    SameFunding(b'.nodes, b.nodes, b.info.playerCount);
  }

  lemma DecideInv(b: Bracket, r: nat, i: nat, w: Address, now: nat)
    requires Inv(b) && !Terminal(b.info.phase)
    requires (r, i) in b.nodes && b.nodes[(r, i)].status == AwaitingResult
    requires b.nodes[(r, i)].player1 == Some(w) || b.nodes[(r, i)].player2 == Some(w)
    requires r + 1 < b.info.rounds ==> (r + 1, i / 2) in b.nodes
    ensures Inv(Decide(b, r, i, w, now))
    ensures Undecided(Decide(b, r, i, w, now).nodes) == Undecided(b.nodes) - {(r, i)}
    ensures (r, i) in Undecided(b.nodes)
  {
    hide SeedsDistinct, MoneyOk, Wired;
    var b' := Decide(b, r, i, w, now);
    DecideMoney(b, r, i, w, now);
    Deciding(b, r, i);
    ParentInTree(b, r, i);
    forall r': nat, i': nat {:trigger Wired(b', r', i')} | (r', i') in b'.nodes && r' > 0 ensures Wired(b', r', i') {
      DecideWired(b, r, i, w, now, r', i');
    }
    forall r': nat, i': nat {:trigger NodeOk(b', r', i')} | (r', i') in b'.nodes ensures NodeOk(b', r', i') {
      DecideNodeOk(b, r, i, w, now, r', i');
    }
    FinalInTree(b);
    DecideOthers(b, r, i, w, now, b.info.rounds - 1, 0);
  }

  lemma RoundZeroKnown(b: Bracket, i: nat)
    requires Inv(b) && (0, i) in b.nodes
    ensures BothKnown(b.nodes[(0, i)])
  {
    ShapeHasSlots(b);
    assert InTree(b.info.rounds, 0, i);
    assert Slot(b.nodes, 2 * i).Some? && Slot(b.nodes, 2 * i + 1).Some?;
  }

  lemma DecideWired(b: Bracket, r: nat, i: nat, w: Address, now: nat, r': nat, i': nat)
    requires Inv(b) && (r, i) in b.nodes && (r', i') in b.nodes && r' > 0
    requires r + 1 < b.info.rounds ==> (r + 1, i / 2) in b.nodes
    ensures Shape(Decide(b, r, i, w, now)) && (r', i') in Decide(b, r, i, w, now).nodes
    ensures Wired(Decide(b, r, i, w, now), r', i')
  {
    var b' := Decide(b, r, i, w, now);
    DecideShape(b, r, i, w, now);
    assert Wired(b, r', i');
    ChildrenInTree(b, r', i');
    DecideOthers(b, r, i, w, now, r', i');
    DecideOthers(b, r, i, w, now, r' - 1, 2 * i');
    DecideOthers(b, r, i, w, now, r' - 1, 2 * i' + 1);
  }

  // ---------------------------- refunds ----------------------------

  function Closed(b: Bracket, now: nat): Bracket {
    Bracket(b.info.(phase := Cancelled, completedLedger := Some(now), fundedCount := 0),
            if b.info.fundedCount == 0 then b.nodes else ClearFlags(b.nodes, b.info.playerCount / 2))
  }

  lemma ClosedMoney(b: Bracket, now: nat)
    requires Inv(b) && !Terminal(b.info.phase)
    ensures Shape(Closed(b, now)) && SeedsDistinct(Closed(b, now)) && MoneyOk(Closed(b, now))
  {
    hide Wired, NodeOk;
    var b' := Closed(b, now);
    var n := b.info.playerCount;
    ShapeHasSlots(b);
    ShapeHasSlots(b');
    forall k: nat | k < n ensures Slot(b'.nodes, k) == Slot(b.nodes, k) && !Funded(b'.nodes, k) {
      assert (0, k / 2) in b.nodes;
      if b.info.fundedCount == 0 && Funded(b.nodes, k) {
        SomeoneFunded(b.nodes, n, k);
      }
    }
    NobodyFunded(b'.nodes, n);
  }

  lemma ClosedInv(b: Bracket, now: nat)
    requires Inv(b) && !Terminal(b.info.phase)
    ensures Inv(Closed(b, now))
    ensures Undecided(Closed(b, now).nodes) == Undecided(b.nodes)
  {
    hide SeedsDistinct, MoneyOk;
    var b' := Closed(b, now);
    ClosedMoney(b, now);
    forall r: nat, i: nat {:trigger Wired(b', r, i)} | (r, i) in b'.nodes && r > 0 ensures Wired(b', r, i) {
      assert Wired(b, r, i);
      ChildrenInTree(b, r, i);
    }
    forall r: nat, i: nat {:trigger NodeOk(b', r, i)} | (r, i) in b'.nodes ensures NodeOk(b', r, i) {
      assert NodeOk(b, r, i);
    }
    FinalInTree(b);
  }

  lemma {:induction false} SomeoneFunded(nodes: Nodes, m: nat, k: nat)
    requires HasSlots(nodes, m) && k < m && Funded(nodes, k)
    ensures CountFunded(nodes, m) > 0
  {
    if k < m - 1 {
      SomeoneFunded(nodes, m - 1, k);
    }
  }
}
