/** Structure of a reachable bracket: who can stand in a node, when the final is decided, and that play never stalls. */
module TournamentTheorems {
  import opened Types
  import opened TournamentModel
  import opened TournamentBracket

  function Entrant(node: Node, side: nat): Option<Address> {
    if side == 0 then node.player1 else node.player2
  }

  /** `p` was seeded in slot `k`, one of the slots below entry `side` of node (r, i). */
  ghost predicate SeededBelow(b: Bracket, p: Address, r: nat, i: nat, side: nat, k: nat)
    requires Shape(b)
  {
    ShapeHasSlots(b);
    k < b.info.playerCount && Slot(b.nodes, k) == Some(p) && ShiftRight(k, r) == 2 * i + side
  }

  /** Entry `side` of node (r, i) holds someone seeded below that entry, whatever the order of results. */
  lemma {:induction false} EntrantSeededBelow(b: Bracket, r: nat, i: nat, side: nat)
    requires Inv(b) && (r, i) in b.nodes && side < 2
    requires Entrant(b.nodes[(r, i)], side).Some?
    ensures exists k: nat :: SeededBelow(b, Entrant(b.nodes[(r, i)], side).value, r, i, side, k)
    decreases r
  {
    hide SeedsDistinct, PhaseOk;
    var p := Entrant(b.nodes[(r, i)], side).value;
    ShapeHasSlots(b);
    assert InTree(b.info.rounds, r, i);
    if r == 0 {
      assert SeededBelow(b, p, 0, i, side, 2 * i + side);
    } else {
      assert Wired(b, r, i);
      ChildrenInTree(b, r, i);
      var c := 2 * i + side;
      assert NodeOk(b, r - 1, c);
      var from := if b.nodes[(r - 1, c)].winner == b.nodes[(r - 1, c)].player1 then 0 else 1;
      EntrantSeededBelow(b, r - 1, c, from);
      var k: nat :| SeededBelow(b, p, r - 1, c, from, k);
      ShiftAgain(k, r - 1);
      assert SeededBelow(b, p, r, i, side, k);
    }
  }

  /** Every entry above round 0 that is filled holds the recorded winner of the child that feeds it. */
  lemma EntrantWonChild(b: Bracket, r: nat, i: nat, side: nat)
    requires Inv(b) && (r, i) in b.nodes && r > 0 && side < 2
    ensures (r - 1, 2 * i + side) in b.nodes
    ensures Entrant(b.nodes[(r, i)], side) == b.nodes[(r - 1, 2 * i + side)].winner
    ensures Entrant(b.nodes[(r, i)], side).Some? <==> b.nodes[(r - 1, 2 * i + side)].status == Decided
  {
    assert Wired(b, r, i);
    ChildrenInTree(b, r, i);
    assert NodeOk(b, r - 1, 2 * i + side);
  }

  /** No node ever pairs a player with themselves. */
  lemma EntrantsDiffer(b: Bracket, r: nat, i: nat)
    requires Inv(b) && (r, i) in b.nodes && BothKnown(b.nodes[(r, i)])
    ensures b.nodes[(r, i)].player1 != b.nodes[(r, i)].player2
  {
    EntrantSeededBelow(b, r, i, 0);
    EntrantSeededBelow(b, r, i, 1);
    var j: nat :| SeededBelow(b, b.nodes[(r, i)].player1.value, r, i, 0, j);
    var k: nat :| SeededBelow(b, b.nodes[(r, i)].player2.value, r, i, 1, k);
    ShapeHasSlots(b);
    assert j != k;
  }

  // ---------------------------- the final ----------------------------

  lemma {:induction false} DecidedBelowFinal(b: Bracket, r: nat, i: nat)
    requires Inv(b) && b.info.phase == Completed && (r, i) in b.nodes
    ensures b.nodes[(r, i)].status == Decided
    decreases b.info.rounds - r
  {
    ParentInTree(b, r, i);
    assert NodeOk(b, r, i);
    if r + 1 < b.info.rounds {
      DecidedBelowFinal(b, r + 1, i / 2);
      assert NodeOk(b, r + 1, i / 2);
      EntrantWonChild(b, r + 1, i / 2, i % 2);
    } else {
      FinalInTree(b);
    }
  }

  lemma {:induction false} AllFundedCount(nodes: Nodes, m: nat)
    requires HasSlots(nodes, m) && forall k: nat :: k < m ==> Funded(nodes, k)
    ensures CountFunded(nodes, m) == m
  {
    if m > 0 {
      AllFundedCount(nodes, m - 1);
    }
  }

  /** A decided final means every node is decided and every entrant has paid, so the prize is what was collected. */
  lemma FinalMeansAllPaid(b: Bracket)
    requires Inv(b) && b.info.phase == Completed
    ensures Undecided(b.nodes) == {}
    ensures HasSlots(b.nodes, b.info.playerCount)
    ensures forall k: nat :: k < b.info.playerCount ==> Funded(b.nodes, k)
    ensures b.info.fundedCount == b.info.playerCount
  {
    ShapeHasSlots(b);
    forall key | key in b.nodes ensures b.nodes[key].status == Decided {
      DecidedBelowFinal(b, key.0, key.1);
    }
    assert Undecided(b.nodes) == {};
    forall k: nat | k < b.info.playerCount ensures Funded(b.nodes, k) {
      assert (0, k / 2) in b.nodes;
      assert NodeOk(b, 0, k / 2);
    }
    AllFundedCount(b.nodes, b.info.playerCount);
  }

  // ---------------------------- progress ----------------------------

  ghost predicate SomeNodeAwaits(b: Bracket) {
    exists key :: key in b.nodes && b.nodes[key].status == AwaitingResult
  }

  lemma {:induction false} UndecidedHasWork(b: Bracket, r: nat, i: nat)
    requires Inv(b) && (r, i) in b.nodes && b.nodes[(r, i)].status != Decided
    requires !Terminal(b.info.phase) && b.info.fundedCount == b.info.playerCount
    ensures SomeNodeAwaits(b)
    decreases r
  {
    hide SeedsDistinct, PhaseOk;
    assert NodeOk(b, r, i);
    ShapeHasSlots(b);
    if b.nodes[(r, i)].status == AwaitingResult {
    } else if r == 0 {
      assert InTree(b.info.rounds, 0, i);
      if !Funded(b.nodes, 2 * i) {
        CountBelowAll(b.nodes, b.info.playerCount, 2 * i);
      }
      if !Funded(b.nodes, 2 * i + 1) {
        CountBelowAll(b.nodes, b.info.playerCount, 2 * i + 1);
      }
    } else {
      EntrantWonChild(b, r, i, 0);
      EntrantWonChild(b, r, i, 1);
      if b.nodes[(r, i)].player1.None? {
        UndecidedHasWork(b, r - 1, 2 * i);
      } else {
        UndecidedHasWork(b, r - 1, 2 * i + 1);
      }
    }
  }

  /** A fully paid tournament that is not over always has a node the oracle can decide. */
  lemma FullyPaidCanProgress(b: Bracket)
    requires Inv(b) && !Terminal(b.info.phase) && b.info.fundedCount == b.info.playerCount
    ensures SomeNodeAwaits(b)
  {
    FinalInTree(b);
    assert NodeOk(b, b.info.rounds - 1, 0);
    UndecidedHasWork(b, b.info.rounds - 1, 0);
  }

  /** While a tournament is not Completed its final is among the undecided nodes. */
  lemma FinalStillOpen(b: Bracket)
    requires Inv(b) && b.info.phase != Completed
    ensures Final(b) in Undecided(b.nodes) && |Undecided(b.nodes)| >= 1
  {
    FinalInTree(b);
    assert NodeOk(b, b.info.rounds - 1, 0);
    assert Final(b) in Undecided(b.nodes);
  }

  // ---------------------------- size of the tree ----------------------------

  ghost function Row(r: nat, c: nat): set<(nat, nat)> {
    set i: nat | i < c :: (r, i)
  }

  lemma {:induction false} RowSize(r: nat, c: nat)
    ensures |Row(r, c)| == c
  {
    if c > 0 {
      RowSize(r, c - 1);
      assert Row(r, c) == Row(r, c - 1) + {(r, c - 1)};
    } else {
      assert Row(r, 0) == {};
    }
  }

  /** The keys of the first `m` rounds of a tree over 2^rounds entrants. */
  ghost function TreeKeys(rounds: nat, m: nat): set<(nat, nat)>
    requires m <= rounds
  {
    if m == 0 then {} else TreeKeys(rounds, m - 1) + Row(m - 1, Pow2(rounds - m))
  }

  lemma {:induction false} TreeKeysAre(rounds: nat, m: nat, r: nat, i: nat)
    requires m <= rounds
    ensures (r, i) in TreeKeys(rounds, m) <==> r < m && InTree(rounds, r, i)
    decreases m
  {
    if m > 0 {
      TreeKeysAre(rounds, m - 1, r, i);
    }
  }

  lemma {:induction false} TreeKeysBelow(rounds: nat, m: nat)
    requires m <= rounds
    ensures forall key :: key in TreeKeys(rounds, m) ==> key.0 < m
  {
    if m > 0 {
      TreeKeysBelow(rounds, m - 1);
    }
  }

  lemma RowIsNew(rounds: nat, m: nat)
    requires 0 < m <= rounds
    ensures TreeKeys(rounds, m - 1) !! Row(m - 1, Pow2(rounds - m))
  {
    TreeKeysBelow(rounds, m - 1);
    hide TreeKeys;
  }

  lemma {:induction false} TreeSize(rounds: nat, m: nat)
    requires m <= rounds
    ensures |TreeKeys(rounds, m)| == Pow2(rounds) - Pow2(rounds - m)
    decreases m
  {
    if m > 0 {
      TreeSize(rounds, m - 1);
      hide Row;
      RowSize(m - 1, Pow2(rounds - m));
      RowIsNew(rounds, m);
    }
  }

  /** 2^rounds is the field size and the tree has one node fewer than it has entrants. */
  lemma TreeHasOneNodeFewer(b: Bracket)
    requires Shape(b)
    ensures |b.nodes.Keys| == b.info.playerCount - 1
  {
    TreeSize(b.info.rounds, b.info.rounds);
    forall r: nat, i: nat ensures (r, i) in b.nodes <==> (r, i) in TreeKeys(b.info.rounds, b.info.rounds) {
      TreeKeysAre(b.info.rounds, b.info.rounds, r, i);
    }
    assert forall key :: key in b.nodes.Keys <==> (key.0, key.1) in TreeKeys(b.info.rounds, b.info.rounds);
    assert b.nodes.Keys == TreeKeys(b.info.rounds, b.info.rounds);
  }

  function NodeCountSum(n: nat, rounds: nat): nat {
    if rounds == 0 then 0 else NodeCountSum(n, rounds - 1) + NodeCount(n, rounds - 1)
  }

  lemma {:induction false} NodeCountsAddUp(e: nat, m: nat)
    requires m <= e
    ensures NodeCountSum(Pow2(e), m) == Pow2(e) - Pow2(e - m)
    decreases m
  {
    if m > 0 {
      NodeCountsAddUp(e, m - 1);
      ShiftOfPow2(e, m);
    }
  }

  /** `node_count` over the rounds of an accepted field adds up to n - 1. */
  lemma AcceptedFieldNodeCounts(n: nat)
    requires IsPowerOfTwo(n)
    ensures Pow2(TrailingZeros(n)) == n
    ensures NodeCountSum(n, TrailingZeros(n)) == n - 1
  {
    PowerOfTwoIsPow2(n);
    NodeCountsAddUp(TrailingZeros(n), TrailingZeros(n));
  }

  // ---------------------------- who can meet whom ----------------------------

  ghost predicate EntrantOf(node: Node, p: Option<Address>) {
    p.Some? && (node.player1 == p || node.player2 == p)
  }

  lemma {:induction false} ShiftsStayEqual(x: nat, y: nat, lo: nat, hi: nat)
    requires lo <= hi && ShiftRight(x, lo) == ShiftRight(y, lo)
    ensures ShiftRight(x, hi) == ShiftRight(y, hi)
    decreases hi
  {
    if lo < hi {
      ShiftsStayEqual(x, y, lo, hi - 1);
      ShiftAgain(x, hi - 1);
      ShiftAgain(y, hi - 1);
    }
  }

  /** The slot of whoever stands at entry `side` of node (r, i) shifts to that entry. */
  lemma EntrantSlot(b: Bracket, r: nat, i: nat, side: nat, j: nat)
    requires Inv(b) && (r, i) in b.nodes && HasSlots(b.nodes, b.info.playerCount)
    requires side < 2 && j < b.info.playerCount
    requires Slot(b.nodes, j).Some? && Entrant(b.nodes[(r, i)], side) == Slot(b.nodes, j)
    ensures ShiftRight(j, r) == 2 * i + side && ShiftRight(j, r + 1) == i
  {
    hide Inv;
    InvShape(b);
    EntrantSeededBelow(b, r, i, side);
    var k: nat :| SeededBelow(b, Slot(b.nodes, j).value, r, i, side, k);
    SlotsAreUnique(b, k, j, j);
    ShiftAgain(j, r);
  }

  /** Two players in one node come from its two halves. */
  lemma MeetingSlots(b: Bracket, r: nat, i: nat, j: nat, k: nat)
    requires Inv(b) && (r, i) in b.nodes && HasSlots(b.nodes, b.info.playerCount)
    requires j < b.info.playerCount && k < b.info.playerCount && j != k
    requires EntrantOf(b.nodes[(r, i)], Slot(b.nodes, j)) && EntrantOf(b.nodes[(r, i)], Slot(b.nodes, k))
    ensures ShiftRight(j, r) != ShiftRight(k, r)
    ensures ShiftRight(j, r + 1) == ShiftRight(k, r + 1) == i
  {
    hide Inv, Slot;
    SlotsAreUnique(b, j, k, k);
    var side := if b.nodes[(r, i)].player1 == Slot(b.nodes, j) then 0 else 1;
    EntrantSlot(b, r, i, side, j);
    EntrantSlot(b, r, i, 1 - side, k);
  }

  lemma SlotsAreUnique(b: Bracket, p: nat, j: nat, k: nat)
    requires Inv(b) && HasSlots(b.nodes, b.info.playerCount)
    requires p < b.info.playerCount && j < b.info.playerCount && k < b.info.playerCount
    ensures Slot(b.nodes, p) == Slot(b.nodes, j) <==> p == j
    ensures Slot(b.nodes, p) == Slot(b.nodes, k) <==> p == k
  {
  }

  lemma FoldedShift(k: nat, r: nat)
    ensures ShiftRight(k, r + 1) == ShiftRight(k / 2, r)
  {
  }

  /** Seeds a and c can share a node only in the first round where the folded positions
      min(a, n-1-a) and min(c, n-1-c) shift to the same number. */
  lemma SeedsMeetAtFoldedRound(b: Bracket, r: nat, i: nat, a: nat, c: nat, r': nat)
    requires Inv(b) && (r, i) in b.nodes && HasSlots(b.nodes, b.info.playerCount)
    requires b.info.playerCount % 2 == 0
    requires a < b.info.playerCount && c < b.info.playerCount && a != c
    requires EntrantOf(b.nodes[(r, i)], Slot(b.nodes, SlotOfSeed(a, b.info.playerCount)))
    requires EntrantOf(b.nodes[(r, i)], Slot(b.nodes, SlotOfSeed(c, b.info.playerCount)))
    ensures var n := b.info.playerCount;
      && ShiftRight(Min(a, n - 1 - a), r) == ShiftRight(Min(c, n - 1 - c), r) == i
      && (r' < r ==> ShiftRight(Min(a, n - 1 - a), r') != ShiftRight(Min(c, n - 1 - c), r'))
  {
    hide Inv, Slot, ShiftRight, SlotOfSeed, Min, HasSlots, EntrantOf, Shape;
    InvShape(b);
    var n := b.info.playerCount;
    FoldedSeeds(n, a, c);
    MeetingSlots(b, r, i, SlotOfSeed(a, n), SlotOfSeed(c, n));
    FoldedMeeting(SlotOfSeed(a, n), SlotOfSeed(c, n), r, i, r');
  }

  lemma FoldedSeeds(n: nat, a: nat, c: nat)
    requires n % 2 == 0 && a < n && c < n && a != c
    ensures SlotOfSeed(a, n) != SlotOfSeed(c, n)
    ensures SlotOfSeed(a, n) < n && SlotOfSeed(a, n) / 2 == Min(a, n - 1 - a)
    ensures SlotOfSeed(c, n) < n && SlotOfSeed(c, n) / 2 == Min(c, n - 1 - c)
  {
  }

  lemma FoldedMeeting(j: nat, k: nat, r: nat, i: nat, r': nat)
    requires ShiftRight(j, r) != ShiftRight(k, r)
    requires ShiftRight(j, r + 1) == ShiftRight(k, r + 1) == i
    ensures ShiftRight(j / 2, r) == ShiftRight(k / 2, r) == i
    ensures r' < r ==> ShiftRight(j / 2, r') != ShiftRight(k / 2, r')
  {
    FoldedShift(j, r);
    FoldedShift(k, r);
    if r' < r {
      FoldedShift(j, r - 1);
      FoldedShift(k, r - 1);
      if ShiftRight(j / 2, r') == ShiftRight(k / 2, r') {
        ShiftsStayEqual(j / 2, k / 2, r', r - 1);
      }
    }
  }

  /** The two top seeds are paired in the final only in fields of two and four. With eight or more
      entrants they can only meet in round 1, which is not the final. */
  lemma TopSeedsMeetOnlyInFinalUpToFour(b: Bracket, r: nat, i: nat)
    requires Inv(b) && (r, i) in b.nodes && HasSlots(b.nodes, b.info.playerCount)
    requires b.info.playerCount % 2 == 0
    requires EntrantOf(b.nodes[(r, i)], Slot(b.nodes, SlotOfSeed(0, b.info.playerCount)))
    requires EntrantOf(b.nodes[(r, i)], Slot(b.nodes, SlotOfSeed(1, b.info.playerCount)))
    ensures r == (if b.info.playerCount == 2 then 0 else 1) && i == 0
    ensures (r, i) == Final(b) <==> b.info.playerCount <= 4
  {
    var n := b.info.playerCount;
    assert Pow2(0) == 1 && Pow2(1) == 2 && Pow2(2) == 4;
    assert InTree(b.info.rounds, r, i);
    SeedsMeetAtFoldedRound(b, r, i, 0, 1, 0);
    if n > 2 {
      assert n >= 4 by {
        if b.info.rounds >= 2 {
          Pow2Grows(2, b.info.rounds);
        }
      }
      assert ShiftRight(0, 0) != ShiftRight(1, 0);
      assert ShiftRight(0, 1) == ShiftRight(1, 1);
      if r > 1 {
        SeedsMeetAtFoldedRound(b, r, i, 0, 1, 1);
      }
    }
    if b.info.rounds >= 3 {
      Pow2Grows(3, b.info.rounds);
    }
  }
}
