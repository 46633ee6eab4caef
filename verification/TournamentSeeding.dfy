/** Who can meet whom, in terms of the list of entrants given at creation, and when a node can be decided. */
module TournamentSeeding {
  import opened Types
  import opened Token
  import opened TournamentModel
  import opened TournamentBracket
  import opened TournamentTheorems
  import opened TournamentRuns
  import opened TournamentHistory

  /** Entry `side` of a node holds the player at position `a` of the list. */
  ghost predicate Stands(node: Node, side: nat, players: seq<Address>, a: nat) {
    a < |players| && Entrant(node, side) == Some(players[a])
  }

  lemma SeedInSlot(b: Bracket, players: seq<Address>, a: nat)
    requires Inv(b) && SeededAs(b, players) && a < |players|
    ensures |players| % 2 == 0 && SlotOfSeed(a, |players|) < |players| && (0, SlotOfSeed(a, |players|) / 2) in b.nodes
    ensures Slot(b.nodes, SlotOfSeed(a, |players|)) == Some(players[a])
  {
    hide Inv, Slot, SeedPosition, SlotOfSeed;
    InvShape(b);
    SeedPositionBijective(|players|, a, a);
    assert SlotSeeded(b.nodes, players, SlotOfSeed(a, |players|));
  }

  lemma SlotHoldsSeed(b: Bracket, players: seq<Address>, k: nat)
    requires SeededAs(b, players) && k < |players|
    ensures (0, k / 2) in b.nodes && 0 <= SeedPosition(k, |players|) < |players|
    ensures Slot(b.nodes, k) == Some(players[SeedPosition(k, |players|)])
  {
    assert SlotSeeded(b.nodes, players, k);
  }

  /** In every run, whoever stands in entry `side` of node (r, i) is a player of the list whose seed lies in
      the block of slots below that entry. */
  lemma EntrantFromItsBlock(s: State, txs: seq<Tx>, id: nat, r: nat, i: nat, side: nat) returns (a: nat)
    requires StateInv(s) && Genesis(s) && HostRun(txs)
    requires Run(s, txs).config.Some? && id < Run(s, txs).count && side < 2
    requires (r, i) in Run(s, txs).brackets[id].nodes && Entrant(Run(s, txs).brackets[id].nodes[(r, i)], side).Some?
    ensures var players := Field(s, txs, id);
      && Stands(Run(s, txs).brackets[id].nodes[(r, i)], side, players, a)
      && |players| % 2 == 0 && ShiftRight(SlotOfSeed(a, |players|), r) == 2 * i + side
  {
    hide Inv, SeededAs, Slot, Field, Run, SlotOfSeed, SeedPosition, ShiftRight;
    var e := Run(s, txs);
    var b, players := e.brackets[id], Field(s, txs, id);
    assert OkWith(b, e.config.value.token);
    EntriesAsCreated(s, txs, id);
    FieldSize(b, players);
    InvShape(b);
    EntrantSeededBelow(b, r, i, side);
    var k: nat :| SeededBelow(b, Entrant(b.nodes[(r, i)], side).value, r, i, side, k);
    SlotHoldsSeed(b, players, k);
    a := SeedPosition(k, |players|);
    SeedPositionBijective(|players|, k, 0);
  }

  /** In every run, if the players seeded a and c stand in the same node, it is in the first round where the
      folded seeds min(a, n-1-a) and min(c, n-1-c) shift to the same number. */
  lemma SeedsMeetInRuns(s: State, txs: seq<Tx>, id: nat, r: nat, i: nat, a: nat, c: nat, r': nat)
    requires StateInv(s) && Genesis(s) && HostRun(txs)
    requires Run(s, txs).config.Some? && id < Run(s, txs).count && a != c
    requires (r, i) in Run(s, txs).brackets[id].nodes
    requires Shares(Run(s, txs).brackets[id].nodes[(r, i)], Field(s, txs, id), a, c)
    ensures var n := |Field(s, txs, id)|;
      && ShiftRight(Min(a, n - 1 - a), r) == ShiftRight(Min(c, n - 1 - c), r) == i
      && (r' < r ==> ShiftRight(Min(a, n - 1 - a), r') != ShiftRight(Min(c, n - 1 - c), r'))
  {
    hide Inv, SeededAs, Slot, Field, Run, SlotOfSeed, ShiftRight, Min;
    var e := Run(s, txs);
    var b, players := e.brackets[id], Field(s, txs, id);
    assert OkWith(b, e.config.value.token);
    EntriesAsCreated(s, txs, id);
    FieldSize(b, players);
    InvShape(b);
    SeedInSlot(b, players, a);
    SeedInSlot(b, players, c);
    SeedsMeetAtFoldedRound(b, r, i, a, c, r');
  }

  /** The players seeded a and c are the two entrants of a node. */
  ghost predicate Shares(node: Node, players: seq<Address>, a: nat, c: nat) {
    && a < |players| && c < |players|
    && (node.player1 == Some(players[a]) || node.player2 == Some(players[a]))
    && (node.player1 == Some(players[c]) || node.player2 == Some(players[c]))
  }

  /** In every run, the node that pairs the first two players of the list is the final exactly in fields of
      at most four. */
  lemma TopTwoInRuns(s: State, txs: seq<Tx>, id: nat, r: nat, i: nat)
    requires StateInv(s) && Genesis(s) && HostRun(txs)
    requires Run(s, txs).config.Some? && id < Run(s, txs).count
    requires (r, i) in Run(s, txs).brackets[id].nodes
    requires Shares(Run(s, txs).brackets[id].nodes[(r, i)], Field(s, txs, id), 0, 1)
    ensures var b, n := Run(s, txs).brackets[id], |Field(s, txs, id)|;
      && b.info.rounds > 0
      && (r, i) == (if n == 2 then 0 else 1, 0)
      && ((r, i) == Final(b) <==> n <= 4)
  {
    hide Inv, SeededAs, Slot, Field, Run, SlotOfSeed;
    var e := Run(s, txs);
    var b, players := e.brackets[id], Field(s, txs, id);
    assert OkWith(b, e.config.value.token);
    EntriesAsCreated(s, txs, id);
    FieldSize(b, players);
    InvShape(b);
    SeedInSlot(b, players, 0);
    SeedInSlot(b, players, 1);
    TopSeedsMeetOnlyInFinalUpToFour(b, r, i);
  }

  // ---------------------------- when a node can be decided ----------------------------

  /** An opening node is ready once both its entrants have paid, a later one once both its children are decided. */
  ghost predicate Ready(b: Bracket, r: nat, i: nat)
    requires Shape(b) && (r, i) in b.nodes
  {
    if r == 0 then b.nodes[(r, i)].funded1 && b.nodes[(r, i)].funded2
    else
      ChildrenInTree(b, r, i);
      b.nodes[(r - 1, 2 * i)].winner.Some? && b.nodes[(r - 1, 2 * i + 1)].winner.Some?
  }

  lemma AwaitsIffReady(b: Bracket, r: nat, i: nat)
    requires Inv(b) && (r, i) in b.nodes && b.info.phase != Cancelled
    ensures b.nodes[(r, i)].status == AwaitingResult <==> b.nodes[(r, i)].winner.None? && Ready(b, r, i)
  {
    hide SeedsDistinct, MoneyOk, PhaseOk;
    assert NodeOk(b, r, i);
    if r > 0 {
      ChildrenInTree(b, r, i);
      assert Wired(b, r, i);
    }
  }

  /** The exact guard of a result, in any state of a run whose reserve is covered: the phase of the tournament
      matters only in that it is not over, so a ready node is decided during Registration as well. */
  lemma ResultAcceptedIff(s: State, txs: seq<Tx>, id: nat, round: nat, index: nat, gameId: seq<Byte>, winner: Address, signers: set<Address>, now: U32)
    requires StateInv(s) && Genesis(s) && HostRun(txs)
    requires Run(s, txs).config.Some? && id < Run(s, txs).count
    requires Bal(s.book, Run(s, txs).config.value.token, SELF) + Gifts(s, txs, Run(s, txs).config.value.token) >= RESERVE_BUFFER
    ensures var e := Run(s, txs);
      var b := e.brackets[id];
      Submit(e, id, round, index, gameId, winner, signers, now).Ok?
      <==> && e.config.value.oracle in signers && ValidGameId(gameId)
           && !Terminal(b.info.phase) && (round, index) in b.nodes
           && b.nodes[(round, index)].winner.None? && Ready(b, round, index)
           && (b.nodes[(round, index)].player1 == Some(winner) || b.nodes[(round, index)].player2 == Some(winner))
  {
    hide Inv, Run, Decide, Ready, Pots, Gifts;
    var e := Run(s, txs);
    var b := e.brackets[id];
    assert OkWith(b, e.config.value.token);
    TokensAreConserved(s, txs, e.config.value.token);
    SubmitWithinReserve(e, id, round, index, gameId, winner, signers, now);
    if !Terminal(b.info.phase) && (round, index) in b.nodes {
      ParentInTree(b, round, index);
      AwaitsIffReady(b, round, index);
      FeesNotNegative(b);
    }
  }

  lemma FeesNotNegative(b: Bracket)
    requires Inv(b)
    ensures b.info.entryFee * b.info.playerCount >= 0
  {
  }

  // ---------------------------- a course of play ----------------------------

  /** Every call of the run is accepted. */
  ghost predicate AllAccepted(s: State, txs: seq<Tx>)
    requires StateInv(s) && HostRun(txs)
  {
    txs == [] || (AllAccepted(s, txs[..|txs| - 1]) && Accepted(Before(s, txs), txs[|txs| - 1]))
  }

  lemma OneMore(s: State, txs: seq<Tx>, tx: Tx)
    requires StateInv(s) && HostRun(txs) && HostTx(tx)
    ensures HostRun(txs + [tx]) && StateInv(Next(Run(s, txs), tx))
    ensures Run(s, txs + [tx]) == Next(Run(s, txs), tx)
    ensures AllAccepted(s, txs + [tx]) <==> AllAccepted(s, txs) && Accepted(Run(s, txs), tx)
  {
    hide Apply, Inv;
    assert (txs + [tx])[..|txs|] == txs;
    NextInv(Run(s, txs), tx);
  }

  /** The tournament is undecided, and exactly the first `paid` of its entry slots are paid for. */
  ghost predicate Collecting(s: State, id: nat, players: seq<Address>, paid: nat) {
    && StateInv(s) && s.config.Some? && id in s.brackets
    && var b := s.brackets[id];
       && SeededAs(b, players) && |players| >= 8 && b.info.phase == Registration
       && Undecided(b.nodes) == b.nodes.Keys && b.info.fundedCount == paid
       && forall k: nat {:trigger Funded(b.nodes, k)} :: k < |players| ==> (Funded(b.nodes, k) <==> k < paid)
  }

  lemma StartCollecting(s: State, tx: Tx)
    requires StateInv(s) && HostTx(tx) && Creates(s, tx) && |tx.call.players| >= 8
    ensures Collecting(Next(s, tx), s.count, tx.call.players, 0)
    ensures Next(s, tx).book == s.book && Next(s, tx).config == s.config
    ensures s.config.Some? && Next(s, tx).brackets[s.count].info.entryFee == tx.call.fee
    ensures Next(s, tx).brackets[s.count].info.token == s.config.value.token
  {
    hide Inv, EntrantsVerdict, SeededAs, SlotSeeded, SeededNodes;
    var call := tx.call;
    NextInv(s, tx);
    CreatesSeeds(s, tx);
    CreateStep(s, call.fee, call.players, call.schedule, tx.signers, tx.now);
    NewBracketInv(s.config.value, call.fee, call.players, call.schedule, tx.now);
    var b := Next(s, tx).brackets[s.count];
    ShapeHasSlots(b);
    forall k: nat {:trigger Funded(b.nodes, k)} | k < |call.players| ensures !Funded(b.nodes, k) {
      NewBracketSlot(s.config.value, call.fee, call.players, call.schedule, tx.now, k);
    }
    assert Undecided(b.nodes) == b.nodes.Keys;
  }

  lemma FundsTheSlot(b: Bracket, player: Address, k: nat)
    requires Inv(b) && HasSlots(b.nodes, b.info.playerCount) && k < b.info.playerCount && Slot(b.nodes, k) == Some(player)
    ensures FindSlot(b.nodes, b.info.playerCount, player, 0) == Some(k)
  {
    hide Inv, Slot;
    var found := FindSlot(b.nodes, b.info.playerCount, player, 0);
    if found.Some? {
      SlotsAreUnique(b, found.value, k, k);
    }
  }

  /** The next entrant pays; nobody else's balance moves. */
  lemma PayNext(s: State, id: nat, players: seq<Address>, paid: nat, player: Address, now: U32)
    requires Collecting(s, id, players, paid) && paid + 1 < |players|
    requires 0 <= SeedPosition(paid, |players|) < |players| && player == players[SeedPosition(paid, |players|)] && player != SELF
    requires Bal(s.book, s.brackets[id].info.token, player) >= s.brackets[id].info.entryFee
    ensures var tx := Tx(Pay(id, player), {player}, now);
      && HostTx(tx) && Accepted(s, tx)
      && Collecting(Next(s, tx), id, players, paid + 1)
      && Next(s, tx).config == s.config && Next(s, tx).count == s.count
      && Next(s, tx).brackets[id].info.entryFee == s.brackets[id].info.entryFee
      && Next(s, tx).brackets[id].info.token == s.brackets[id].info.token
      && forall tok, who {:trigger Bal(Next(s, tx).book, tok, who)} :: who != player && who != SELF ==>
           Bal(Next(s, tx).book, tok, who) == Bal(s.book, tok, who)
  {
    hide Inv, SeededAs, Fund;
    var tx := Tx(Pay(id, player), {player}, now);
    var b := s.brackets[id];
    assert OkWith(b, s.config.value.token);
    FieldSize(b, players);
    InvShape(b);
    SlotHoldsSeed(b, players, paid);
    FundsTheSlot(b, player, paid);
    NextInv(s, tx);
    FundsOne(b, players, paid);
    forall tok, who {:trigger Bal(Next(s, tx).book, tok, who)} | who != player && who != SELF
      ensures Bal(Next(s, tx).book, tok, who) == Bal(s.book, tok, who)
    {
      TransferMoves(s.book, b.info.token, player, SELF, b.info.entryFee, tok, who);
    }
  }

  lemma FundsOne(b: Bracket, players: seq<Address>, paid: nat)
    requires Inv(b) && SeededAs(b, players) && b.info.phase == Registration && paid + 1 < |players| && b.info.fundedCount == paid
    requires Undecided(b.nodes) == b.nodes.Keys && Slot(b.nodes, paid) != Some(SELF)
    requires forall k: nat {:trigger Funded(b.nodes, k)} :: k < |players| ==> (Funded(b.nodes, k) <==> k < paid)
    ensures (0, paid / 2) in b.nodes
    ensures var b' := Fund(b, paid);
      && SeededAs(b', players) && b'.info.phase == Registration && b'.info.fundedCount == paid + 1
      && b'.info.entryFee == b.info.entryFee && b'.info.token == b.info.token
      && Undecided(b'.nodes) == b'.nodes.Keys
      && forall k: nat {:trigger Funded(b'.nodes, k)} :: k < |players| ==> (Funded(b'.nodes, k) <==> k < paid + 1)
  {
    hide Inv, SeededAs, Slot, Funded;
    FieldSize(b, players);
    InvShape(b);
    var b' := Fund(b, paid);
    FundInv(b, paid);
    FundAccounts(b, paid, 0);
    SeedsKept(b, b', players);
    assert b'.nodes.Keys == b.nodes.Keys;
    InvShape(b');
    forall k: nat {:trigger Funded(b'.nodes, k)} | k < |players| ensures Funded(b'.nodes, k) <==> k < paid + 1 {
      FundKeepsSlots(b, paid, k);
    }
  }

  lemma EightEntrants(b: Bracket)
    requires Inv(b) && b.info.playerCount >= 8
    ensures b.info.rounds >= 3 && (0, 0) in b.nodes && (0, 1) in b.nodes && (1, 0) in b.nodes && (1, 0) != Final(b)
  {
    assert Pow2(2) == 4;
    if b.info.rounds <= 2 {
      Pow2Grows(b.info.rounds, 2);
    }
    Pow2Grows(1, b.info.rounds - 1);
    assert InTree(b.info.rounds, 0, 0) && InTree(b.info.rounds, 0, 1) && InTree(b.info.rounds, 1, 0);
  }

  /** An accepted opening result, seen from the other nodes: payments stay, other winners stay. */
  lemma OpeningDecided(b: Bracket, i: nat, w: Address, now: nat)
    requires Inv(b) && b.info.phase == Registration && b.info.playerCount >= 8 && i < 2
    requires (0, i) in b.nodes && Ready(b, 0, i) && b.nodes[(0, i)].winner.None? && b.nodes[(0, i)].player1 == Some(w)
    ensures (1, i / 2) in b.nodes && b.nodes[(0, i)].status == AwaitingResult
    ensures var b' := Decide(b, 0, i, w, now);
      && Inv(b') && b'.info == b.info && (0, 0) in b'.nodes && (0, 1) in b'.nodes && (1, 0) in b'.nodes
      && b'.nodes[(0, i)].winner == Some(w) && b'.nodes[(1, 0)].winner == b.nodes[(1, 0)].winner
      && b'.nodes[(0, 1 - i)].winner == b.nodes[(0, 1 - i)].winner && b'.nodes[(0, 1 - i)].player1 == b.nodes[(0, 1 - i)].player1
      && (Ready(b, 0, 1 - i) ==> Ready(b', 0, 1 - i))
      && (if i == 0 then b'.nodes[(1, 0)].player1 == Some(w) && b'.nodes[(1, 0)].player2 == b.nodes[(1, 0)].player2
          else b'.nodes[(1, 0)].player2 == Some(w) && b'.nodes[(1, 0)].player1 == b.nodes[(1, 0)].player1)
  {
    hide Inv;
    EightEntrants(b);
    AwaitsIffReady(b, 0, i);
    InvShape(b);
    DecideInv(b, 0, i, w, now);
    DecideOthers(b, 0, i, w, now, 0, i);
    DecideOthers(b, 0, i, w, now, 0, 1 - i);
    DecideOthers(b, 0, i, w, now, 1, 0);
    InvShape(Decide(b, 0, i, w, now));
  }

  lemma OpeningAccepted(s: State, id: nat, i: nat, w: Address, oracle: Address, gameId: seq<Byte>, now: U32)
    requires StateInv(s) && s.config.Some? && id in s.brackets && oracle == s.config.value.oracle && oracle != SELF && ValidGameId(gameId)
    requires var b := s.brackets[id];
      && Inv(b) && b.info.phase == Registration && b.info.playerCount >= 8 && i < 2
      && (0, i) in b.nodes && Ready(b, 0, i) && b.nodes[(0, i)].winner.None? && b.nodes[(0, i)].player1 == Some(w)
    ensures (1, i / 2) in s.brackets[id].nodes
    ensures var tx := Tx(Result(id, 0, i, gameId, w), {oracle}, now);
      && HostTx(tx) && Accepted(s, tx) && StateInv(Next(s, tx))
      && Next(s, tx) == s.(brackets := s.brackets[id := Decide(s.brackets[id], 0, i, w, now)])
  {
    hide Inv, Decide, Ready;
    var b := s.brackets[id];
    OpeningDecided(b, i, w, now);
    EightEntrants(b);
    ParentInTree(b, 0, i);
    NextInv(s, Tx(Result(id, 0, i, gameId, w), {oracle}, now));
  }

  /** Node (1, 0) pairs the first two players of the list and awaits their result, before the field has paid. */
  ghost predicate TopTwoPaired(s: State, id: nat, players: seq<Address>) {
    && s.config.Some? && id in s.brackets && |players| >= 8
    && var b := s.brackets[id];
       && b.info.phase == Registration && b.info.playerCount == |players| && b.info.fundedCount == 4
       && (0, 0) in b.nodes && (0, 1) in b.nodes && (1, 0) in b.nodes
       && b.nodes[(0, 0)].winner == Some(players[0]) && b.nodes[(0, 1)].winner == Some(players[1])
       && b.nodes[(1, 0)].player1 == Some(players[0]) && b.nodes[(1, 0)].player2 == Some(players[1])
       && b.nodes[(1, 0)].status == AwaitingResult
       && b.info.rounds > 0 && (1, 0) != Final(b)
  }

  lemma FirstFourSlots(b: Bracket, players: seq<Address>)
    requires Inv(b) && SeededAs(b, players) && |players| >= 8 && Undecided(b.nodes) == b.nodes.Keys
    requires forall k: nat {:trigger Funded(b.nodes, k)} :: k < |players| ==> (Funded(b.nodes, k) <==> k < 4)
    ensures (0, 0) in b.nodes && (0, 1) in b.nodes && (1, 0) in b.nodes && b.info.playerCount >= 8
    ensures b.nodes[(0, 0)].player1 == Some(players[0]) && b.nodes[(0, 1)].player1 == Some(players[1])
    ensures Shape(b) && Ready(b, 0, 0) && Ready(b, 0, 1)
    ensures b.nodes[(0, 0)].winner.None? && b.nodes[(0, 1)].winner.None? && b.nodes[(1, 0)].winner.None?
  {
    hide Inv, SeededAs, Wired;
    FieldSize(b, players);
    InvShape(b);
    EightEntrants(b);
    SlotHoldsSeed(b, players, 0);
    SlotHoldsSeed(b, players, 2);
    assert Funded(b.nodes, 0) && Funded(b.nodes, 1) && Funded(b.nodes, 2) && Funded(b.nodes, 3);
    assert (0, 0) in Undecided(b.nodes) && (0, 1) in Undecided(b.nodes) && (1, 0) in Undecided(b.nodes);
    StatusOfWinner(b, 0, 0);
    StatusOfWinner(b, 0, 1);
    StatusOfWinner(b, 1, 0);
  }

  lemma StatusOfWinner(b: Bracket, r: nat, i: nat)
    requires Inv(b) && (r, i) in b.nodes
    ensures b.nodes[(r, i)].status == Decided <==> b.nodes[(r, i)].winner.Some?
  {
    hide SeedsDistinct, MoneyOk, PhaseOk, Wired;
    assert NodeOk(b, r, i);
  }

  /** The two opening results, both accepted. */
  lemma TwoResults(s: State, id: nat, players: seq<Address>, oracle: Address, gameId: seq<Byte>, now: U32)
    requires Collecting(s, id, players, 4)
    requires oracle == s.config.value.oracle && oracle != SELF && ValidGameId(gameId)
    ensures var one, two := Tx(Result(id, 0, 0, gameId, players[0]), {oracle}, now), Tx(Result(id, 0, 1, gameId, players[1]), {oracle}, now);
      && HostTx(one) && Accepted(s, one) && StateInv(Next(s, one))
      && HostTx(two) && Accepted(Next(s, one), two) && StateInv(Next(Next(s, one), two))
      && TopTwoPaired(Next(Next(s, one), two), id, players)
  {
    hide Inv, Apply, Decide, SeededAs, Ready, HasSlots;
    var b := s.brackets[id];
    assert OkWith(b, s.config.value.token);
    FieldSize(b, players);
    FirstFourSlots(b, players);
    OpeningAccepted(s, id, 0, players[0], oracle, gameId, now);
    OpeningDecided(b, 0, players[0], now);
    var s1 := Next(s, Tx(Result(id, 0, 0, gameId, players[0]), {oracle}, now));
    var b1 := s1.brackets[id];
    OpeningAccepted(s1, id, 1, players[1], oracle, gameId, now);
    OpeningDecided(b1, 1, players[1], now);
    var b2 := Decide(b1, 0, 1, players[1], now);
    EightEntrants(b2);
    BothChildrenDecided(b2);
  }

  lemma BothChildrenDecided(b: Bracket)
    requires Inv(b) && (0, 0) in b.nodes && (0, 1) in b.nodes && (1, 0) in b.nodes && b.info.phase == Registration
    requires b.nodes[(0, 0)].winner.Some? && b.nodes[(0, 1)].winner.Some? && b.nodes[(1, 0)].winner.None?
    ensures b.nodes[(1, 0)].status == AwaitingResult
  {
    AwaitsIffReady(b, 1, 0);
  }

  ghost predicate CanPay(s: State, players: seq<Address>, a: nat, fee: int)
    requires a < |players| && s.config.Some?
  {
    players[a] != SELF && Bal(s.book, s.config.value.token, players[a]) >= fee
  }

  /** A course of play for every field of eight or more, from every state in which it can be created: the
      first two players of the list and their opponents pay, the first two win their opening matches, and
      they meet in round 1, which is not the final, while the tournament is still in Registration. */
  lemma TopSeedsMeetEarly(s: State, fee: int, players: seq<Address>, schedule: seq<int>, gameId: seq<Byte>, now: U32) returns (txs: seq<Tx>)
    requires StateInv(s) && s.config.Some? && s.config.value.admin != SELF && s.config.value.oracle != SELF && ValidGameId(gameId)
    requires Create(s, fee, players, schedule, {s.config.value.admin}, now).Ok? && |players| >= 8
    requires CanPay(s, players, 0, fee) && CanPay(s, players, 1, fee) && CanPay(s, players, |players| - 2, fee) && CanPay(s, players, |players| - 1, fee)
    ensures HostRun(txs) && AllAccepted(s, txs) && |txs| == 7
    ensures txs[0].call == CreateTournament(fee, players, schedule)
    ensures TopTwoPaired(Run(s, txs), s.count, players)
  {
    hide Apply, Create, Collecting, StateInv, HostTx, AllAccepted, Run;
    InvWellFormed(s);
    var id, n, c := s.count, |players|, s.config.value;
    var create := Tx(CreateTournament(fee, players, schedule), {c.admin}, now);
    assert HostTx(create) && Accepted(s, create) by {
      CreateAccepted(s, fee, players, schedule, now);
    }
    StartCollecting(s, create);
    txs := [create];
    NothingRun(s);
    assert [] + [create] == txs;
    OneMore(s, [], create);
    // slots 0 to 3 are the seeds 0, n-1, 1 and n-2
    FourArePaying(s, fee, players, schedule, now);
    var payers := FirstFour(players);
    var k := 0;
    while k < 4
      invariant k <= 4 && |txs| == k + 1 && HostRun(txs) && AllAccepted(s, txs) && txs[0] == create
      invariant Collecting(Run(s, txs), id, players, k)
      invariant Paying(s, Run(s, txs), id, payers, k, fee)
    {
      var e := Run(s, txs);
      SeedOfSlot(k, n);
      CollectingState(e, id, players, k);
      PayNext(e, id, players, k, payers[k], now);
      OneMore(s, txs, Tx(Pay(id, payers[k]), {payers[k]}, now));
      CollectingState(Next(e, Tx(Pay(id, payers[k]), {payers[k]}, now)), id, players, k + 1);
      StillPaying(s, e, Tx(Pay(id, payers[k]), {payers[k]}, now), id, payers, k, fee);
      txs := txs + [Tx(Pay(id, payers[k]), {payers[k]}, now)];
      k := k + 1;
    }
    var one, two := Tx(Result(id, 0, 0, gameId, players[0]), {c.oracle}, now), Tx(Result(id, 0, 1, gameId, players[1]), {c.oracle}, now);
    CollectingState(Run(s, txs), id, players, 4);
    TwoResults(Run(s, txs), id, players, c.oracle, gameId, now);
    OneMore(s, txs, one);
    OneMore(s, txs + [one], two);
    txs := txs + [one] + [two];
  }

  lemma CreateAccepted(s: State, fee: int, players: seq<Address>, schedule: seq<int>, now: U32)
    requires StateInv(s) && s.config.Some? && s.config.value.admin != SELF
    requires Create(s, fee, players, schedule, {s.config.value.admin}, now).Ok?
    ensures var tx := Tx(CreateTournament(fee, players, schedule), {s.config.value.admin}, now);
      HostTx(tx) && Accepted(s, tx) && Creates(s, tx)
  {
    hide Create;
  }

  lemma NothingRun(s: State)
    requires StateInv(s)
    ensures Run(s, []) == s && HostRun([]) && AllAccepted(s, [])
  {
  }

  lemma SeedOfSlot(k: nat, n: nat)
    requires k < 4 && n >= 8
    ensures SeedPosition(k, n) == [0, n - 1, 1, n - 2][k]
  {
  }

  lemma CollectingState(s: State, id: nat, players: seq<Address>, paid: nat)
    requires Collecting(s, id, players, paid)
    ensures StateInv(s) && WellFormed(s) && s.config.Some? && id in s.brackets
  {
  }

  lemma InvWellFormed(s: State)
    requires StateInv(s)
    ensures WellFormed(s)
  {
  }

  /** The entrants who are still to pay are different people and have the money. */
  ghost predicate Paying(start: State, s: State, id: nat, payers: seq<Address>, paid: nat, fee: int) {
    && s.config.Some? && s.config == start.config && id in s.brackets
    && s.brackets[id].info.entryFee == fee && s.brackets[id].info.token == s.config.value.token
    && (forall i, j :: 0 <= i < j < |payers| ==> payers[i] != payers[j])
    && (forall i :: paid <= i < |payers| ==> payers[i] != SELF && Bal(s.book, s.config.value.token, payers[i]) >= fee)
  }

  lemma StillPaying(start: State, s: State, tx: Tx, id: nat, payers: seq<Address>, k: nat, fee: int)
    requires StateInv(s) && Paying(start, s, id, payers, k, fee) && k < |payers| && id in Next(s, tx).brackets
    requires Next(s, tx).config == s.config
    requires Next(s, tx).brackets[id].info.entryFee == s.brackets[id].info.entryFee
    requires Next(s, tx).brackets[id].info.token == s.brackets[id].info.token
    requires forall tok, who {:trigger Bal(Next(s, tx).book, tok, who)} :: who != payers[k] && who != SELF ==>
      Bal(Next(s, tx).book, tok, who) == Bal(s.book, tok, who)
    ensures Paying(start, Next(s, tx), id, payers, k + 1, fee)
  {
    hide StateInv, Apply, Next;
  }

  function FirstFour(players: seq<Address>): seq<Address>
    requires |players| >= 8
  {
    [players[0], players[|players| - 1], players[1], players[|players| - 2]]
  }

  lemma FourDiffer(players: seq<Address>)
    requires |players| >= 8 && EntrantsVerdict(players, |players|).None?
    ensures forall i, j :: 0 <= i < j < 4 ==> FirstFour(players)[i] != FirstFour(players)[j]
  {
    var n := |players|;
    EntrantsDistinct(players, n, n - 1, 0);
    EntrantsDistinct(players, n, 1, 0);
    EntrantsDistinct(players, n, n - 2, 0);
    EntrantsDistinct(players, n, n - 1, 1);
    EntrantsDistinct(players, n, n - 1, n - 2);
    EntrantsDistinct(players, n, n - 2, 1);
  }

  lemma FourCanPay(s: State, players: seq<Address>, fee: int)
    requires s.config.Some? && |players| >= 8
    requires CanPay(s, players, 0, fee) && CanPay(s, players, 1, fee) && CanPay(s, players, |players| - 2, fee) && CanPay(s, players, |players| - 1, fee)
    ensures forall i :: 0 <= i < 4 ==> FirstFour(players)[i] != SELF && Bal(s.book, s.config.value.token, FirstFour(players)[i]) >= fee
  {
  }

  /** After the creation the four payers are different players of the list, and can pay. */
  lemma FourArePaying(s: State, fee: int, players: seq<Address>, schedule: seq<int>, now: U32)
    requires StateInv(s) && s.config.Some? && s.config.value.admin != SELF && |players| >= 8
    requires Create(s, fee, players, schedule, {s.config.value.admin}, now).Ok?
    requires CanPay(s, players, 0, fee) && CanPay(s, players, 1, fee) && CanPay(s, players, |players| - 2, fee) && CanPay(s, players, |players| - 1, fee)
    ensures WellFormed(s)
    ensures Paying(s, Next(s, Tx(CreateTournament(fee, players, schedule), {s.config.value.admin}, now)), s.count, FirstFour(players), 0, fee)
  {
    hide Create, EntrantsVerdict, StateInv, Collecting, FirstFour;
    InvWellFormed(s);
    var tx := Tx(CreateTournament(fee, players, schedule), {s.config.value.admin}, now);
    CreateAccepted(s, fee, players, schedule, now);
    StartCollecting(s, tx);
    CollectingState(Next(s, tx), s.count, players, 0);
    CreateStep(s, fee, players, schedule, {s.config.value.admin}, now);
    FourDiffer(players);
    FourCanPay(s, players, fee);
    assert |FirstFour(players)| == 4 by {
      FourAreFour(players);
    }
  }

  lemma FourAreFour(players: seq<Address>)
    requires |players| >= 8
    ensures |FirstFour(players)| == 4
  {
  }

  // ---------------------------- the course of play from a new contract ----------------------------

  lemma {:induction false} RunsJoin(s: State, a: seq<Tx>, b: seq<Tx>)
    requires StateInv(s) && HostRun(a) && HostRun(b)
    ensures HostRun(a + b) && Run(s, a + b) == Run(Run(s, a), b)
    ensures AllAccepted(s, a) && AllAccepted(Run(s, a), b) ==> AllAccepted(s, a + b)
  {
    hide Apply, Inv, Next, Accepted;
    if b == [] {
      assert a + b == a;
    } else {
      var n := |b| - 1;
      RunsJoin(s, a, b[..n]);
      assert a + b == a + b[..n] + [b[n]];
      OneMore(s, a + b[..n], b[n]);
      assert b == b[..n] + [b[n]];
      OneMore(Run(s, a), b[..n], b[n]);
    }
  }

  lemma {:induction false} DistinctVerdict(players: seq<Address>, m: nat)
    requires m <= |players|
    requires forall i :: 0 <= i < |players| ==> players[i] != ZERO_ADDRESS
    requires forall i, j :: 0 <= i < j < |players| ==> players[i] != players[j]
    ensures EntrantsVerdict(players, m).None?
  {
    if m > 0 {
      DistinctVerdict(players, m - 1);
    }
  }

  const EIGHT: seq<Address> := [2, 3, 4, 5, 6, 7, 8, 9]

  lemma EightAreAccepted(s: State, now: U32)
    requires s.config.Some? && s.count == 0
    ensures Create(s, 1, EIGHT, [8], {s.config.value.admin}, now).Ok?
  {
    DistinctVerdict(EIGHT, 8);
    assert IsPowerOfTwo(8) by {
      assert IsPowerOfTwo(4) by {
        assert IsPowerOfTwo(2);
      }
    }
    assert Sum([8]) == 8 by {
      assert [8][..0] == [];
    }
  }

  /** The same from a new contract: a run with every call accepted that ends with the first two of eight
      players paired in round 1, two results in and four fees still unpaid. */
  lemma TopSeedsMeetFromGenesis() returns (s: State, txs: seq<Tx>)
    ensures StateInv(s) && Genesis(s) && HostRun(txs) && AllAccepted(s, txs)
    ensures TopTwoPaired(Run(s, txs), 0, EIGHT)
  {
    hide Apply, Create, AllAccepted, Run, TopTwoPaired;
    var token: Address, admin: Address, oracle: Address := 12, 10, 11;
    var book: Book := map[(token, 2) := 1, (token, 3) := 1, (token, 8) := 1, (token, 9) := 1];
    s := State(None, 0, map[], book);
    var init := Tx(Init(admin, oracle, token, true), {}, 0);
    InitAccepted(s, init);
    NothingRun(s);
    OneMore(s, [], init);
    assert [] + [init] == [init];
    var started := Run(s, [init]);
    EightAreAccepted(started, 0);
    var gameId: seq<Byte> := [65];
    var rest := TopSeedsMeetEarly(started, 1, EIGHT, [8], gameId, 0);
    RunsJoin(s, [init], rest);
    txs := [init] + rest;
  }

  lemma InitAccepted(s: State, tx: Tx)
    requires Genesis(s) && WellFormed(s) && tx.call.Init? && tx.call.tokenIsContract
    requires tx.call.admin != ZERO_ADDRESS && tx.call.oracle != ZERO_ADDRESS && tx.call.token != ZERO_ADDRESS
    ensures Accepted(s, tx)
    ensures Next(s, tx) == s.(config := Some(Config(tx.call.admin, tx.call.oracle, tx.call.token)))
  {
  }
}
