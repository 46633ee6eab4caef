/** Token conservation, final settlements and the length of play, over every run of the contract. */
module TournamentRuns {
  import opened Types
  import opened Token
  import opened TournamentModel
  import opened TournamentBracket
  import opened TournamentTheorems

  // ---------------------------- the contract invariant ----------------------------

  ghost predicate OkWith(b: Bracket, token: Address) {
    Inv(b) && b.info.token == token
  }

  ghost predicate StateInv(s: State) {
    && WellFormed(s)
    && (s.config.Some? ==> forall id: nat :: id in s.brackets ==> OkWith(s.brackets[id], s.config.value.token))
  }

  /** What a tournament holds for its entrants: the fees of those who paid, until it is over. */
  ghost function Pot(b: Bracket): int {
    if Terminal(b.info.phase) then 0 else b.info.entryFee * b.info.fundedCount
  }

  ghost function Pots(s: State, m: nat): int
    requires forall id: nat :: id < m ==> id in s.brackets
  {
    if m == 0 then 0 else Pots(s, m - 1) + Pot(s.brackets[m - 1])
  }

  lemma {:induction false} PotsAfter(s: State, s': State, id: nat, m: nat)
    requires forall j: nat :: j < m ==> j in s.brackets && j in s'.brackets
    requires forall j: nat :: j < m && j != id ==> s'.brackets[j] == s.brackets[j]
    ensures Pots(s', m) == Pots(s, m) + (if id < m then Pot(s'.brackets[id]) - Pot(s.brackets[id]) else 0)
  {
    if m > 0 {
      PotsAfter(s, s', id, m - 1);
    }
  }

  lemma PotNonNegative(b: Bracket)
    requires b.info.entryFee >= 1
    ensures Pot(b) >= 0
  {
  }

  lemma {:induction false} PotsNonNegative(s: State, m: nat, id: nat)
    requires WellFormed(s) && m <= s.count
    ensures Pots(s, m) >= 0
    ensures id < m ==> Pots(s, m) >= Pot(s.brackets[id])
  {
    if m > 0 {
      PotsNonNegative(s, m - 1, id);
      PotNonNegative(s.brackets[m - 1]);
    }
  }

  // ---------------------------- who has paid, and what each is owed ----------------------------

  ghost predicate HasPaid(b: Bracket, who: Address)
    requires Shape(b)
  {
    ShapeHasSlots(b);
    exists k: nat :: PaidSlot(b, who, k)
  }

  ghost predicate PaidSlot(b: Bracket, who: Address, k: nat)
    requires HasSlots(b.nodes, b.info.playerCount)
  {
    k < b.info.playerCount && Slot(b.nodes, k) == Some(who) && Funded(b.nodes, k)
  }

  /** The standing of `who` with a tournament, in tokens: minus the fee while it is held, nothing
      once refunded, and the whole prize less the own fee for the champion. */
  ghost function Standing(b: Bracket, who: Address): int
    requires Shape(b)
  {
    match b.info.phase
    case Cancelled => 0
    case Completed =>
      if b.info.champion == Some(who) then b.info.entryFee * (b.info.playerCount - 1)
      else if HasPaid(b, who) then -b.info.entryFee else 0
    case _ => if HasPaid(b, who) then -b.info.entryFee else 0
  }

  // ---------------------------- refunds ----------------------------

  ghost predicate PaidBelow(nodes: Nodes, who: Address, m: nat)
    requires HasSlots(nodes, m)
  {
    exists k: nat :: k < m && Slot(nodes, k) == Some(who) && Funded(nodes, k)
  }

  /** The fees held for the first `m` slots. */
  ghost function Owed(nodes: Nodes, fee: int, m: nat): int
    requires HasSlots(nodes, m)
  {
    if m == 0 then 0 else Owed(nodes, fee, m - 1) + (if Funded(nodes, m - 1) then fee else 0)
  }

  lemma {:induction false} OwedIsFeeTimesCount(nodes: Nodes, fee: int, m: nat)
    requires HasSlots(nodes, m)
    ensures Owed(nodes, fee, m) == fee * CountFunded(nodes, m)
  {
    if m > 0 {
      OwedIsFeeTimesCount(nodes, fee, m - 1);
      assert fee * (CountFunded(nodes, m - 1) + 1) == fee * CountFunded(nodes, m - 1) + fee;
    }
  }

  /** Refunding cannot trap while the contract holds the fees, and gives every payer exactly one fee back. */
  lemma {:induction false} RefundsPayEveryoneOnce(b: Bracket, book: Book, m: nat, tok: Address, who: Address)
    requires Inv(b) && HasSlots(b.nodes, b.info.playerCount) && m <= b.info.playerCount && who != SELF
    requires Bal(book, b.info.token, SELF) >= Owed(b.nodes, b.info.entryFee, m)
    ensures var r := PayRefunds(book, b.info.token, b.info.entryFee, b.nodes, m);
      && r.Some?
      && Bal(r.value, tok, SELF) == Bal(book, tok, SELF) - (if tok == b.info.token then Owed(b.nodes, b.info.entryFee, m) else 0)
      && Bal(r.value, tok, who) == Bal(book, tok, who) + (if tok == b.info.token && PaidBelow(b.nodes, who, m) then b.info.entryFee else 0)
  {
    if m > 0 {
      var fee, k := b.info.entryFee, m - 1;
      assert Slot(b.nodes, k).Some?;
      RefundsPayEveryoneOnce(b, book, k, tok, who);
      RefundsPayEveryoneOnce(b, book, k, b.info.token, who);
      PaidBelowStep(b, who, k);
      if Funded(b.nodes, k) {
        var before := PayRefunds(book, b.info.token, fee, b.nodes, k).value;
        var p := Slot(b.nodes, k).value;
        TransferMoves(before, b.info.token, SELF, p, fee, tok, SELF);
        TransferMoves(before, b.info.token, SELF, p, fee, tok, who);
      }
    }
  }

  lemma PaidBelowStep(b: Bracket, who: Address, k: nat)
    requires Inv(b) && HasSlots(b.nodes, b.info.playerCount) && k < b.info.playerCount
    ensures PaidBelow(b.nodes, who, k + 1) <==> PaidBelow(b.nodes, who, k) || (Slot(b.nodes, k) == Some(who) && Funded(b.nodes, k))
    ensures Slot(b.nodes, k) == Some(who) ==> !PaidBelow(b.nodes, who, k)
  {
    if PaidBelow(b.nodes, who, k + 1) {
      var j: nat :| j < k + 1 && Slot(b.nodes, j) == Some(who) && Funded(b.nodes, j);
    }
    if PaidBelow(b.nodes, who, k) {
      var j: nat :| j < k && Slot(b.nodes, j) == Some(who) && Funded(b.nodes, j);
    }
  }

  // ---------------------------- one accepted call ----------------------------

  /** The tournament a call acts on. */
  function Target(call: Call): Option<nat> {
    match call
    case Pay(id, _) => Some(id)
    case Result(id, _, _, _, _) => Some(id)
    case CancelTournament(id) => Some(id)
    case Timeout(id, _) => Some(id)
    case _ => None
  }

  /** Tokens that reach the contract from outside any tournament. */
  function Gift(tx: Tx, tok: Address): int {
    if tx.call.Outside? && tx.call.to == SELF && tx.call.token == tok then tx.call.amount else 0
  }

  /** What an accepted call on tournament `id` does: it keeps the invariant, it touches no other
      tournament, and the ledger moves by exactly the change in what that tournament owes. */
  ghost predicate GoodStep(s: State, s': State, id: nat, tok: Address, who: Address)
    requires StateInv(s) && s.config.Some? && id in s.brackets
  {
    && id in s'.brackets
    && s' == s.(brackets := s.brackets[id := s'.brackets[id]], book := s'.book)
    && !Terminal(s.brackets[id].info.phase)
    && Inv(s'.brackets[id]) && SameTerms(s.brackets[id], s'.brackets[id])
    && (tok == s.config.value.token ==>
         && Bal(s'.book, tok, SELF) - Bal(s.book, tok, SELF) == Pot(s'.brackets[id]) - Pot(s.brackets[id])
         && (who != SELF ==> Bal(s'.book, tok, who) - Bal(s.book, tok, who) == Standing(s'.brackets[id], who) - Standing(s.brackets[id], who)))
    && (tok != s.config.value.token ==> Bal(s'.book, tok, SELF) == Bal(s.book, tok, SELF) && Bal(s'.book, tok, who) == Bal(s.book, tok, who))
  }

  ghost predicate SameTerms(b: Bracket, b': Bracket) {
    && b'.info.token == b.info.token && b'.info.entryFee == b.info.entryFee
    && b'.info.playerCount == b.info.playerCount && b'.info.rounds == b.info.rounds
    && b'.info.prizeSchedule == b.info.prizeSchedule && b'.info.createdLedger == b.info.createdLedger
    && b'.info.admin == b.info.admin
    && SameEntries(b, b')
  }

  /** The entry slots hold the same players. */
  ghost predicate SameEntries(b: Bracket, b': Bracket) {
    && HasSlots(b.nodes, b.info.playerCount) && HasSlots(b'.nodes, b.info.playerCount)
    && forall k: nat {:trigger Slot(b'.nodes, k)} :: k < b.info.playerCount ==> Slot(b'.nodes, k) == Slot(b.nodes, k)
  }

  lemma FundKeepsEntries(b: Bracket, k: nat)
    requires Shape(b) && HasSlots(b.nodes, b.info.playerCount) && k < b.info.playerCount
    ensures SameEntries(b, Fund(b, k))
  {
    var b' := Fund(b, k);
    FundKeepsSlots(b, k, k);
    ShapeHasSlots(b');
    forall j: nat {:trigger Slot(b'.nodes, j)} | j < b.info.playerCount ensures Slot(b'.nodes, j) == Slot(b.nodes, j) {
      FundKeepsSlots(b, k, j);
    }
  }

  lemma DecideKeepsEntries(b: Bracket, r: nat, i: nat, w: Address, now: nat)
    requires Shape(b) && (r, i) in b.nodes
    requires r + 1 < b.info.rounds ==> (r + 1, i / 2) in b.nodes
    ensures SameEntries(b, Decide(b, r, i, w, now))
  {
    var b' := Decide(b, r, i, w, now);
    DecideShape(b, r, i, w, now);
    ShapeHasSlots(b);
    ShapeHasSlots(b');
    forall k: nat {:trigger Slot(b'.nodes, k)} | k < b.info.playerCount ensures Slot(b'.nodes, k) == Slot(b.nodes, k) {
      DecideOthers(b, r, i, w, now, 0, k / 2);
    }
  }

  lemma ClosedKeepsEntries(b: Bracket, now: nat)
    requires Shape(b)
    ensures SameEntries(b, Closed(b, now))
  {
    ShapeHasSlots(b);
    var b' := Closed(b, now);
    forall k: nat {:trigger Slot(b'.nodes, k)} | k < b.info.playerCount ensures Slot(b'.nodes, k) == Slot(b.nodes, k) {
      assert (0, k / 2) in b.nodes;
    }
  }

  /** How much play is left: unpaid fees plus undecided nodes. */
  ghost function Left(b: Bracket): int {
    b.info.playerCount - b.info.fundedCount + |Undecided(b.nodes)|
  }

  lemma FundPaid(b: Bracket, k: nat, who: Address)
    requires Inv(b) && !Terminal(b.info.phase) && HasSlots(b.nodes, b.info.playerCount)
    requires k < b.info.playerCount && !Funded(b.nodes, k) && Slot(b.nodes, k) != Some(SELF)
    ensures Shape(Fund(b, k))
    ensures HasPaid(Fund(b, k), who) <==> HasPaid(b, who) || Slot(b.nodes, k) == Some(who)
    ensures Slot(b.nodes, k) == Some(who) ==> !HasPaid(b, who)
  {
    FundInv(b, k);
    var b' := Fund(b, k);
    ShapeHasSlots(b');
    forall j: nat | j < b.info.playerCount
      ensures PaidSlot(b', who, j) <==> PaidSlot(b, who, j) || (j == k && Slot(b.nodes, k) == Some(who))
      ensures Slot(b.nodes, k) == Some(who) ==> !PaidSlot(b, who, j)
    {
      FundKeepsSlots(b, k, j);
      SlotsAreUnique(b, j, k, k);
    }
    if HasPaid(b, who) {
      var j: nat :| PaidSlot(b, who, j);
      assert PaidSlot(b', who, j);
    }
    if Slot(b.nodes, k) == Some(who) {
      assert PaidSlot(b', who, k);
    }
  }

  /** A deposit adds one fee to the pot and takes it from the payer's standing. */
  lemma FundAccounts(b: Bracket, k: nat, who: Address)
    requires Inv(b) && !Terminal(b.info.phase) && HasSlots(b.nodes, b.info.playerCount)
    requires k < b.info.playerCount && !Funded(b.nodes, k) && Slot(b.nodes, k) != Some(SELF)
    ensures Inv(Fund(b, k)) && SameTerms(b, Fund(b, k))
    ensures Pot(Fund(b, k)) == Pot(b) + b.info.entryFee
    ensures Standing(Fund(b, k), who) == Standing(b, who) - (if Slot(b.nodes, k) == Some(who) then b.info.entryFee else 0)
    ensures Left(Fund(b, k)) == Left(b) - 1
    ensures Undecided(Fund(b, k).nodes) == Undecided(b.nodes)
  {
    hide Inv, HasPaid, Undecided, Funded, Slot, SameEntries;
    InvShape(b);
    FundInv(b, k);
    FundPaid(b, k, who);
    FundKeepsEntries(b, k);
    var c := b.info.fundedCount;
    assert b.info.entryFee * (c + 1) == b.info.entryFee * c + b.info.entryFee;
  }

  lemma PayStep(s: State, id: nat, player: Address, signers: set<Address>, tok: Address, who: Address)
    requires StateInv(s) && SELF !in signers
    requires Deposit(s, id, player, signers).Ok?
    ensures s.config.Some? && id in s.brackets
    ensures GoodStep(s, Deposit(s, id, player, signers).value, id, tok, who)
    ensures Left(Deposit(s, id, player, signers).value.brackets[id]) == Left(s.brackets[id]) - 1
    ensures Undecided(Deposit(s, id, player, signers).value.brackets[id].nodes) == Undecided(s.brackets[id].nodes)
  {
    assert OkWith(s.brackets[id], s.config.value.token);
    var b := s.brackets[id];
    ShapeHasSlots(b);
    var k := FindSlot(b.nodes, b.info.playerCount, player, 0).value;
    FundAccounts(b, k, who);
    TransferMoves(s.book, b.info.token, player, SELF, b.info.entryFee, tok, SELF);
    TransferMoves(s.book, b.info.token, player, SELF, b.info.entryFee, tok, who);
  }

  lemma DecideStanding(b: Bracket, r: nat, i: nat, w: Address, now: nat, who: Address)
    requires Inv(b) && !Terminal(b.info.phase)
    requires (r, i) in b.nodes && b.nodes[(r, i)].status == AwaitingResult
    requires b.nodes[(r, i)].player1 == Some(w) || b.nodes[(r, i)].player2 == Some(w)
    requires r + 1 < b.info.rounds ==> (r + 1, i / 2) in b.nodes
    ensures Shape(Decide(b, r, i, w, now))
    ensures HasPaid(Decide(b, r, i, w, now), who) <==> HasPaid(b, who)
  {
    DecideInv(b, r, i, w, now);
    var b' := Decide(b, r, i, w, now);
    ShapeHasSlots(b);
    ShapeHasSlots(b');
    forall k: nat | k < b.info.playerCount ensures PaidSlot(b', who, k) <==> PaidSlot(b, who, k) {
      DecideOthers(b, r, i, w, now, 0, k / 2);
    }
    if HasPaid(b, who) {
      var k: nat :| PaidSlot(b, who, k);
      assert PaidSlot(b', who, k);
    }
    if HasPaid(b', who) {
      var k: nat :| PaidSlot(b', who, k);
      assert PaidSlot(b, who, k);
    }
  }

  /** Whoever stands in a completed bracket's final has paid, and is not the contract. */
  lemma ChampionHasPaid(b: Bracket)
    requires Inv(b) && b.info.phase == Completed
    ensures b.info.champion.Some? && HasPaid(b, b.info.champion.value) && b.info.champion != Some(SELF)
  {
    FinalMeansAllPaid(b);
    FinalInTree(b);
    var r := b.info.rounds - 1;
    assert NodeOk(b, r, 0);
    var side := if b.info.champion == b.nodes[(r, 0)].player1 then 0 else 1;
    EntrantSeededBelow(b, r, 0, side);
    var k: nat :| SeededBelow(b, b.info.champion.value, r, 0, side, k);
    assert PaidSlot(b, b.info.champion.value, k);
  }

  function Prize(b: Bracket, r: nat): int {
    if r + 1 < b.info.rounds then 0 else b.info.entryFee * b.info.playerCount
  }

  lemma DecideLeft(b: Bracket, r: nat, i: nat, w: Address, now: nat)
    requires Inv(b) && !Terminal(b.info.phase)
    requires (r, i) in b.nodes && b.nodes[(r, i)].status == AwaitingResult
    requires b.nodes[(r, i)].player1 == Some(w) || b.nodes[(r, i)].player2 == Some(w)
    requires r + 1 < b.info.rounds ==> (r + 1, i / 2) in b.nodes
    ensures |Undecided(Decide(b, r, i, w, now).nodes)| == |Undecided(b.nodes)| - 1
    ensures Left(Decide(b, r, i, w, now)) == Left(b) - 1
  {
    DecideInv(b, r, i, w, now);
  }

  /** In a completed tournament everyone who paid is down one fee, and the champion is up the whole pot. */
  lemma CompletedStanding(b: Bracket, who: Address)
    requires Inv(b) && b.info.phase == Completed
    ensures b.info.champion.Some? && b.info.champion != Some(SELF)
    ensures b.info.fundedCount == b.info.playerCount
    ensures Standing(b, who) == (if HasPaid(b, who) then -b.info.entryFee else 0)
                              + (if b.info.champion == Some(who) then b.info.entryFee * b.info.playerCount else 0)
  {
    ChampionHasPaid(b);
    FinalMeansAllPaid(b);
    var n := b.info.playerCount;
    assert b.info.entryFee * n == b.info.entryFee * (n - 1) + b.info.entryFee;
  }

  lemma DecideFinal(b: Bracket, i: nat, w: Address, now: nat, who: Address)
    requires Inv(b) && !Terminal(b.info.phase)
    requires var r := b.info.rounds - 1;
      && (r, i) in b.nodes && b.nodes[(r, i)].status == AwaitingResult
      && (b.nodes[(r, i)].player1 == Some(w) || b.nodes[(r, i)].player2 == Some(w))
    ensures var b' := Decide(b, b.info.rounds - 1, i, w, now);
      && Inv(b') && w != SELF
      && Pot(b) == b.info.entryFee * b.info.playerCount && Pot(b') == 0
      && Standing(b', who) == Standing(b, who) + (if who == w then b.info.entryFee * b.info.playerCount else 0)
  {
    var r := b.info.rounds - 1;
    DecideInv(b, r, i, w, now);
    DecideStanding(b, r, i, w, now, who);
    CompletedStanding(Decide(b, r, i, w, now), who);
  }

  /** A result that is not the final moves no money; the final pays the whole collected pot to the champion. */
  lemma DecideAccounts(b: Bracket, r: nat, i: nat, w: Address, now: nat, who: Address)
    requires Inv(b) && !Terminal(b.info.phase)
    requires (r, i) in b.nodes && b.nodes[(r, i)].status == AwaitingResult
    requires b.nodes[(r, i)].player1 == Some(w) || b.nodes[(r, i)].player2 == Some(w)
    requires r + 1 < b.info.rounds ==> (r + 1, i / 2) in b.nodes
    ensures Inv(Decide(b, r, i, w, now)) && SameTerms(b, Decide(b, r, i, w, now))
    ensures Pot(Decide(b, r, i, w, now)) == Pot(b) - Prize(b, r)
    ensures Standing(Decide(b, r, i, w, now), who) == Standing(b, who) + (if who == w then Prize(b, r) else 0)
    ensures r + 1 >= b.info.rounds ==> w != SELF
  {
    hide SameEntries;
    ParentInTree(b, r, i);
    DecideKeepsEntries(b, r, i, w, now);
    if r + 1 >= b.info.rounds {
      DecideFinal(b, i, w, now, who);
    } else {
      DecideInv(b, r, i, w, now);
      DecideStanding(b, r, i, w, now, who);
    }
  }

  lemma ResultStep(s: State, id: nat, round: nat, index: nat, gameId: seq<Byte>, winner: Address, signers: set<Address>, now: U32, tok: Address, who: Address)
    requires StateInv(s)
    requires Submit(s, id, round, index, gameId, winner, signers, now).Ok?
    ensures s.config.Some? && id in s.brackets
    ensures var s' := Submit(s, id, round, index, gameId, winner, signers, now).value;
      && GoodStep(s, s', id, tok, who)
      && Left(s'.brackets[id]) == Left(s.brackets[id]) - 1
      && |Undecided(s'.brackets[id].nodes)| == |Undecided(s.brackets[id].nodes)| - 1
  {
    assert OkWith(s.brackets[id], s.config.value.token);
    var b := s.brackets[id];
    ParentInTree(b, round, index);
    DecideAccounts(b, round, index, winner, now, who);
    DecideLeft(b, round, index, winner, now);
    if round + 1 >= b.info.rounds {
      var payout := b.info.entryFee * b.info.playerCount;
      TransferMoves(s.book, b.info.token, SELF, winner, payout, tok, SELF);
      TransferMoves(s.book, b.info.token, SELF, winner, payout, tok, who);
    }
  }

  lemma ClosedPaid(b: Bracket, who: Address)
    requires Inv(b) && HasSlots(b.nodes, b.info.playerCount)
    ensures HasPaid(b, who) <==> PaidBelow(b.nodes, who, b.info.playerCount)
    ensures b.info.fundedCount == 0 ==> !HasPaid(b, who)
  {
    if HasPaid(b, who) {
      var k: nat :| PaidSlot(b, who, k);
      SomeoneFunded(b.nodes, b.info.playerCount, k);
    }
    if PaidBelow(b.nodes, who, b.info.playerCount) {
      var k: nat :| k < b.info.playerCount && Slot(b.nodes, k) == Some(who) && Funded(b.nodes, k);
      assert PaidSlot(b, who, k);
    }
  }

  lemma AbandonShape(s: State, id: nat, now: U32)
    requires WellFormed(s) && Has(s, id) && HasSlots(s.brackets[id].nodes, s.brackets[id].info.playerCount)
    requires Abandon(s, id, now).Ok?
    ensures var s', b := Abandon(s, id, now).value, s.brackets[id];
      && s' == s.(brackets := s.brackets[id := Closed(b, now)], book := s'.book)
      && (b.info.fundedCount == 0 ==> s'.book == s.book)
      && (b.info.fundedCount != 0 ==>
            && ReserveHolds(s.book, b.info.token, b.info.entryFee * b.info.fundedCount)
            && PayRefunds(s.book, b.info.token, b.info.entryFee, b.nodes, b.info.playerCount) == Some(s'.book))
  {
  }

  lemma ClosedAccounts(b: Bracket, now: nat, who: Address)
    requires Inv(b) && HasSlots(b.nodes, b.info.playerCount) && !Terminal(b.info.phase)
    ensures Inv(Closed(b, now)) && SameTerms(b, Closed(b, now))
    ensures Closed(b, now).info.phase == Cancelled && Pot(Closed(b, now)) == 0 && Standing(Closed(b, now), who) == 0
    ensures Undecided(Closed(b, now).nodes) == Undecided(b.nodes)
    ensures b.info.fundedCount == 0 ==> Pot(b) == 0 && Standing(b, who) == 0
  {
    hide SameEntries;
    ClosedInv(b, now);
    ClosedPaid(b, who);
    ClosedKeepsEntries(b, now);
  }

  lemma AbandonStep(s: State, id: nat, now: U32, tok: Address, who: Address)
    requires StateInv(s) && s.config.Some? && Has(s, id) && !Terminal(s.brackets[id].info.phase)
    requires Abandon(s, id, now).Ok?
    ensures GoodStep(s, Abandon(s, id, now).value, id, tok, who)
    ensures Abandon(s, id, now).value.brackets[id].info.phase == Cancelled
    ensures Undecided(Abandon(s, id, now).value.brackets[id].nodes) == Undecided(s.brackets[id].nodes)
  {
    assert OkWith(s.brackets[id], s.config.value.token);
    var b := s.brackets[id];
    ShapeHasSlots(b);
    ClosedAccounts(b, now, who);
    AbandonShape(s, id, now);
    if b.info.fundedCount > 0 {
      AbandonBook(s, b, tok, who);
    }
  }

  /** With the reserve in place a refund goes through and returns the pot to those who paid it. */
  lemma AbandonBook(s: State, b: Bracket, tok: Address, who: Address)
    requires Inv(b) && HasSlots(b.nodes, b.info.playerCount) && !Terminal(b.info.phase)
    requires ReserveHolds(s.book, b.info.token, b.info.entryFee * b.info.fundedCount)
    ensures var r := PayRefunds(s.book, b.info.token, b.info.entryFee, b.nodes, b.info.playerCount);
      && r.Some?
      && Bal(r.value, tok, SELF) == Bal(s.book, tok, SELF) - (if tok == b.info.token then Pot(b) else 0)
      && (who != SELF ==> Bal(r.value, tok, who) == Bal(s.book, tok, who) - (if tok == b.info.token then Standing(b, who) else 0))
  {
    OwedIsFeeTimesCount(b.nodes, b.info.entryFee, b.info.playerCount);
    ClosedPaid(b, who);
    RefundsPayEveryoneOnce(b, s.book, b.info.playerCount, tok, if who == SELF then 0 else who);
  }

  // ---------------------------- runs ----------------------------

  ghost predicate Genesis(s: State) {
    s.config.None? && s.count == 0 && s.brackets == map[]
  }

  ghost predicate HostRun(txs: seq<Tx>) {
    forall i :: 0 <= i < |txs| ==> HostTx(txs[i])
  }

  /** The state after a run; StateInv travels along so that every call is well defined. */
  ghost function Run(s: State, txs: seq<Tx>): (s': State)
    requires StateInv(s) && HostRun(txs)
    ensures StateInv(s')
  {
    if txs == [] then s
    else
      var before := Run(s, txs[..|txs| - 1]);
      NextInv(before, txs[|txs| - 1]);
      Next(before, txs[|txs| - 1])
  }

  lemma GoodStepInv(s: State, s': State, id: nat, tok: Address, who: Address)
    requires StateInv(s) && s.config.Some? && id in s.brackets && GoodStep(s, s', id, tok, who)
    ensures StateInv(s')
  {
    hide Inv, Shape;
    var token := s.config.value.token;
    InvShape(s'.brackets[id]);
    forall j: nat | j in s'.brackets ensures OkWith(s'.brackets[j], token) && Shape(s'.brackets[j]) {
      if j != id {
        assert s'.brackets[j] == s.brackets[j];
        assert OkWith(s.brackets[j], token);
      } else {
        assert OkWith(s.brackets[id], token);
      }
    }
  }

  /** A new tournament starts empty: no fee held, nobody paid, n deposits and n - 1 results to go. */
  lemma NewBracketAccounts(c: Config, fee: int, players: seq<Address>, schedule: seq<int>, now: U32)
    requires |players| >= 2 && |players| <= 64 && IsPowerOfTwo(|players|) && fee >= 1
    requires EntrantsVerdict(players, |players|).None?
    ensures var b := NewBracket(c, fee, players, schedule, now);
      && Inv(b) && Pot(b) == 0 && Left(b) == 2 * |players| - 1 && |Undecided(b.nodes)| == |players| - 1
      && forall who :: !HasPaid(b, who)
  {
    var b := NewBracket(c, fee, players, schedule, now);
    NewBracketInv(c, fee, players, schedule, now);
    assert Undecided(b.nodes) == b.nodes.Keys;
    TreeHasOneNodeFewer(b);
    ShapeHasSlots(b);
    forall who ensures !HasPaid(b, who) {
      ClosedPaid(b, who);
    }
  }

  lemma CreateStep(s: State, fee: int, players: seq<Address>, schedule: seq<int>, signers: set<Address>, now: U32)
    requires StateInv(s)
    requires Create(s, fee, players, schedule, signers, now).Ok?
    ensures s.config.Some? && |players| >= 2 && |players| <= 64 && IsPowerOfTwo(|players|) && fee >= 1
    ensures EntrantsVerdict(players, |players|).None?
    ensures Create(s, fee, players, schedule, signers, now).value
         == s.(count := s.count + 1,
               brackets := s.brackets[s.count := NewBracket(s.config.value, fee, players, schedule, now)])
    ensures StateInv(Create(s, fee, players, schedule, signers, now).value)
  {
    var s' := Create(s, fee, players, schedule, signers, now).value;
    NewBracketInv(s.config.value, fee, players, schedule, now);
    var b := NewBracket(s.config.value, fee, players, schedule, now);
    AddBracketInv(s, b);
  }

  lemma AddBracketInv(s: State, b: Bracket)
    requires StateInv(s) && s.config.Some? && OkWith(b, s.config.value.token)
    ensures StateInv(s.(count := s.count + 1, brackets := s.brackets[s.count := b]))
  {
    hide Inv, Shape;
    InvShape(b);
    var s' := s.(count := s.count + 1, brackets := s.brackets[s.count := b]);
    var token := s.config.value.token;
    forall id: nat | id in s'.brackets ensures OkWith(s'.brackets[id], token) && Shape(s'.brackets[id]) {
      if id < s.count {
        assert s'.brackets[id] == s.brackets[id];
        assert OkWith(s.brackets[id], token);
      }
    }
  }

  lemma NextInv(s: State, tx: Tx)
    requires StateInv(s) && HostTx(tx)
    ensures StateInv(Next(s, tx))
  {
    if Apply(s, tx).Ok? {
      match tx.call
      case Init(_, _, _, _) =>
      case CreateTournament(fee, players, schedule) => CreateStep(s, fee, players, schedule, tx.signers, tx.now);
      case Outside(_, _, _, _) =>
      case _ =>
        TargetedStep(s, tx, 0, 0);
        GoodStepInv(s, Next(s, tx), Target(tx.call).value, 0, 0);
    }
  }

  /** Every accepted call on a tournament is a good step. */
  lemma TargetedStep(s: State, tx: Tx, tok: Address, who: Address)
    requires StateInv(s) && HostTx(tx) && Target(tx.call).Some? && Apply(s, tx).Ok?
    ensures s.config.Some? && Target(tx.call).value in s.brackets
    ensures GoodStep(s, Apply(s, tx).value, Target(tx.call).value, tok, who)
    ensures var b, b' := s.brackets[Target(tx.call).value], Apply(s, tx).value.brackets[Target(tx.call).value];
      && (b'.info.phase == Cancelled || Left(b') == Left(b) - 1)
      && |Undecided(b'.nodes)| == |Undecided(b.nodes)| - (if tx.call.Result? then 1 else 0)
  {
    match tx.call
    case Pay(id, player) => PayStep(s, id, player, tx.signers, tok, who);
    case Result(id, round, index, gameId, winner) => ResultStep(s, id, round, index, gameId, winner, tx.signers, tx.now, tok, who);
    case CancelTournament(id) => AbandonStep(s, id, tx.now, tok, who);
    case Timeout(id, caller) => AbandonStep(s, id, tx.now, tok, who);
  }
}
