/** Conservation per token, who ends with what, the dispute window, and payouts that cannot be refused. */
module EscrowProofs {
  import opened Types
  import opened Token
  import opened EscrowModel

  // ---------------------------- the invariant ----------------------------

  ghost predicate MatchOk(m: Match) {
    && MIN_STAKE <= m.stake <= MAX_STAKE
    && m.player1 != m.player2
    && (m.deposited1 ==> m.player1 != SELF)
    && (m.deposited2 ==> m.player2 != SELF)
    && (m.state == Pending ==> !(m.deposited1 && m.deposited2))
    && (m.state in {Active, PendingResult, Completed} ==> m.deposited1 && m.deposited2 && m.activatedLedger.Some?)
    && (m.state in {PendingResult, Completed} ==> m.pendingLedger.Some? && m.pendingWinner.Some?)
    && (m.state in {Pending, Active} ==> m.pendingLedger.None? && m.pendingWinner.None?)
    && (m.state == Completed <==> m.completedLedger.Some?)
    && (m.state == Cancelled ==> m.pendingWinner.None?)
  }

  ghost predicate StateInv(s: State) {
    && (forall id: nat :: id in s.matches <==> id < s.count)
    && (s.config.None? ==> s.count == 0)
    && (forall id: nat :: id in s.matches ==> MatchOk(s.matches[id]))
    && (forall id: nat :: id in s.matches ==> s.matches[id].gameId in s.gameIds && s.gameIds[s.matches[id].gameId] == id)
  }

  /** The standing of `who` with a match, in its token: what they have received from it less what they paid in. */
  function Standing(m: Match, who: Address): int {
    match m.state
    case Cancelled => 0
    case Completed =>
      if m.pendingWinner.None? || m.pendingWinner.value == Draw then 0
      else if who == (if m.pendingWinner.value == Player1 then m.player1 else m.player2) then m.stake
      else if who == m.player1 || who == m.player2 then -m.stake
      else 0
    case _ =>
      -(if who == m.player1 && m.deposited1 then m.stake else 0)
      - (if who == m.player2 && m.deposited2 then m.stake else 0)
  }

  // ---------------------------- one accepted call on a match ----------------------------

  ghost predicate Kept(s: State, s': State, id: nat)
    requires id in s.matches
  {
    id in s'.matches && s' == s.(matches := s.matches[id := s'.matches[id]], book := s'.book)
  }

  ghost predicate SameTerms(m: Match, m': Match) {
    && m'.player1 == m.player1 && m'.player2 == m.player2 && m'.stake == m.stake && m'.token == m.token
    && m'.gameId == m.gameId && m'.platform == m.platform && m'.createdLedger == m.createdLedger
  }

  /** The ledger moves by exactly the change in what the match holds and in how each player stands. */
  ghost predicate Balanced(s: State, s': State, id: nat, tok: Address, who: Address)
    requires id in s.matches && id in s'.matches
  {
    var m, m' := s.matches[id], s'.matches[id];
    if tok != m.token then
      Bal(s'.book, tok, SELF) == Bal(s.book, tok, SELF) && Bal(s'.book, tok, who) == Bal(s.book, tok, who)
    else
      && Bal(s'.book, tok, SELF) - Bal(s.book, tok, SELF) == EscrowBalance(m') - EscrowBalance(m)
      && (who != SELF ==> Bal(s'.book, tok, who) - Bal(s.book, tok, who) == Standing(m', who) - Standing(m, who))
  }

  ghost predicate GoodStep(s: State, s': State, id: nat, tok: Address, who: Address) {
    && id in s.matches && Kept(s, s', id)
    && MatchOk(s'.matches[id]) && SameTerms(s.matches[id], s'.matches[id])
    && Balanced(s, s', id, tok, who)
    && s.matches[id].state !in {Completed, Cancelled}
  }

  lemma TargetedStep(s: State, tx: Tx, tok: Address, who: Address)
    requires StateInv(s) && HostTx(tx) && Target(tx.call).Some? && Accepted(s, tx)
    ensures GoodStep(s, Next(s, tx), Target(tx.call).value, tok, who)
  {
    hide StateInv, GoodStep, Deposit, SubmitResult, OverrideResult, FinalizeResult, ClaimTimeout, CancelMatch;
    match tx.call
    case Pay(id, player, allowance) => PayStep(s, id, player, allowance, tx.signers, tx.now, tok, who);
    case Report(id, gameId, winner, caller) => ReportStep(s, id, gameId, winner, caller, tx.signers, tx.now, tok, who);
    case Override(id, winner, caller) => OverrideStep(s, id, winner, caller, tx.signers, tx.now, tok, who);
    case Finalize(id, caller) => FinalizeStep(s, id, caller, tx.signers, tx.now, tok, who);
    case Timeout(id, caller) => TimeoutStep(s, id, caller, tx.signers, tx.now, tok, who);
    case Cancel(id, caller) => CancelStep(s, id, caller, tx.signers, tx.now, tok, who);
  }

  lemma ReportStep(s: State, id: nat, gameId: seq<Byte>, winner: Winner, caller: Address, signers: set<Address>, now: U32, tok: Address, who: Address)
    requires StateInv(s) && SubmitResult(s, id, gameId, winner, caller, signers, now).Ok?
    ensures GoodStep(s, SubmitResult(s, id, gameId, winner, caller, signers, now).value, id, tok, who)
  {
  }

  lemma OverrideStep(s: State, id: nat, winner: Winner, caller: Address, signers: set<Address>, now: U32, tok: Address, who: Address)
    requires StateInv(s) && OverrideResult(s, id, winner, caller, signers, now).Ok?
    ensures GoodStep(s, OverrideResult(s, id, winner, caller, signers, now).value, id, tok, who)
  {
    assert s.matches == s.matches[id := s.matches[id]];
  }

  lemma PayStep(s: State, id: nat, player: Address, allowance: int, signers: set<Address>, now: U32, tok: Address, who: Address)
    requires StateInv(s) && SELF !in signers && Deposit(s, id, player, allowance, signers, now).Ok?
    ensures GoodStep(s, Deposit(s, id, player, allowance, signers, now).value, id, tok, who)
  {
    hide StateInv, Transfer, Bal;
    StoredMatch(s, id);
    var m := s.matches[id];
    TransferMoves(s.book, m.token, player, SELF, m.stake, tok, SELF);
    TransferMoves(s.book, m.token, player, SELF, m.stake, tok, who);
  }

  lemma StoredMatch(s: State, id: nat)
    requires StateInv(s)
    ensures id in s.matches ==> id < s.count && s.config.Some? && MatchOk(s.matches[id])
  {
  }

  lemma PayTwoMoves(book: Book, token: Address, p: Address, a: int, q: Address, b: int, tok: Address, who: Address)
    requires PayTwo(book, token, p, a, q, b).Some? && p != SELF && q != SELF
    ensures Bal(PayTwo(book, token, p, a, q, b).value, tok, who)
         == Bal(book, tok, who)
          + (if tok != token then 0 else (if who == p then a else 0) + (if who == q then b else 0) - (if who == SELF then a + b else 0))
  {
    var mid := Transfer(book, token, SELF, p, a).value;
    TransferMoves(book, token, SELF, p, a, tok, who);
    TransferMoves(mid, token, SELF, q, b, tok, who);
  }

  lemma FinalizeStep(s: State, id: nat, caller: Address, signers: set<Address>, now: U32, tok: Address, who: Address)
    requires StateInv(s) && FinalizeResult(s, id, caller, signers, now).Ok?
    ensures GoodStep(s, FinalizeResult(s, id, caller, signers, now).value, id, tok, who)
  {
    hide StateInv, Transfer, Bal;
    StoredMatch(s, id);
    var m := s.matches[id];
    if m.pendingWinner.value == Draw {
      PayTwoMoves(s.book, m.token, m.player1, m.stake, m.player2, m.stake, tok, SELF);
      PayTwoMoves(s.book, m.token, m.player1, m.stake, m.player2, m.stake, tok, who);
    } else {
      var p := if m.pendingWinner.value == Player1 then m.player1 else m.player2;
      TransferMoves(s.book, m.token, SELF, p, m.stake * 2, tok, SELF);
      TransferMoves(s.book, m.token, SELF, p, m.stake * 2, tok, who);
    }
  }

  lemma TimeoutStep(s: State, id: nat, caller: Address, signers: set<Address>, now: U32, tok: Address, who: Address)
    requires StateInv(s) && ClaimTimeout(s, id, caller, signers, now).Ok?
    ensures GoodStep(s, ClaimTimeout(s, id, caller, signers, now).value, id, tok, who)
  {
    hide StateInv, Transfer, Bal;
    StoredMatch(s, id);
    var m := s.matches[id];
    PayTwoMoves(s.book, m.token, m.player1, m.stake, m.player2, m.stake, tok, SELF);
    PayTwoMoves(s.book, m.token, m.player1, m.stake, m.player2, m.stake, tok, who);
  }

  lemma CancelStep(s: State, id: nat, caller: Address, signers: set<Address>, now: U32, tok: Address, who: Address)
    requires StateInv(s) && CancelMatch(s, id, caller, signers, now).Ok?
    ensures GoodStep(s, CancelMatch(s, id, caller, signers, now).value, id, tok, who)
  {
    hide StateInv, Transfer, Bal;
    StoredMatch(s, id);
    var m := s.matches[id];
    var mid := if m.deposited1 then Transfer(s.book, m.token, SELF, m.player1, m.stake).value else s.book;
    if m.deposited1 {
      TransferMoves(s.book, m.token, SELF, m.player1, m.stake, tok, SELF);
      TransferMoves(s.book, m.token, SELF, m.player1, m.stake, tok, who);
    }
    if m.deposited2 {
      TransferMoves(mid, m.token, SELF, m.player2, m.stake, tok, SELF);
      TransferMoves(mid, m.token, SELF, m.player2, m.stake, tok, who);
    }
  }

  /** How one transaction looks to match `id`: an accepted call on it, its creation, or nothing at all. */
  ghost predicate Acts(s: State, tx: Tx, id: nat) {
    Accepted(s, tx) && Target(tx.call) == Some(id)
  }

  lemma KeptInv(s: State, s': State, id: nat)
    requires StateInv(s) && id in s.matches && Kept(s, s', id)
    requires MatchOk(s'.matches[id]) && s'.matches[id].gameId == s.matches[id].gameId
    ensures StateInv(s')
  {
    hide MatchOk;
    forall j: nat | j in s'.matches
      ensures MatchOk(s'.matches[j]) && s'.matches[j].gameId in s'.gameIds && s'.gameIds[s'.matches[j].gameId] == j
    {
      assert j != id ==> s'.matches[j] == s.matches[j];
    }
  }

  lemma UntargetedStep(s: State, tx: Tx)
    requires StateInv(s) && HostTx(tx) && Target(tx.call).None? && Accepted(s, tx)
    ensures var s' := Next(s, tx);
      && StateInv(s')
      && s'.count == (if tx.call.Create? then s.count + 1 else s.count)
      && (forall j: nat :: j < s.count ==> s'.matches[j] == s.matches[j])
      && (tx.call.Create? ==> NewMatch(s'.matches[s.count]))
      && (s.config.Some? ==> s'.config.Some? && s'.config.value.window == s.config.value.window
                             && s'.config.value.token == s.config.value.token)
  {
    hide StateInv, CreateMatch, Transfer, Bal, SomeActive;
    if tx.call.Create? {
      var c := tx.call;
      CreateStep(s, c.player1, c.player2, c.stake, c.chosen, c.gameId, c.platform, tx.signers, tx.now);
    } else {
      AdminStep(s, tx);
    }
  }

  lemma EmptyBeforeInit(s: State)
    requires StateInv(s)
    ensures s.config.None? ==> s.count == 0
  {
  }

  lemma SameMatches(s: State, s': State)
    requires StateInv(s) && s'.matches == s.matches && s'.gameIds == s.gameIds && s'.count == s.count
    requires s'.config.None? ==> s.config.None?
    ensures StateInv(s')
  {
    hide MatchOk;
  }

  lemma AdminStep(s: State, tx: Tx)
    requires StateInv(s) && Target(tx.call).None? && !tx.call.Create? && Accepted(s, tx)
    ensures var s' := Next(s, tx);
      && StateInv(s') && s'.count == s.count && s'.matches == s.matches
      && (s.config.Some? ==> s'.config.Some? && s'.config.value.window == s.config.value.window
                             && s'.config.value.token == s.config.value.token)
  {
    hide StateInv, CreateMatch, Transfer, Bal, SomeActive;
    EmptyBeforeInit(s);
    SameMatches(s, Next(s, tx));
  }

  lemma CreateStep(s: State, player1: Address, player2: Address, stake: int, token: Option<Address>,
                   gameId: seq<Byte>, platform: Platform, signers: set<Address>, now: U32)
    requires StateInv(s) && CreateMatch(s, player1, player2, stake, token, gameId, platform, signers, now).Ok?
    ensures var s' := CreateMatch(s, player1, player2, stake, token, gameId, platform, signers, now).value;
      && StateInv(s')
      && s'.count == s.count + 1 && s'.config == s.config
      && (forall j: nat :: j < s.count ==> s'.matches[j] == s.matches[j])
      && NewMatch(s'.matches[s.count])
  {
    var s' := CreateMatch(s, player1, player2, stake, token, gameId, platform, signers, now).value;
    var m := s'.matches[s.count];
    assert MatchOk(m);
    hide MatchOk, ValidGameId;
    forall j: nat | j in s'.matches
      ensures MatchOk(s'.matches[j]) && s'.matches[j].gameId in s'.gameIds && s'.gameIds[s'.matches[j].gameId] == j
    {
      assert j != s.count ==> s'.matches[j] == s.matches[j];
    }
  }

  lemma NextInv(s: State, tx: Tx)
    requires StateInv(s) && HostTx(tx)
    ensures StateInv(Next(s, tx))
  {
    hide Apply, MatchOk, StateInv;
    if Accepted(s, tx) {
      if Target(tx.call).Some? {
        TargetedStep(s, tx, 0, 0);
        KeptInv(s, Next(s, tx), Target(tx.call).value);
      } else {
        UntargetedStep(s, tx);
      }
    }
  }

  lemma SeenFrom(s: State, tx: Tx, id: nat)
    requires StateInv(s) && HostTx(tx)
    ensures StateInv(Next(s, tx)) && s.count <= Next(s, tx).count <= s.count + 1
    ensures !Accepted(s, tx) ==> Next(s, tx) == s
    ensures Acts(s, tx, id) ==> id < s.count && Next(s, tx).config == s.config
    ensures !Acts(s, tx, id) && id < s.count ==> Next(s, tx).matches[id] == s.matches[id]
    ensures s.count <= id < Next(s, tx).count ==>
      Accepted(s, tx) && tx.call.Create? && id == s.count && NewMatch(Next(s, tx).matches[id])
    ensures s.config.Some? ==> Next(s, tx).config.Some? && Next(s, tx).config.value.window == s.config.value.window
    ensures s.config.Some? ==> Next(s, tx).config.value.token == s.config.value.token
  {
    hide Apply, MatchOk, Balanced;
    NextInv(s, tx);
    if Accepted(s, tx) {
      if Target(tx.call).Some? {
        TargetedStep(s, tx, 0, 0);
      } else {
        UntargetedStep(s, tx);
      }
    }
  }

  ghost predicate NewMatch(m: Match) {
    m.state == Pending && !m.deposited1 && !m.deposited2 && m.pendingWinner.None?
  }

  ghost predicate Genesis(s: State) {
    s.config.None? && s.count == 0 && s.matches == map[] && s.gameIds == map[]
  }

  lemma {:induction false} RunInv(s: State, txs: seq<Tx>)
    requires StateInv(s) && HostRun(txs)
    ensures StateInv(Run(s, txs))
  {
    if txs != [] {
      RunInv(s, txs[..|txs| - 1]);
      NextInv(Before(s, txs), txs[|txs| - 1]);
    }
  }

  /** In every run no two matches share a game identifier. */
  lemma GameIdsAreUnique(s: State, txs: seq<Tx>, i: nat, j: nat)
    requires Genesis(s) && HostRun(txs)
    requires i in Run(s, txs).matches && j in Run(s, txs).matches
    requires Run(s, txs).matches[i].gameId == Run(s, txs).matches[j].gameId
    ensures i == j
  {
    RunInv(s, txs);
  }

  // ---------------------------- conservation ----------------------------

  /** Tokens that reach the contract outside any match, less what emergency drains took. */
  ghost function Inflow(s: State, txs: seq<Tx>, tok: Address): int {
    if txs == [] then 0
    else
      Inflow(s, txs[..|txs| - 1], tok) + Inflow1(Before(s, txs), txs[|txs| - 1], tok)
  }

  /** The escrow balances of the first `m` matches held in `tok`. */
  ghost function Escrowed(s: State, tok: Address, m: nat): int
    requires forall id: nat :: id < m ==> id in s.matches
  {
    if m == 0 then 0
    else Escrowed(s, tok, m - 1) + (if s.matches[m - 1].token == tok then EscrowBalance(s.matches[m - 1]) else 0)
  }

  function Part(m: Match, tok: Address): int {
    if m.token == tok then EscrowBalance(m) else 0
  }

  lemma {:induction false} EscrowedAfter(s: State, s': State, tok: Address, id: nat, m: nat)
    requires forall j: nat :: j < m ==> j in s.matches && j in s'.matches
    requires forall j: nat :: j < m && j != id ==> s'.matches[j] == s.matches[j]
    ensures Escrowed(s', tok, m) == Escrowed(s, tok, m) + (if id < m then Part(s'.matches[id], tok) - Part(s.matches[id], tok) else 0)
  {
    if m > 0 {
      EscrowedAfter(s, s', tok, id, m - 1);
    }
  }

  lemma {:induction false} EscrowedCovers(s: State, tok: Address, id: nat, m: nat)
    requires StateInv(s) && m <= s.count
    ensures Escrowed(s, tok, m) >= 0
    ensures id < m && s.matches[id].token == tok ==> Escrowed(s, tok, m) >= EscrowBalance(s.matches[id])
  {
    if m > 0 {
      EscrowedCovers(s, tok, id, m - 1);
      assert MatchOk(s.matches[m - 1]);
    }
  }

  /** What one transaction moves in or out of the contract outside any match. */
  ghost function Inflow1(s: State, tx: Tx, tok: Address): int {
    if !Accepted(s, tx) then 0
    else if tx.call.Outside? && tx.call.to == SELF && tx.call.token == tok then tx.call.amount
    else if tx.call.Drain? then Bal(Next(s, tx).book, tok, SELF) - Bal(s.book, tok, SELF)
    else 0
  }

  lemma UntargetedBooks(s: State, tx: Tx, tok: Address)
    requires StateInv(s) && HostTx(tx) && Target(tx.call).None?
    ensures Bal(Next(s, tx).book, tok, SELF) - Bal(s.book, tok, SELF) == Inflow1(s, tx, tok)
  {
    hide StateInv;
    if tx.call.Outside? && Accepted(s, tx) {
      TransferMoves(s.book, tx.call.token, tx.call.from, tx.call.to, tx.call.amount, tok, SELF);
    }
  }

  lemma UntouchedMatches(s: State, tx: Tx)
    requires StateInv(s) && HostTx(tx) && Target(tx.call).None?
    ensures StateInv(Next(s, tx))
    ensures forall j: nat :: j < s.count ==> Next(s, tx).matches[j] == s.matches[j]
  {
    hide Apply, MatchOk;
    NextInv(s, tx);
    if Accepted(s, tx) {
      UntargetedStep(s, tx);
    }
  }

  lemma TargetedConserves(s: State, tx: Tx, tok: Address)
    requires StateInv(s) && HostTx(tx) && Target(tx.call).Some? && Accepted(s, tx)
    ensures StateInv(Next(s, tx)) && Next(s, tx).count == s.count
    ensures Bal(Next(s, tx).book, tok, SELF) - Bal(s.book, tok, SELF)
         == Escrowed(Next(s, tx), tok, s.count) - Escrowed(s, tok, s.count)
  {
    hide Apply, MatchOk, EscrowBalance, Standing;
    NextInv(s, tx);
    TargetedStep(s, tx, tok, SELF);
    hide Next;
    EscrowedAfter(s, Next(s, tx), tok, Target(tx.call).value, s.count);
  }

  lemma StepConserves(s: State, tx: Tx, tok: Address)
    requires StateInv(s) && HostTx(tx)
    ensures StateInv(Next(s, tx))
    ensures Bal(Next(s, tx).book, tok, SELF) - Bal(s.book, tok, SELF)
         == Escrowed(Next(s, tx), tok, Next(s, tx).count) - Escrowed(s, tok, s.count) + Inflow1(s, tx, tok)
  {
    hide Apply, MatchOk, Bal;
    NextInv(s, tx);
    if Target(tx.call).None? {
      hide Accepted, Next, Inflow1;
      UntargetedBooks(s, tx, tok);
      SeenFrom(s, tx, s.count);
      UntouchedMatches(s, tx);
      EscrowedAfter(s, Next(s, tx), tok, s.count, s.count);
    } else if Accepted(s, tx) {
      TargetedConserves(s, tx, tok);
    }
  }

  /** Conservation: in every token the contract holds what it began with, what came in from outside,
      and the escrow balances of the matches in that token; drains are the only other way out. */
  lemma {:induction false} TokensAreConserved(s: State, txs: seq<Tx>, tok: Address)
    requires Genesis(s) && HostRun(txs)
    ensures StateInv(Run(s, txs))
    ensures Bal(Run(s, txs).book, tok, SELF)
         == Bal(s.book, tok, SELF) + Inflow(s, txs, tok) + Escrowed(Run(s, txs), tok, Run(s, txs).count)
  {
    RunInv(s, txs);
    if txs != [] {
      hide Apply, MatchOk, Inflow1, Next;
      var b, tx := Before(s, txs), txs[|txs| - 1];
      TokensAreConserved(s, txs[..|txs| - 1], tok);
      StepConserves(b, tx, tok);
    }
  }

  // ---------------------------- payouts cannot be refused ----------------------------

  lemma PayTwoSucceeds(book: Book, token: Address, p: Address, a: int, q: Address, b: int)
    requires a >= 0 && b >= 0 && p != SELF && Bal(book, token, SELF) >= a + b
    ensures PayTwo(book, token, p, a, q, b).Some?
  {
    TransferMoves(book, token, SELF, p, a, token, SELF);
  }

  /** While the reserve is covered from outside the matches, no call on a match is refused for want of reserve
      or reports a failed transfer. */
  lemma NeverShortOfReserve(s: State, txs: seq<Tx>, tx: Tx)
    requires Genesis(s) && HostRun(txs) && HostTx(tx) && Target(tx.call).Some? && !tx.call.Pay?
    requires Target(tx.call).value in Run(s, txs).matches ==>
      var tok := Run(s, txs).matches[Target(tx.call).value].token;
      Bal(s.book, tok, SELF) + Inflow(s, txs, tok) >= RESERVE_BUFFER
    ensures Apply(Run(s, txs), tx) != Err(InsufficientReserve)
    ensures Apply(Run(s, txs), tx) != Err(TransferFailed)
  {
    hide Apply, Inflow, MatchOk;
    var e, id := Run(s, txs), Target(tx.call).value;
    RunInv(s, txs);
    if id in e.matches {
      TokensAreConserved(s, txs, e.matches[id].token);
      EscrowedCovers(e, e.matches[id].token, id, e.count);
      CoveredPayout(e, tx);
    } else {
      NoSuchMatch(e, tx);
    }
  }

  lemma NoSuchMatch(s: State, tx: Tx)
    requires Target(tx.call).Some? && Target(tx.call).value !in s.matches
    ensures Apply(s, tx) != Err(InsufficientReserve) && Apply(s, tx) != Err(TransferFailed)
  {
  }

  lemma CoveredPayout(e: State, tx: Tx)
    requires StateInv(e) && Target(tx.call).Some? && !tx.call.Pay? && Target(tx.call).value in e.matches
    requires var m := e.matches[Target(tx.call).value]; ReserveHolds(e.book, m.token, EscrowBalance(m))
    ensures Apply(e, tx) != Err(InsufficientReserve) && Apply(e, tx) != Err(TransferFailed)
  {
    var id := Target(tx.call).value;
    var m := e.matches[id];
    assert MatchOk(m);
    hide StateInv;
    if tx.call.Cancel? {
      hide PayTwo;
      if m.state in {Pending, Active} && m.deposited1 && m.deposited2 {
        TransferMoves(e.book, m.token, SELF, m.player1, m.stake, m.token, SELF);
      }
    } else {
      hide Transfer, Bal;
    }
  }

  // ---------------------------- who ends with what ----------------------------

  /** What the accepted calls on match `id` moved in or out of `who`'s balance. */
  ghost function Flow(s: State, txs: seq<Tx>, id: nat, tok: Address, who: Address): int {
    if txs == [] then 0
    else
      var b, tx := Before(s, txs), txs[|txs| - 1];
      Flow(s, txs[..|txs| - 1], id, tok, who)
      + (if Acts(b, tx, id) then Bal(Next(b, tx).book, tok, who) - Bal(b.book, tok, who) else 0)
  }

  /** The winner named by the last accepted report or override. */
  ghost function LastNamed(s: State, txs: seq<Tx>, id: nat): Option<Winner> {
    if txs == [] then None
    else
      var tx := txs[|txs| - 1];
      if Acts(Before(s, txs), tx, id) && tx.call.Report? then Some(tx.call.winner)
      else if Acts(Before(s, txs), tx, id) && tx.call.Override? then Some(tx.call.winner)
      else LastNamed(s, txs[..|txs| - 1], id)
  }

  ghost function Finalizations(s: State, txs: seq<Tx>, id: nat): nat {
    if txs == [] then 0
    else
      Finalizations(s, txs[..|txs| - 1], id)
      + (if Acts(Before(s, txs), txs[|txs| - 1], id) && txs[|txs| - 1].call.Finalize? then 1 else 0)
  }

  ghost predicate Recorded(s: State, txs: seq<Tx>, id: nat, who: Address) {
    var e := Run(s, txs);
    if id in e.matches then
      && Flow(s, txs, id, e.matches[id].token, who) == Standing(e.matches[id], who)
      && e.matches[id].pendingWinner == LastNamed(s, txs, id)
      && Finalizations(s, txs, id) == (if e.matches[id].state == Completed then 1 else 0)
    else
      && (forall tok :: Flow(s, txs, id, tok, who) == 0)
      && LastNamed(s, txs, id) == None && Finalizations(s, txs, id) == 0
  }

  lemma ActsOn(s: State, tx: Tx, id: nat, who: Address)
    requires StateInv(s) && HostTx(tx) && Acts(s, tx, id) && who != SELF
    ensures id in s.matches && id in Next(s, tx).matches
    ensures var m, m', tok := s.matches[id], Next(s, tx).matches[id], s.matches[id].token;
      && m'.token == tok
      && Bal(Next(s, tx).book, tok, who) - Bal(s.book, tok, who) == Standing(m', who) - Standing(m, who)
      && m.state !in {Completed, Cancelled}
      && (m'.state == Completed <==> tx.call.Finalize?)
      && m'.pendingWinner == (if tx.call.Report? then Some(tx.call.winner)
                              else if tx.call.Override? then Some(tx.call.winner) else m.pendingWinner)
  {
    TargetedStep(s, tx, 0, who);
    TargetedStep(s, tx, s.matches[id].token, who);
  }

  /** Over any run a match has moved exactly each player's standing, its pending winner is the one last
      named, and it is finalized once if it is Completed and never otherwise. */
  lemma {:induction false} RunIsRecorded(s: State, txs: seq<Tx>, id: nat, who: Address)
    requires Genesis(s) && HostRun(txs) && who != SELF
    ensures Recorded(s, txs, id, who)
  {
    if txs != [] {
      hide Apply, MatchOk, Accepted, Next;
      var b, tx := Before(s, txs), txs[|txs| - 1];
      RunIsRecorded(s, txs[..|txs| - 1], id, who);
      RunInv(s, txs[..|txs| - 1]);
      SeenFrom(b, tx, id);
      if Acts(b, tx, id) {
        ActsOn(b, tx, id, who);
      } else if id !in b.matches {
        assert forall tok :: Flow(s, txs, id, tok, who) == Flow(s, txs[..|txs| - 1], id, tok, who);
        assert id in Run(s, txs).matches ==> NewMatch(Run(s, txs).matches[id]);
      }
    }
  }

  /** A completed match paid the winner last named by oracle or admin, once, and nobody else. */
  lemma FinalSettlement(s: State, txs: seq<Tx>, id: nat, who: Address)
    requires Genesis(s) && HostRun(txs) && who != SELF && id in Run(s, txs).matches
    ensures var m := Run(s, txs).matches[id];
      var net := Flow(s, txs, id, m.token, who);
      && (m.state == Cancelled ==> net == 0)
      && (m.state == Completed ==>
            && Finalizations(s, txs, id) == 1
            && LastNamed(s, txs, id).Some?
            && match LastNamed(s, txs, id).value
               case Draw => net == 0
               case Player1 => net == (if who == m.player1 then m.stake else if who == m.player2 then -m.stake else 0)
               case Player2 => net == (if who == m.player2 then m.stake else if who == m.player1 then -m.stake else 0))
  {
    RunIsRecorded(s, txs, id, who);
    RunInv(s, txs);
    assert MatchOk(Run(s, txs).matches[id]);
  }

  // ---------------------------- the dispute window ----------------------------

  /** The last ledger at which an override is accepted. */
  ghost function Deadline(s: State, id: nat): nat
    requires s.config.Some? && id in s.matches && s.matches[id].pendingLedger.Some?
  {
    s.matches[id].pendingLedger.value + s.config.value.window
  }

  ghost predicate InDispute(s: State, id: nat) {
    StateInv(s) && s.config.Some? && id in s.matches && s.matches[id].state == PendingResult
  }

  /** The admin may override exactly up to the deadline, and a player, the oracle or the admin may have the
      payout made exactly after it: at every ledger one of the two is open, if and only if the deadline fits
      a 32-bit ledger number. */
  lemma OneWindowIsOpen(s: State, id: nat, winner: Winner, admin: Address, caller: Address, signers: set<Address>, now: U32)
    requires InDispute(s, id) && admin == s.config.value.admin && admin in signers && caller in signers
    requires caller in {s.matches[id].player1, s.matches[id].player2, s.config.value.oracle, s.config.value.admin}
    requires ReserveHolds(s.book, s.matches[id].token, EscrowBalance(s.matches[id]))
    ensures s.matches[id].pendingLedger.Some?
    ensures OverrideResult(s, id, winner, admin, signers, now).Ok? <==> Deadline(s, id) <= U32_MAX && now <= Deadline(s, id)
    ensures FinalizeResult(s, id, caller, signers, now).Ok? <==> Deadline(s, id) <= U32_MAX && now > Deadline(s, id)
  {
    var m := s.matches[id];
    assert MatchOk(m);
    PayTwoSucceeds(s.book, m.token, m.player1, m.stake, m.player2, m.stake);
  }

  ghost predicate AllAfter(txs: seq<Tx>, ledger: nat) {
    forall i :: 0 <= i < |txs| ==> txs[i].now > ledger
  }

  lemma DisputeStep(s: State, tx: Tx, id: nat)
    requires InDispute(s, id) && HostTx(tx)
    ensures s.matches[id].pendingLedger.Some?
    ensures id in Next(s, tx).matches
    ensures Next(s, tx).matches[id].state in {PendingResult, Completed}
    ensures Next(s, tx).matches[id].pendingLedger == s.matches[id].pendingLedger
    ensures Next(s, tx).matches[id].state == Completed ==>
      Next(s, tx).matches[id].pendingWinner == s.matches[id].pendingWinner && Deadline(s, id) <= U32_MAX && tx.now > Deadline(s, id)
    ensures tx.now > Deadline(s, id) || Deadline(s, id) > U32_MAX ==>
      Next(s, tx).matches[id].pendingWinner == s.matches[id].pendingWinner
    ensures Deadline(s, id) > U32_MAX ==> Next(s, tx).matches[id] == s.matches[id]
  {
    assert MatchOk(s.matches[id]);
    SeenFrom(s, tx, id);
    if !Acts(s, tx, id) {
      hide Apply;
    }
  }

  /** Once the deadline has passed, the pending winner is frozen in every later run; if the deadline
      does not fit a 32-bit ledger number the match never leaves PendingResult at all. */
  lemma {:induction false} WinnerIsFrozen(s: State, txs: seq<Tx>, id: nat)
    requires InDispute(s, id) && HostRun(txs)
    requires s.matches[id].pendingLedger.Some?
    requires AllAfter(txs, Deadline(s, id)) || Deadline(s, id) > U32_MAX
    ensures var e := Run(s, txs);
      && StateInv(e) && e.config.Some? && e.config.value.window == s.config.value.window
      && id in e.matches && e.matches[id].state in {PendingResult, Completed}
      && e.matches[id].pendingWinner == s.matches[id].pendingWinner
      && e.matches[id].pendingLedger == s.matches[id].pendingLedger
      && (Deadline(s, id) > U32_MAX ==> e.matches[id] == s.matches[id])
  {
    RunInv(s, txs);
    if txs != [] {
      hide Apply, MatchOk, Accepted, Next;
      var b, tx := Before(s, txs), txs[|txs| - 1];
      WinnerIsFrozen(s, txs[..|txs| - 1], id);
      SeenFrom(b, tx, id);
      if b.matches[id].state == PendingResult {
        DisputeStep(b, tx, id);
      } else {
        CompletedStays(b, tx, id);
      }
    }
  }

  /** Completed and Cancelled are terminal. */
  lemma CompletedStays(s: State, tx: Tx, id: nat)
    requires StateInv(s) && HostTx(tx) && id in s.matches && s.matches[id].state in {Completed, Cancelled}
    ensures id in Next(s, tx).matches && Next(s, tx).matches[id] == s.matches[id]
  {
    hide Apply;
    SeenFrom(s, tx, id);
    if Acts(s, tx, id) {
      TargetedStep(s, tx, 0, 0);
    }
  }

  /** No run pays a disputed match before its deadline. */
  lemma {:induction false} NoEarlyPayout(s: State, txs: seq<Tx>, id: nat)
    requires InDispute(s, id) && HostRun(txs)
    requires s.matches[id].pendingLedger.Some?
    requires forall i :: 0 <= i < |txs| ==> txs[i].now <= Deadline(s, id)
    ensures var e := Run(s, txs);
      && InDispute(e, id) && e.config.value.window == s.config.value.window
      && e.matches[id].pendingLedger == s.matches[id].pendingLedger
  {
    RunInv(s, txs);
    if txs != [] {
      hide Apply, MatchOk, Accepted, Next;
      var b, tx := Before(s, txs), txs[|txs| - 1];
      NoEarlyPayout(s, txs[..|txs| - 1], id);
      SeenFrom(b, tx, id);
      DisputeStep(b, tx, id);
    }
  }

  /** A drain is accepted only when no match is Active. */
  lemma DrainSparesActiveMatches(s: State, tx: Tx, id: nat)
    requires StateInv(s) && tx.call.Drain? && Accepted(s, tx) && id in s.matches
    ensures s.matches[id].state != Active && s.paused && Next(s, tx).matches == s.matches
  {
  }
}
