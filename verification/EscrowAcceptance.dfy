/** Exactly when a payout, a refund or a cancellation is accepted, in every run whose reserve is covered. */
module EscrowAcceptance {
  import opened Types
  import opened Token
  import opened EscrowModel
  import opened EscrowProofs

  /** What came in from outside the matches covers the reserve buffer in the token of match `id`. */
  ghost predicate Covered(s: State, txs: seq<Tx>, id: nat) {
    id in Run(s, txs).matches ==>
      var tok := Run(s, txs).matches[id].token;
      Bal(s.book, tok, SELF) + Inflow(s, txs, tok) >= RESERVE_BUFFER
  }

  lemma CoveredReserve(s: State, txs: seq<Tx>, id: nat)
    requires Genesis(s) && HostRun(txs) && Covered(s, txs, id)
    ensures var e := Run(s, txs);
      StateInv(e) && (id in e.matches ==>
        id < e.count && e.config.Some? && MatchOk(e.matches[id]) && ReserveHolds(e.book, e.matches[id].token, EscrowBalance(e.matches[id])))
  {
    hide Run, Inflow, MatchOk;
    var e := Run(s, txs);
    RunInv(s, txs);
    StoredMatch(e, id);
    if id in e.matches {
      TokensAreConserved(s, txs, e.matches[id].token);
      EscrowedCovers(e, e.matches[id].token, id, e.count);
    }
  }

  predicate IsPlayer(m: Match, who: Address) {
    who == m.player1 || who == m.player2
  }

  /** A timeout claim goes through exactly for a signing player of an Active match after its timeout, if that
      ledger number fits 32 bits: neither the reserve nor the token can refuse it. */
  lemma TimeoutAcceptedIff(s: State, txs: seq<Tx>, id: nat, caller: Address, signers: set<Address>, now: U32)
    requires Genesis(s) && HostRun(txs) && Covered(s, txs, id)
    ensures var e := Run(s, txs);
      ClaimTimeout(e, id, caller, signers, now).Ok?
      <==> && id in e.matches && e.config.Some?
           && var m := e.matches[id];
              && m.state == Active && m.activatedLedger.Some? && IsPlayer(m, caller) && caller in signers
              && m.activatedLedger.value + e.config.value.timeout <= U32_MAX
              && now > m.activatedLedger.value + e.config.value.timeout
  {
    hide Run, Inflow, StateInv;
    var e := Run(s, txs);
    CoveredReserve(s, txs, id);
    if id in e.matches {
      var m := e.matches[id];
      if m.state == Active {
        PayTwoSucceeds(e.book, m.token, m.player1, m.stake, m.player2, m.stake);
      }
    }
  }

  /** A cancellation goes through exactly for a player of a Pending match who signs, or of an Active match that
      both players sign. */
  lemma CancelAcceptedIff(s: State, txs: seq<Tx>, id: nat, caller: Address, signers: set<Address>, now: U32)
    requires Genesis(s) && HostRun(txs) && Covered(s, txs, id)
    ensures var e := Run(s, txs);
      CancelMatch(e, id, caller, signers, now).Ok?
      <==> && id in e.matches
           && var m := e.matches[id];
              && IsPlayer(m, caller)
              && ((m.state == Pending && caller in signers) || (m.state == Active && m.player1 in signers && m.player2 in signers))
  {
    hide Run, Inflow, StateInv;
    var e := Run(s, txs);
    CoveredReserve(s, txs, id);
    if id in e.matches {
      var m := e.matches[id];
      if m.state in {Pending, Active} && m.deposited1 {
        TransferMoves(e.book, m.token, SELF, m.player1, m.stake, m.token, SELF);
      }
    }
  }

  /** A payout goes through exactly when one of the players, the oracle or the admin signs it after the
      deadline of a disputed match, if the deadline fits 32 bits. */
  lemma FinalizeAcceptedIff(s: State, txs: seq<Tx>, id: nat, caller: Address, signers: set<Address>, now: U32)
    requires Genesis(s) && HostRun(txs) && Covered(s, txs, id)
    ensures var e := Run(s, txs);
      FinalizeResult(e, id, caller, signers, now).Ok?
      <==> && id in e.matches && e.config.Some? && e.matches[id].state == PendingResult && e.matches[id].pendingLedger.Some?
           && (IsPlayer(e.matches[id], caller) || caller == e.config.value.oracle || caller == e.config.value.admin) && caller in signers
           && Deadline(e, id) <= U32_MAX && now > Deadline(e, id)
  {
    hide Run, Inflow, StateInv;
    var e := Run(s, txs);
    CoveredReserve(s, txs, id);
    if id in e.matches {
      var m := e.matches[id];
      if m.state == PendingResult {
        PayTwoSucceeds(e.book, m.token, m.player1, m.stake, m.player2, m.stake);
      }
    }
  }

  /** An override goes through exactly when the admin signs it up to that deadline. */
  lemma OverrideAcceptedIff(s: State, txs: seq<Tx>, id: nat, winner: Winner, caller: Address, signers: set<Address>, now: U32)
    requires Genesis(s) && HostRun(txs)
    ensures var e := Run(s, txs);
      OverrideResult(e, id, winner, caller, signers, now).Ok?
      <==> && id in e.matches && e.config.Some? && e.matches[id].state == PendingResult && e.matches[id].pendingLedger.Some?
           && caller == e.config.value.admin && caller in signers
           && Deadline(e, id) <= U32_MAX && now <= Deadline(e, id)
  {
    hide Run, StateInv;
    RunInv(s, txs);
    StoredMatch(Run(s, txs), id);
  }

  // ---------------------------- what is accepted while a match is young ----------------------------

  lemma {:induction false} TakenGames(s: State, txs: seq<Tx>, g: seq<Byte>)
    requires Genesis(s) && HostRun(txs) && s.gameIds == map[]
    ensures var e := Run(s, txs); g in e.gameIds <==> exists id: nat :: id in e.matches && e.matches[id].gameId == g
  {
    hide Apply, MatchOk, Next, Accepted;
    RunInv(s, txs);
    if txs != [] {
      var b, tx := Before(s, txs), txs[|txs| - 1];
      var before := txs[..|txs| - 1];
      TakenGames(s, before, g);
      RunInv(s, before);
      GameStep(b, tx, g);
      if g in b.gameIds {
        var id: nat :| id in b.matches && b.matches[id].gameId == g;
        SameGame(b, tx, id);
      }
    }
  }

  lemma SameGame(s: State, tx: Tx, id: nat)
    requires StateInv(s) && HostTx(tx) && id in s.matches
    ensures id in Next(s, tx).matches && Next(s, tx).matches[id].gameId == s.matches[id].gameId
  {
    hide Apply, MatchOk, Balanced, StateInv;
    StoredMatch(s, id);
    SeenFrom(s, tx, id);
    StoredMatch(Next(s, tx), id);
    if Acts(s, tx, id) {
      TargetedStep(s, tx, 0, 0);
    } else {
      StillStored(s, tx, id);
    }
  }

  lemma StillStored(s: State, tx: Tx, id: nat)
    requires StateInv(s) && StateInv(Next(s, tx)) && id in s.matches && s.count <= Next(s, tx).count
    ensures id in Next(s, tx).matches && id < s.count
  {
    hide MatchOk, Next;
  }

  lemma GameStep(s: State, tx: Tx, g: seq<Byte>)
    requires StateInv(s) && HostTx(tx)
    ensures g in Next(s, tx).gameIds <==> g in s.gameIds || (Accepted(s, tx) && tx.call.Create? && tx.call.gameId == g)
    ensures Accepted(s, tx) && tx.call.Create? ==> s.count in Next(s, tx).matches && Next(s, tx).matches[s.count].gameId == tx.call.gameId
  {
    hide StateInv, MatchOk, Transfer, Bal, PayTwo, SomeActive, ValidGameId, ReserveHolds, Funded;
    if tx.call.Create? {
      hide Deposit, SubmitResult, OverrideResult, FinalizeResult, ClaimTimeout, CancelMatch, EmergencyDrain;
    } else {
      hide CreateMatch;
    }
  }

  /** A match is created exactly when player1 signs, the contract is not paused, the stake is within its bounds,
      the players differ and are not zero, the game identifier is valid and no match of the run has it, and the
      token is allowed. */
  lemma CreateAcceptedIff(s: State, txs: seq<Tx>, player1: Address, player2: Address, stake: int, token: Option<Address>,
                          gameId: seq<Byte>, platform: Platform, signers: set<Address>, now: U32)
    requires Genesis(s) && HostRun(txs) && s.gameIds == map[]
    ensures var e := Run(s, txs);
      CreateMatch(e, player1, player2, stake, token, gameId, platform, signers, now).Ok?
      <==> && player1 in signers && !e.paused && e.config.Some? && 1 <= stake <= 10_000_000_000_000
           && player1 != player2 && player1 != ZERO_ADDRESS && player2 != ZERO_ADDRESS && ValidGameId(gameId)
           && (forall id: nat :: id in e.matches ==> e.matches[id].gameId != gameId)
           && (if token.Some? then token.value else e.config.value.token) in e.allowed
           && e.count < U64_MAX
  {
    hide Run, ValidGameId, MatchOk;
    RunInv(s, txs);
    TakenGames(s, txs, gameId);
  }

  /** A deposit is accepted exactly from a signing player of a Pending match who has not deposited, allows and
      owns the stake, while the contract is not paused. */
  lemma DepositAcceptedIff(s: State, txs: seq<Tx>, id: nat, player: Address, allowance: int, signers: set<Address>, now: U32)
    requires Genesis(s) && HostRun(txs)
    ensures var e := Run(s, txs);
      Deposit(e, id, player, allowance, signers, now).Ok?
      <==> && player in signers && !e.paused && id in e.matches
           && var m := e.matches[id];
              && m.state == Pending
              && ((player == m.player1 && !m.deposited1) || (player == m.player2 && !m.deposited2))
              && allowance >= m.stake && Bal(e.book, m.token, player) >= m.stake
  {
    hide Run, StateInv;
    RunInv(s, txs);
    StoredMatch(Run(s, txs), id);
  }

  /** A report is accepted exactly from the signing oracle for an Active match of that game, while the contract
      is not paused. */
  lemma ReportAcceptedIff(s: State, txs: seq<Tx>, id: nat, gameId: seq<Byte>, winner: Winner, caller: Address, signers: set<Address>, now: U32)
    requires Genesis(s) && HostRun(txs)
    ensures var e := Run(s, txs);
      SubmitResult(e, id, gameId, winner, caller, signers, now).Ok?
      <==> && !e.paused && id in e.matches && e.config.Some? && caller == e.config.value.oracle && caller in signers
           && e.matches[id].state == Active && e.matches[id].gameId == gameId
  {
    hide Run, StateInv;
    RunInv(s, txs);
    StoredMatch(Run(s, txs), id);
  }

  /** A drain is accepted exactly from the signing admin while paused and with no Active match, and moves the
      whole balance of the default token to the safe address. */
  lemma DrainAcceptedIff(s: State, txs: seq<Tx>, caller: Address, signers: set<Address>)
    requires Genesis(s) && HostRun(txs)
    ensures var e := Run(s, txs);
      EmergencyDrain(e, caller, signers).Ok?
      <==> && e.config.Some? && caller == e.config.value.admin && caller in signers && e.paused
           && forall id: nat :: id in e.matches ==> e.matches[id].state != Active
    ensures var e := Run(s, txs);
      EmergencyDrain(e, caller, signers).Ok? ==>
        var c, after := e.config.value, EmergencyDrain(e, caller, signers).value;
        && after == e.(book := after.book)
        && (c.safeAddress != SELF ==>
              && Bal(after.book, c.token, SELF) == 0
              && Bal(after.book, c.token, c.safeAddress) == Bal(e.book, c.token, c.safeAddress) + Bal(e.book, c.token, SELF))
  {
    hide Run, MatchOk;
    RunInv(s, txs);
  }

  /** Administration: one initialisation with a token that is a contract; pause and oracle changes exactly with
      the admin's signature, a transfer exactly from the signing admin to a different, non-zero address. */
  lemma AdminAcceptedIff(s: State, oracle: Address, admin: Address, token: Address, safe: Address, window: Option<U32>,
                         timeout: Option<U32>, tokenIsContract: bool, caller: Address, signers: set<Address>)
    ensures Initialize(s, oracle, admin, token, safe, window, timeout, tokenIsContract).Ok? <==> s.config.None? && tokenIsContract
    ensures SetPaused(s, true, signers).Ok? <==> s.config.Some? && s.config.value.admin in signers
    ensures SetPaused(s, false, signers).Ok? <==> s.config.Some? && s.config.value.admin in signers
    ensures UpdateOracle(s, oracle, signers).Ok? <==> s.config.Some? && s.config.value.admin in signers
    ensures TransferAdmin(s, caller, admin, signers).Ok?
       <==> s.config.Some? && caller == s.config.value.admin && caller in signers && admin != ZERO_ADDRESS && admin != caller
  {
  }
}
