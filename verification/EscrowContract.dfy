/** The escrow contract object: storage that the entry points read, write and, on failure, leave as it was. */
module EscrowContract {
  import opened Types
  import opened Token
  import opened EscrowModel

  class Escrow {
    var config: Option<Config>
    var paused: bool
    var count: nat
    var matches: map<nat, Match>
    var gameIds: map<seq<Byte>, nat>
    var allowed: set<Address>
    var book: Book

    ghost function Snapshot(): State
      reads this
    {
      State(config, paused, count, matches, gameIds, allowed, book)
    }

    /** A call did what the transaction says: committed its state, or failed and changed nothing. */
    ghost predicate Did<T>(reply: Reply, before: State, r: Outcome<T, Error>)
      reads this
    {
      match reply
      case Ok(after) => r.Ok? && Snapshot() == after
      case Err(e) => r == Err(e) && Snapshot() == before
    }

    constructor (initial: Book)
      ensures Snapshot() == State(None, false, 0, map[], map[], {}, initial)
    {
      config, paused, count, matches, gameIds, allowed, book := None, false, 0, map[], map[], {}, initial;
    }

    method Initialize(oracle: Address, admin: Address, token: Address, safe: Address,
                      window: Option<U32>, timeout: Option<U32>, tokenIsContract: bool) returns (r: Outcome<(), Error>)
      modifies this
      ensures Did(EscrowModel.Initialize(old(Snapshot()), oracle, admin, token, safe, window, timeout, tokenIsContract), old(Snapshot()), r)
    {
      if config.Some? {
        return Err(AlreadyInitialized);
      }
      if !tokenIsContract {
        return Err(Trap);
      }
      allowed := allowed + {token};
      count := 0;
      paused := false;
      var w := DISPUTE_WINDOW_LEDGERS;
      if window.Some? {
        w := window.value;
      }
      var t := DEFAULT_TIMEOUT_LEDGERS;
      if timeout.Some? {
        t := timeout.value;
      }
      config := Some(Config(oracle, admin, token, safe, w, t));
      return Ok(());
    }

    method CreateMatch(player1: Address, player2: Address, stake: int, token: Option<Address>,
                       gameId: seq<Byte>, platform: Platform, signers: set<Address>, now: U32) returns (r: Outcome<nat, Error>)
      modifies this
      ensures Did(EscrowModel.CreateMatch(old(Snapshot()), player1, player2, stake, token, gameId, platform, signers, now), old(Snapshot()), r)
      ensures r.Ok? ==> r.value == old(count)
    {
      if player1 !in signers {
        return Err(Trap);
      }
      if paused {
        return Err(ContractPaused);
      }
      if stake == 0 {
        return Err(InvalidStakeAmount);
      }
      if stake < MIN_STAKE {
        return Err(StakeTooLow);
      }
      if stake > MAX_STAKE {
        return Err(StakeTooHigh);
      }
      if player1 == player2 {
        return Err(InvalidPlayers);
      }
      if player1 == ZERO_ADDRESS || player2 == ZERO_ADDRESS {
        return Err(InvalidAddress);
      }
      if |gameId| == 0 || |gameId| > MAX_GAME_ID_LEN {
        return Err(InvalidGameId);
      }
      var idOk := AllIdBytes(gameId);
      if !idOk {
        return Err(InvalidGameId);
      }
      if gameId in gameIds {
        return Err(DuplicateGameId);
      }
      if config.None? {
        return Err(Unauthorized);
      }
      var chosen := config.value.token;
      if token.Some? {
        chosen := token.value;
      }
      if chosen !in allowed {
        return Err(TokenNotAllowlisted);
      }
      var id := count;
      if id in matches {
        return Err(AlreadyExists);
      }
      if id + 1 > U64_MAX {
        return Err(Overflow);
      }
      matches := matches[id := Match(player1, player2, stake, chosen, gameId, platform, Pending, false, false,
                                     now, None, None, None, None, None)];
      gameIds := gameIds[gameId := id];
      count := id + 1;
      return Ok(id);
    }

    method Deposit(id: nat, player: Address, allowance: int, signers: set<Address>, now: U32) returns (r: Outcome<(), Error>)
      modifies this
      ensures Did(EscrowModel.Deposit(old(Snapshot()), id, player, allowance, signers, now), old(Snapshot()), r)
    {
      if player !in signers {
        return Err(Trap);
      }
      if paused {
        return Err(ContractPaused);
      }
      if id !in matches {
        return Err(MatchNotFound);
      }
      var m := matches[id];
      if m.state == Cancelled {
        return Err(MatchCancelled);
      }
      if m.state == Completed {
        return Err(MatchCompleted);
      }
      if m.state != Pending {
        return Err(InvalidState);
      }
      var isP1 := player == m.player1;
      if !isP1 && player != m.player2 {
        return Err(Unauthorized);
      }
      var already := m.deposited2;
      if isP1 {
        already := m.deposited1;
      }
      if already {
        return Err(AlreadyFunded);
      }
      if allowance < m.stake {
        return Err(InsufficientAllowance);
      }
      var moved := Transfer(book, m.token, player, SELF, m.stake);
      if moved.None? {
        return Err(TransferFailed);
      }
      book := moved.value;
      if isP1 {
        m := m.(deposited1 := true);
      } else {
        m := m.(deposited2 := true);
      }
      if m.deposited1 && m.deposited2 {
        m := m.(state := Active, activatedLedger := Some(now));
      }
      matches := matches[id := m];
      return Ok(());
    }

    method SubmitResult(id: nat, gameId: seq<Byte>, winner: Winner, caller: Address, signers: set<Address>, now: U32) returns (r: Outcome<(), Error>)
      modifies this
      ensures Did(EscrowModel.SubmitResult(old(Snapshot()), id, gameId, winner, caller, signers, now), old(Snapshot()), r)
    {
      if paused {
        return Err(ContractPaused);
      }
      if config.None? || caller != config.value.oracle {
        return Err(Unauthorized);
      }
      if caller !in signers {
        return Err(Trap);
      }
      if id >= count || id !in matches {
        return Err(MatchNotFound);
      }
      var m := matches[id];
      if m.gameId != gameId {
        return Err(GameIdMismatch);
      }
      if m.state != Active {
        return Err(InvalidState);
      }
      if !m.deposited1 || !m.deposited2 {
        return Err(NotFunded);
      }
      m := m.(state := PendingResult, pendingLedger := Some(now), pendingWinner := Some(winner));
      matches := matches[id := m];
      return Ok(());
    }

    method OverrideResult(id: nat, winner: Winner, caller: Address, signers: set<Address>, now: U32) returns (r: Outcome<(), Error>)
      modifies this
      ensures Did(EscrowModel.OverrideResult(old(Snapshot()), id, winner, caller, signers, now), old(Snapshot()), r)
    {
      if config.None? || caller != config.value.admin {
        return Err(Unauthorized);
      }
      if caller !in signers {
        return Err(Trap);
      }
      if id >= count || id !in matches {
        return Err(MatchNotFound);
      }
      var m := matches[id];
      if m.state != PendingResult || m.pendingLedger.None? {
        return Err(InvalidState);
      }
      var deadline := m.pendingLedger.value + config.value.window;
      if deadline > U32_MAX {
        return Err(Trap);
      }
      if now > deadline {
        return Err(DisputeWindowExpired);
      }
      if m.pendingWinner == Some(winner) {
        return Ok(());
      }
      m := m.(pendingWinner := Some(winner));
      matches := matches[id := m];
      return Ok(());
    }

    /** Two transfers out of the contract; the first is undone when the second traps. */
    method PayBoth(token: Address, first: Address, second: Address, amount: int) returns (ok: bool)
      modifies this`book
      ensures var paid := PayTwo(old(book), token, first, amount, second, amount);
        && ok == paid.Some?
        && book == (if ok then paid.value else old(book))
    {
      var before := book;
      var moved := Transfer(book, token, SELF, first, amount);
      if moved.None? {
        return false;
      }
      book := moved.value;
      moved := Transfer(book, token, SELF, second, amount);
      if moved.None? {
        book := before;
        return false;
      }
      book := moved.value;
      return true;
    }

    method FinalizeResult(id: nat, caller: Address, signers: set<Address>, now: U32) returns (r: Outcome<(), Error>)
      modifies this
      ensures Did(EscrowModel.FinalizeResult(old(Snapshot()), id, caller, signers, now), old(Snapshot()), r)
    {
      hide Bal, Transfer;
      if id >= count || id !in matches {
        return Err(MatchNotFound);
      }
      if config.None? {
        return Err(Unauthorized);
      }
      var m := matches[id];
      if caller != m.player1 && caller != m.player2 && caller != config.value.oracle && caller != config.value.admin {
        return Err(Unauthorized);
      }
      if caller !in signers {
        return Err(Trap);
      }
      if m.state != PendingResult || m.pendingLedger.None? {
        return Err(InvalidState);
      }
      var deadline := m.pendingLedger.value + config.value.window;
      if deadline > U32_MAX {
        return Err(Trap);
      }
      if now <= deadline {
        return Err(DisputeWindowActive);
      }
      if m.pendingWinner.None? {
        return Err(InvalidState);
      }
      var payout := m.stake * 2;
      var total := payout;
      if m.pendingWinner.value == Draw {
        payout := m.stake;
        total := payout * 2;
      }
      if Bal(book, m.token, SELF) < total + RESERVE_BUFFER {
        return Err(InsufficientReserve);
      }
      var ok;
      if m.pendingWinner.value == Draw {
        ok := PayBoth(m.token, m.player1, m.player2, payout);
      } else {
        var winner := m.player2;
        if m.pendingWinner.value == Player1 {
          winner := m.player1;
        }
        var moved := Transfer(book, m.token, SELF, winner, payout);
        ok := moved.Some?;
        if ok {
          book := moved.value;
        }
      }
      if !ok {
        return Err(Trap);
      }
      m := m.(state := Completed, completedLedger := Some(now));
      matches := matches[id := m];
      return Ok(());
    }

    method ClaimTimeout(id: nat, caller: Address, signers: set<Address>, now: U32) returns (r: Outcome<(), Error>)
      modifies this
      ensures Did(EscrowModel.ClaimTimeout(old(Snapshot()), id, caller, signers, now), old(Snapshot()), r)
    {
      hide Bal, Transfer;
      if caller !in signers {
        return Err(Trap);
      }
      if id >= count || id !in matches {
        return Err(MatchNotFound);
      }
      var m := matches[id];
      if m.state != Active {
        return Err(InvalidState);
      }
      if caller != m.player1 && caller != m.player2 {
        return Err(Unauthorized);
      }
      if m.activatedLedger.None? {
        return Err(InvalidState);
      }
      var timeout := DEFAULT_TIMEOUT_LEDGERS;
      if config.Some? {
        timeout := config.value.timeout;
      }
      if m.activatedLedger.value + timeout > U32_MAX {
        return Err(Trap);
      }
      if now <= m.activatedLedger.value + timeout {
        return Err(MatchTimedOut);
      }
      if Bal(book, m.token, SELF) < m.stake * 2 + RESERVE_BUFFER {
        return Err(InsufficientReserve);
      }
      var ok := PayBoth(m.token, m.player1, m.player2, m.stake);
      if !ok {
        return Err(Trap);
      }
      m := m.(state := Cancelled, cancelledLedger := Some(now));
      matches := matches[id := m];
      return Ok(());
    }

    method CancelMatch(id: nat, caller: Address, signers: set<Address>, now: U32) returns (r: Outcome<(), Error>)
      modifies this
      ensures Did(EscrowModel.CancelMatch(old(Snapshot()), id, caller, signers, now), old(Snapshot()), r)
    {
      hide Bal, Transfer;
      if id >= count || id !in matches {
        return Err(MatchNotFound);
      }
      var m := matches[id];
      if m.state != Pending && m.state != Active {
        return Err(InvalidState);
      }
      if caller != m.player1 && caller != m.player2 {
        return Err(Unauthorized);
      }
      if m.state == Active || (m.deposited1 && m.deposited2) {
        if m.player1 !in signers || m.player2 !in signers {
          return Err(Trap);
        }
      } else if caller !in signers {
        return Err(Trap);
      }
      var refund1, refund2 := 0, 0;
      if m.deposited1 {
        refund1 := m.stake;
      }
      if m.deposited2 {
        refund2 := m.stake;
      }
      if refund1 + refund2 > 0 {
        if Bal(book, m.token, SELF) < refund1 + refund2 + RESERVE_BUFFER {
          return Err(InsufficientReserve);
        }
      }
      var before := book;
      if m.deposited1 {
        var moved := Transfer(book, m.token, SELF, m.player1, m.stake);
        if moved.None? {
          return Err(TransferFailed);
        }
        book := moved.value;
      }
      if m.deposited2 {
        var moved := Transfer(book, m.token, SELF, m.player2, m.stake);
        if moved.None? {
          book := before;
          return Err(TransferFailed);
        }
        book := moved.value;
      }
      m := m.(state := Cancelled, cancelledLedger := Some(now));
      matches := matches[id := m];
      return Ok(());
    }

    /** The scan loop refuses the drain as soon as it meets an Active match. */
    method EmergencyDrain(caller: Address, signers: set<Address>) returns (r: Outcome<(), Error>)
      modifies this
      ensures Did(EscrowModel.EmergencyDrain(old(Snapshot()), caller, signers), old(Snapshot()), r)
    {
      if config.None? || caller != config.value.admin {
        return Err(Unauthorized);
      }
      if caller !in signers {
        return Err(Trap);
      }
      if !paused {
        return Err(NotPaused);
      }
      var i := 0;
      while i < count
        invariant 0 <= i <= count
        invariant forall j :: 0 <= j < i && j in matches ==> matches[j].state != Active
        invariant Snapshot() == old(Snapshot())
      {
        if i in matches && matches[i].state == Active {
          assert SomeActive(Snapshot());
          return Err(ActiveMatchExists);
        }
        i := i + 1;
      }
      assert !SomeActive(Snapshot());
      var balance := Bal(book, config.value.token, SELF);
      if balance > 0 {
        var moved := Transfer(book, config.value.token, SELF, config.value.safeAddress, balance);
        if moved.None? {
          return Err(Trap);
        }
        book := moved.value;
      }
      return Ok(());
    }
  }
}
