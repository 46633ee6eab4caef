/** Refusals: every error that a call of any run returns says something true, and no payout touches the reserve. */
module EscrowRefusals {
  import opened Types
  import opened Token
  import opened EscrowModel
  import opened EscrowProofs

  predicate IsPlayer(m: Match, who: Address) {
    who == m.player1 || who == m.player2
  }

  predicate Known(s: State, id: nat) {
    id in s.matches
  }

  predicate AdminIs(s: State, who: Address) {
    s.config.Some? && s.config.value.admin == who
  }

  /** The last ledger of the dispute window of a match with a pending result. */
  function WindowEnd(s: State, m: Match): nat {
    (if m.pendingLedger.Some? then m.pendingLedger.value else 0) + (if s.config.Some? then s.config.value.window else 0)
  }

  function TimeoutEnd(s: State, m: Match): nat {
    (if m.activatedLedger.Some? then m.activatedLedger.value else 0) + (if s.config.Some? then s.config.value.timeout else 0)
  }

  /** The contract holds less than the match and the buffer. */
  predicate Short(s: State, m: Match) {
    Bal(s.book, m.token, SELF) < EscrowBalance(m) + 15_000_000
  }

  // ---------------------------- what the errors of each call say ----------------------------

  predicate CreateSays(x: Error, s: State, tx: Tx)
    requires tx.call.Create?
  {
    var c := tx.call;
    match x
    case Trap => c.player1 !in tx.signers
    case ContractPaused => s.paused
    case InvalidStakeAmount => c.stake == 0
    case StakeTooLow => c.stake < 0
    case StakeTooHigh => c.stake > 10_000_000_000_000
    case InvalidPlayers => c.player1 == c.player2
    case InvalidAddress => c.player1 == ZERO_ADDRESS || c.player2 == ZERO_ADDRESS
    case InvalidGameId => !ValidGameId(c.gameId)
    case DuplicateGameId => c.gameId in s.gameIds
    case Unauthorized => s.config.None?
    case TokenNotAllowlisted => s.config.Some? && (if c.chosen.Some? then c.chosen.value else s.config.value.token) !in s.allowed
    case Overflow => s.count >= U64_MAX
    case _ => false
  }

  predicate PaySays(x: Error, s: State, tx: Tx)
    requires tx.call.Pay?
  {
    var c := tx.call;
    match x
    case Trap => c.player !in tx.signers
    case ContractPaused => s.paused
    case MatchNotFound => !Known(s, c.id)
    case MatchCancelled => Known(s, c.id) && s.matches[c.id].state == Cancelled
    case MatchCompleted => Known(s, c.id) && s.matches[c.id].state == Completed
    case InvalidState => Known(s, c.id) && s.matches[c.id].state in {Active, PendingResult}
    case Unauthorized => Known(s, c.id) && !IsPlayer(s.matches[c.id], c.player)
    case AlreadyFunded =>
      Known(s, c.id) && s.matches[c.id].state == Pending && IsPlayer(s.matches[c.id], c.player)
      && (if c.player == s.matches[c.id].player1 then s.matches[c.id].deposited1 else s.matches[c.id].deposited2)
    case InsufficientAllowance => Known(s, c.id) && c.allowance < s.matches[c.id].stake
    case TransferFailed => Known(s, c.id) && Bal(s.book, s.matches[c.id].token, c.player) < s.matches[c.id].stake
    case _ => false
  }

  predicate ReportSays(x: Error, s: State, tx: Tx)
    requires tx.call.Report?
  {
    var c := tx.call;
    match x
    case ContractPaused => s.paused
    case Unauthorized => s.config.None? || c.caller != s.config.value.oracle
    case Trap => c.caller !in tx.signers
    case MatchNotFound => !Known(s, c.id)
    case GameIdMismatch => Known(s, c.id) && s.matches[c.id].gameId != c.gameId
    case InvalidState => Known(s, c.id) && s.matches[c.id].state != Active
    case _ => false
  }

  predicate OverrideSays(x: Error, s: State, tx: Tx)
    requires tx.call.Override?
  {
    var c := tx.call;
    match x
    case Unauthorized => !AdminIs(s, c.caller)
    case MatchNotFound => !Known(s, c.id)
    case InvalidState => Known(s, c.id) && s.matches[c.id].state != PendingResult
    case Trap => c.caller !in tx.signers || (Known(s, c.id) && WindowEnd(s, s.matches[c.id]) > U32_MAX)
    case DisputeWindowExpired => Known(s, c.id) && WindowEnd(s, s.matches[c.id]) <= U32_MAX && tx.now > WindowEnd(s, s.matches[c.id])
    case _ => false
  }

  predicate FinalizeSays(x: Error, s: State, tx: Tx)
    requires tx.call.Finalize?
  {
    var c := tx.call;
    match x
    case MatchNotFound => !Known(s, c.id)
    case Unauthorized =>
      s.config.None? || (Known(s, c.id) && !IsPlayer(s.matches[c.id], c.caller) && c.caller != s.config.value.oracle && !AdminIs(s, c.caller))
    case InvalidState => Known(s, c.id) && s.matches[c.id].state != PendingResult
    case Trap => c.caller !in tx.signers || (Known(s, c.id) && WindowEnd(s, s.matches[c.id]) > U32_MAX)
    case DisputeWindowActive => Known(s, c.id) && WindowEnd(s, s.matches[c.id]) <= U32_MAX && tx.now <= WindowEnd(s, s.matches[c.id])
    case InsufficientReserve => Known(s, c.id) && Short(s, s.matches[c.id])
    case _ => false
  }

  predicate TimeoutSays(x: Error, s: State, tx: Tx)
    requires tx.call.Timeout?
  {
    var c := tx.call;
    match x
    case MatchNotFound => !Known(s, c.id)
    case InvalidState => Known(s, c.id) && s.matches[c.id].state != Active
    case Unauthorized => Known(s, c.id) && !IsPlayer(s.matches[c.id], c.caller)
    case Trap => c.caller !in tx.signers || (Known(s, c.id) && TimeoutEnd(s, s.matches[c.id]) > U32_MAX)
    case MatchTimedOut => Known(s, c.id) && TimeoutEnd(s, s.matches[c.id]) <= U32_MAX && tx.now <= TimeoutEnd(s, s.matches[c.id])
    case InsufficientReserve => Known(s, c.id) && Short(s, s.matches[c.id])
    case _ => false
  }

  predicate CancelSays(x: Error, s: State, tx: Tx)
    requires tx.call.Cancel?
  {
    var c := tx.call;
    match x
    case MatchNotFound => !Known(s, c.id)
    case InvalidState => Known(s, c.id) && s.matches[c.id].state !in {Pending, Active}
    case Unauthorized => Known(s, c.id) && !IsPlayer(s.matches[c.id], c.caller)
    case Trap =>
      Known(s, c.id)
      && if s.matches[c.id].state == Active then s.matches[c.id].player1 !in tx.signers || s.matches[c.id].player2 !in tx.signers
         else c.caller !in tx.signers
    case InsufficientReserve => Known(s, c.id) && Short(s, s.matches[c.id]) && EscrowBalance(s.matches[c.id]) > 0
    case _ => false
  }

  /** Administration, drains and transfers from outside. */
  ghost predicate OtherSays(x: Error, s: State, tx: Tx)
    requires Target(tx.call).None? && !tx.call.Create?
  {
    match tx.call
    case Init(_, _, _, _, _, _, isContract) => if x == AlreadyInitialized then s.config.Some? else x == Trap && !isContract
    case Pause(_) => if x == Unauthorized then s.config.None? else x == Trap && s.config.Some? && s.config.value.admin !in tx.signers
    case NewOracle(_) => if x == Unauthorized then s.config.None? else x == Trap && s.config.Some? && s.config.value.admin !in tx.signers
    case NewAdmin(caller, admin) =>
      if x == Unauthorized then !AdminIs(s, caller)
      else if x == InvalidAdmin then admin == ZERO_ADDRESS || AdminIs(s, admin)
      else x == Trap && caller !in tx.signers
    case Drain(caller) =>
      if x == Unauthorized then !AdminIs(s, caller)
      else if x == NotPaused then !s.paused
      else if x == ActiveMatchExists then exists j: nat :: j in s.matches && s.matches[j].state == Active
      else x == Trap && caller !in tx.signers
    case Outside(token, from, _, amount) => x == Trap && (amount < 0 || Bal(s.book, token, from) < amount)
    case _ => false
  }

  ghost predicate Says(x: Error, s: State, tx: Tx) {
    match tx.call
    case Create(_, _, _, _, _, _) => CreateSays(x, s, tx)
    case Pay(_, _, _) => PaySays(x, s, tx)
    case Report(_, _, _, _) => ReportSays(x, s, tx)
    case Override(_, _, _) => OverrideSays(x, s, tx)
    case Finalize(_, _) => FinalizeSays(x, s, tx)
    case Timeout(_, _) => TimeoutSays(x, s, tx)
    case Cancel(_, _) => CancelSays(x, s, tx)
    case _ => OtherSays(x, s, tx)
  }

  lemma PayoutGoesOut(s: State, id: nat)
    requires StateInv(s) && id in s.matches
    ensures var m := s.matches[id];
      && (m.state in {Active, PendingResult} && ReserveHolds(s.book, m.token, EscrowBalance(m)) ==>
            && PayTwo(s.book, m.token, m.player1, m.stake, m.player2, m.stake).Some?
            && Transfer(s.book, m.token, SELF, m.player1, m.stake * 2).Some? && Transfer(s.book, m.token, SELF, m.player2, m.stake * 2).Some?)
  {
    StoredMatch(s, id);
    var m := s.matches[id];
    if m.state in {Active, PendingResult} && ReserveHolds(s.book, m.token, EscrowBalance(m)) {
      PayTwoSucceeds(s.book, m.token, m.player1, m.stake, m.player2, m.stake);
    }
  }

  lemma PayErrors(s: State, tx: Tx, x: Error)
    requires StateInv(s) && tx.call.Pay? && Apply(s, tx) == Err(x)
    ensures PaySays(x, s, tx)
  {
    hide StateInv, Transfer, PayTwo, Bal, Funded, ValidGameId, CreateMatch, EmergencyDrain, SubmitResult, OverrideResult, FinalizeResult, ClaimTimeout, CancelMatch;
    var id := tx.call.id;
    IndexOf(s, id);
    StoredMatch(s, id);
    if id in s.matches {
      PayoutGoesOut(s, id);
      TransferTells(s.book, s.matches[id], tx.call);
    }
  }

  lemma ReportErrors(s: State, tx: Tx, x: Error)
    requires StateInv(s) && tx.call.Report? && Apply(s, tx) == Err(x)
    ensures ReportSays(x, s, tx)
  {
    hide StateInv, Transfer, PayTwo, Bal, Funded, ValidGameId, CreateMatch, EmergencyDrain, Deposit, OverrideResult, FinalizeResult, ClaimTimeout, CancelMatch;
    var id := tx.call.id;
    IndexOf(s, id);
    StoredMatch(s, id);
    if id in s.matches {
      PayoutGoesOut(s, id);
      TransferTells(s.book, s.matches[id], tx.call);
    }
  }

  lemma OverrideErrors(s: State, tx: Tx, x: Error)
    requires StateInv(s) && tx.call.Override? && Apply(s, tx) == Err(x)
    ensures OverrideSays(x, s, tx)
  {
    hide StateInv, Transfer, PayTwo, Bal, Funded, ValidGameId, CreateMatch, EmergencyDrain, Deposit, SubmitResult, FinalizeResult, ClaimTimeout, CancelMatch;
    var id := tx.call.id;
    IndexOf(s, id);
    StoredMatch(s, id);
    if id in s.matches {
      PayoutGoesOut(s, id);
      TransferTells(s.book, s.matches[id], tx.call);
    }
  }

  lemma FinalizeErrors(s: State, tx: Tx, x: Error)
    requires StateInv(s) && tx.call.Finalize? && Apply(s, tx) == Err(x)
    ensures FinalizeSays(x, s, tx)
  {
    hide StateInv, Transfer, PayTwo, Bal, Funded, ValidGameId, CreateMatch, EmergencyDrain, Deposit, SubmitResult, OverrideResult, ClaimTimeout, CancelMatch;
    var id := tx.call.id;
    IndexOf(s, id);
    StoredMatch(s, id);
    if id in s.matches {
      PayoutGoesOut(s, id);
      TransferTells(s.book, s.matches[id], tx.call);
    }
  }

  lemma TimeoutErrors(s: State, tx: Tx, x: Error)
    requires StateInv(s) && tx.call.Timeout? && Apply(s, tx) == Err(x)
    ensures TimeoutSays(x, s, tx)
  {
    hide StateInv, Transfer, PayTwo, Bal, Funded, ValidGameId, CreateMatch, EmergencyDrain, Deposit, SubmitResult, OverrideResult, FinalizeResult, CancelMatch;
    var id := tx.call.id;
    IndexOf(s, id);
    StoredMatch(s, id);
    if id in s.matches {
      PayoutGoesOut(s, id);
      TransferTells(s.book, s.matches[id], tx.call);
    }
  }

  lemma CancelErrors(s: State, tx: Tx, x: Error)
    requires StateInv(s) && tx.call.Cancel? && Apply(s, tx) == Err(x)
    ensures CancelSays(x, s, tx)
  {
    hide StateInv, Transfer, PayTwo, Bal, Funded, ValidGameId, CreateMatch, EmergencyDrain, Deposit, SubmitResult, OverrideResult, FinalizeResult, ClaimTimeout;
    var id := tx.call.id;
    IndexOf(s, id);
    StoredMatch(s, id);
    if id in s.matches {
      PayoutGoesOut(s, id);
      TransferTells(s.book, s.matches[id], tx.call);
    }
  }

  lemma MatchErrors(s: State, tx: Tx, x: Error)
    requires StateInv(s) && Target(tx.call).Some? && Apply(s, tx) == Err(x)
    ensures Says(x, s, tx)
  {
    hide Apply, StateInv, PaySays, ReportSays, OverrideSays, FinalizeSays, TimeoutSays, CancelSays;
    match tx.call
    case Pay(_, _, _) => PayErrors(s, tx, x);
    case Report(_, _, _, _) => ReportErrors(s, tx, x);
    case Override(_, _, _) => OverrideErrors(s, tx, x);
    case Finalize(_, _) => FinalizeErrors(s, tx, x);
    case Timeout(_, _) => TimeoutErrors(s, tx, x);
    case Cancel(_, _) => CancelErrors(s, tx, x);
  }

  lemma IndexOf(s: State, id: nat)
    requires StateInv(s)
    ensures id in s.matches <==> id < s.count
  {
  }

  /** A refused transfer was short. */
  lemma TransferTells(book: Book, m: Match, call: Call)
    requires MatchOk(m)
    ensures call.Pay? && Transfer(book, m.token, call.player, SELF, m.stake).None? ==> Bal(book, m.token, call.player) < m.stake
    ensures m.deposited1 && Transfer(book, m.token, SELF, m.player1, m.stake).None? ==> Bal(book, m.token, SELF) < m.stake
    ensures m.deposited2 && Transfer(book, m.token, SELF, m.player2, m.stake).None? ==> Bal(book, m.token, SELF) < m.stake
    ensures m.deposited1 && m.deposited2 && Transfer(book, m.token, SELF, m.player1, m.stake).Some?
      && Transfer(Transfer(book, m.token, SELF, m.player1, m.stake).value, m.token, SELF, m.player2, m.stake).None?
      ==> Bal(book, m.token, SELF) < 2 * m.stake
  {
    if m.deposited1 && Transfer(book, m.token, SELF, m.player1, m.stake).Some? {
      TransferMoves(book, m.token, SELF, m.player1, m.stake, m.token, SELF);
    }
  }

  lemma CreateErrors(s: State, tx: Tx, x: Error)
    requires StateInv(s) && tx.call.Create? && Apply(s, tx) == Err(x)
    ensures CreateSays(x, s, tx)
  {
    hide StateInv, ValidGameId, Deposit, SubmitResult, OverrideResult, FinalizeResult, ClaimTimeout, CancelMatch, EmergencyDrain;
    IndexOf(s, s.count);
  }

  lemma DrainErrors(s: State, tx: Tx)
    requires StateInv(s) && tx.call.Drain?
    ensures SomeActive(s) ==> exists j: nat :: j in s.matches && s.matches[j].state == Active
  {
  }

  lemma OtherErrors(s: State, tx: Tx, x: Error)
    requires StateInv(s) && Target(tx.call).None? && !tx.call.Create? && Apply(s, tx) == Err(x)
    ensures OtherSays(x, s, tx)
  {
    hide StateInv, Deposit, SubmitResult, OverrideResult, FinalizeResult, ClaimTimeout, CancelMatch, CreateMatch;
    if tx.call.Drain? {
      DrainErrors(s, tx);
    }
  }

  /** In every run an error tells the truth about the state, the caller or the arguments, and says it in the most
      specific way the code has. */
  lemma ErrorsAreTruthful(s: State, txs: seq<Tx>, tx: Tx)
    requires Genesis(s) && HostRun(txs)
    ensures Apply(Run(s, txs), tx).Err? ==> Says(Apply(Run(s, txs), tx).error, Run(s, txs), tx)
  {
    hide Apply, Run, CreateSays, OtherSays, Says;
    RunInv(s, txs);
    var e := Run(s, txs);
    if Apply(e, tx).Err? {
      var x := Apply(e, tx).error;
      if Target(tx.call).Some? {
        MatchErrors(e, tx, x);
      } else if tx.call.Create? {
        CreateErrors(e, tx, x);
        CreateSaysSo(x, e, tx);
      } else {
        OtherErrors(e, tx, x);
        OtherSaysSo(x, e, tx);
      }
    }
  }

  lemma CreateSaysSo(x: Error, s: State, tx: Tx)
    requires tx.call.Create? && CreateSays(x, s, tx)
    ensures Says(x, s, tx)
  {
  }

  lemma OtherSaysSo(x: Error, s: State, tx: Tx)
    requires Target(tx.call).None? && !tx.call.Create? && OtherSays(x, s, tx)
    ensures Says(x, s, tx)
  {
  }

  /** The reserve buffer: a finalize, timeout claim or cancellation that pays something out leaves at least the
      buffer, covered run or not. */
  lemma PayoutsLeaveTheReserve(s: State, txs: seq<Tx>, tx: Tx)
    requires Genesis(s) && HostRun(txs) && HostTx(tx)
    requires (tx.call.Finalize? || tx.call.Timeout? || tx.call.Cancel?) && Accepted(Run(s, txs), tx)
    ensures var e, id := Run(s, txs), Target(tx.call).value;
      && id in e.matches && id in Next(e, tx).matches
      && var m := e.matches[id];
         && Bal(Next(e, tx).book, m.token, SELF) == Bal(e.book, m.token, SELF) - EscrowBalance(m)
         && (EscrowBalance(m) > 0 ==> Bal(Next(e, tx).book, m.token, SELF) >= 15_000_000)
  {
    hide Run, Bal;
    var e, id := Run(s, txs), Target(tx.call).value;
    RunInv(s, txs);
    StoredMatch(e, id);
    EnoughReserve(e, tx);
    SettlesAll(e, tx);
  }

  lemma EnoughReserve(s: State, tx: Tx)
    requires StateInv(s) && (tx.call.Finalize? || tx.call.Timeout? || tx.call.Cancel?) && Accepted(s, tx)
    ensures var id := Target(tx.call).value;
      && id in s.matches && (EscrowBalance(s.matches[id]) > 0 ==> ReserveHolds(s.book, s.matches[id].token, EscrowBalance(s.matches[id])))
  {
    hide StateInv, Transfer, PayTwo, Bal;
    StoredMatch(s, Target(tx.call).value);
  }

  lemma SettlesAll(s: State, tx: Tx)
    requires StateInv(s) && HostTx(tx) && (tx.call.Finalize? || tx.call.Timeout? || tx.call.Cancel?) && Accepted(s, tx)
    ensures var id := Target(tx.call).value;
      && id in s.matches && id in Next(s, tx).matches && Next(s, tx).matches[id].state in {Completed, Cancelled}
      && Bal(Next(s, tx).book, s.matches[id].token, SELF) == Bal(s.book, s.matches[id].token, SELF) - EscrowBalance(s.matches[id])
  {
    hide StateInv, Transfer, PayTwo, Bal, MatchOk;
    var id := Target(tx.call).value;
    StoredMatch(s, id);
    TargetedStep(s, tx, 0, 0);
    TargetedStep(s, tx, s.matches[id].token, 0);
  }
}
