/** Refusals: every error that a call of any run returns says something true, and no payout touches the reserve. */
module TournamentRefusals {
  import opened Types
  import opened Token
  import opened TournamentModel
  import opened TournamentBracket
  import opened TournamentTheorems
  import opened TournamentRuns
  import opened TournamentHistory
  import opened TournamentSeeding
  import opened TournamentAcceptance

  ghost predicate Open(s: State, id: nat)
    requires StateInv(s)
  {
    s.config.Some? && id < s.count && id in s.brackets && Shape(s.brackets[id]) && !Terminal(s.brackets[id].info.phase)
  }

  /** The contract holds less than the fees collected and the buffer. */
  ghost predicate Short(s: State, id: nat)
    requires id in s.brackets
  {
    var b := s.brackets[id].info;
    Bal(s.book, b.token, SELF) < b.entryFee * b.fundedCount + 15_000_000
  }

  // ---------------------------- what the errors of each call say ----------------------------

  ghost predicate CreateSays(x: Error, s: State, tx: Tx)
    requires tx.call.CreateTournament?
  {
    var c, n := tx.call, |tx.call.players|;
    match x
    case Unauthorized => s.config.None?
    case Trap => s.config.Some? && s.config.value.admin !in tx.signers
    case StakeTooLow => c.fee < 1
    case InvalidPlayerCount => n !in {2, 4, 8, 16, 32, 64}
    case InvalidAmount => c.fee * n > I128_MAX
    case StakeTooHigh => 1_000_000_000_000 < c.fee * n <= I128_MAX
    case InvalidPrizeSchedule =>
      c.schedule == [] || |c.schedule| > n || (exists i :: 0 <= i < |c.schedule| && c.schedule[i] <= 0) || Sum(c.schedule) > c.fee * n
    case InvalidAddress => exists i :: 0 <= i < n && c.players[i] == ZERO_ADDRESS
    case DuplicatePlayer => exists i, j :: 0 <= i < j < n && c.players[i] == c.players[j]
    case Overflow => s.count >= U64_MAX
    case _ => false
  }

  ghost predicate PaySays(x: Error, s: State, tx: Tx)
    requires StateInv(s) && tx.call.Pay?
  {
    var c := tx.call;
    match x
    case Trap => c.player !in tx.signers || (Open(s, c.id) && Bal(s.book, s.brackets[c.id].info.token, c.player) < s.brackets[c.id].info.entryFee)
    case TournamentNotFound => c.id >= s.count
    case TournamentFinished => c.id in s.brackets && Terminal(s.brackets[c.id].info.phase)
    case PlayerNotRegistered => Open(s, c.id) && !IsEntrant(s.brackets[c.id], c.player)
    case AlreadyFunded => Open(s, c.id) && HasPaid(s.brackets[c.id], c.player)
    case _ => false
  }

  ghost predicate ResultSays(x: Error, s: State, tx: Tx)
    requires StateInv(s) && tx.call.Result?
  {
    var c := tx.call;
    match x
    case Unauthorized => s.config.None?
    case Trap => s.config.Some? && s.config.value.oracle !in tx.signers
    case TournamentNotFound => c.id >= s.count
    case TournamentFinished => c.id in s.brackets && Terminal(s.brackets[c.id].info.phase)
    case InvalidGameId => !ValidGameId(c.gameId)
    case NodeNotFound => Open(s, c.id) && (c.round, c.index) !in s.brackets[c.id].nodes
    case InvalidNodeStatus =>
      Open(s, c.id) && (c.round, c.index) in s.brackets[c.id].nodes
      && (s.brackets[c.id].nodes[(c.round, c.index)].winner.Some? || !Ready(s.brackets[c.id], c.round, c.index))
    case WinnerNotInMatch =>
      Open(s, c.id) && (c.round, c.index) in s.brackets[c.id].nodes
      && s.brackets[c.id].nodes[(c.round, c.index)].player1 != Some(c.winner)
      && s.brackets[c.id].nodes[(c.round, c.index)].player2 != Some(c.winner)
    case InsufficientReserve => Open(s, c.id) && c.round + 1 == s.brackets[c.id].info.rounds && Short(s, c.id)
    case _ => false
  }

  ghost predicate CancelSays(x: Error, s: State, tx: Tx)
    requires StateInv(s) && tx.call.CancelTournament?
  {
    var id := tx.call.id;
    match x
    case Unauthorized => s.config.None?
    case Trap => s.config.Some? && s.config.value.admin !in tx.signers
    case TournamentNotFound => id >= s.count
    case TournamentInProgress => id in s.brackets && s.brackets[id].info.phase != Registration
    case InsufficientReserve => Open(s, id) && s.brackets[id].info.fundedCount > 0 && Short(s, id)
    case _ => false
  }

  ghost predicate TimeoutSays(x: Error, s: State, tx: Tx)
    requires StateInv(s) && tx.call.Timeout?
  {
    var c := tx.call;
    match x
    case Trap => c.caller !in tx.signers || (c.id in s.brackets && s.brackets[c.id].info.createdLedger + 120_960 > U32_MAX)
    case TournamentNotFound => c.id >= s.count
    case TournamentFinished => c.id in s.brackets && Terminal(s.brackets[c.id].info.phase)
    case TimeoutNotReached =>
      c.id in s.brackets && s.brackets[c.id].info.createdLedger + 120_960 <= U32_MAX && tx.now <= s.brackets[c.id].info.createdLedger + 120_960
    case InsufficientReserve => Open(s, c.id) && s.brackets[c.id].info.fundedCount > 0 && Short(s, c.id)
    case _ => false
  }

  ghost predicate Says(x: Error, s: State, tx: Tx)
    requires StateInv(s)
  {
    match tx.call
    case CreateTournament(_, _, _) => CreateSays(x, s, tx)
    case Pay(_, _) => PaySays(x, s, tx)
    case Result(_, _, _, _, _) => ResultSays(x, s, tx)
    case CancelTournament(_) => CancelSays(x, s, tx)
    case Timeout(_, _) => TimeoutSays(x, s, tx)
    case Init(admin, oracle, token, isContract) =>
      if x == AlreadyInitialized then s.config.Some?
      else if x == InvalidAdmin then admin == ZERO_ADDRESS || oracle == ZERO_ADDRESS || token == ZERO_ADDRESS
      else x == Trap && !isContract
    case Outside(token, from, _, amount) => x == Trap && (amount < 0 || Bal(s.book, token, from) < amount)
  }

  lemma {:induction false} VerdictSays(players: seq<Address>, m: nat)
    requires m <= |players|
    ensures EntrantsVerdict(players, m) == Some(InvalidAddress) ==> exists i :: 0 <= i < m && players[i] == ZERO_ADDRESS
    ensures EntrantsVerdict(players, m) == Some(DuplicatePlayer) ==> exists i, j :: 0 <= i < j < m && players[i] == players[j]
    ensures EntrantsVerdict(players, m) in {None, Some(InvalidAddress), Some(DuplicatePlayer)}
  {
    if m > 0 {
      VerdictSays(players, m - 1);
      if HasDuplicate(players, m - 1) {
        var j :| 0 <= j < m - 1 && players[j] == players[m - 1];
      }
    }
  }

  lemma CreateErrors(s: State, tx: Tx, x: Error)
    requires StateInv(s) && tx.call.CreateTournament? && Apply(s, tx) == Err(x)
    ensures CreateSays(x, s, tx)
  {
    hide EntrantsVerdict, Sum, NewBracket, IsPowerOfTwo, Inv, Deposit, Submit, Cancel, ClaimTimeout;
    VerdictSays(tx.call.players, |tx.call.players|);
    if 2 <= |tx.call.players| <= 64 {
      PowersUpTo64(|tx.call.players|);
    }
  }

  lemma Stored(s: State, id: nat)
    requires StateInv(s)
    ensures id in s.brackets <==> id < s.count
    ensures id in s.brackets ==> s.config.Some? && OkWith(s.brackets[id], s.config.value.token) && Shape(s.brackets[id])
                                 && HasSlots(s.brackets[id].nodes, s.brackets[id].info.playerCount)
  {
    if id in s.brackets {
      assert OkWith(s.brackets[id], s.config.value.token);
      ShapeHasSlots(s.brackets[id]);
    }
  }

  lemma PayErrors(s: State, tx: Tx, x: Error)
    requires StateInv(s) && tx.call.Pay? && Apply(s, tx) == Err(x)
    ensures PaySays(x, s, tx)
  {
    hide Inv, HasPaid, IsEntrant, FindSlot, Shape, Submit, Create, Cancel, ClaimTimeout;
    Stored(s, tx.call.id);
    if tx.call.id in s.brackets {
      FoundOrNot(s.brackets[tx.call.id], tx.call.player);
      EntryFeePositive(s.brackets[tx.call.id]);
    }
  }

  lemma EntryFeePositive(b: Bracket)
    requires Inv(b)
    ensures b.info.entryFee >= 1
  {
  }

  lemma FinalIsFull(b: Bracket, index: nat, w: Address, now: nat)
    requires Inv(b) && !Terminal(b.info.phase)
    requires var r := b.info.rounds - 1;
      && (r, index) in b.nodes && b.nodes[(r, index)].status == AwaitingResult
      && (b.nodes[(r, index)].player1 == Some(w) || b.nodes[(r, index)].player2 == Some(w))
    ensures b.info.fundedCount == b.info.playerCount
  {
    DecideInv(b, b.info.rounds - 1, index, w, now);
    var b' := Decide(b, b.info.rounds - 1, index, w, now);
    FinalMeansAllPaid(b');
  }

  lemma StoredToken(s: State, id: nat)
    requires StateInv(s) && id in s.brackets
    ensures Inv(s.brackets[id])
  {
    hide Inv;
    Stored(s, id);
  }

  lemma PrizeGoesOut(s: State, b: Bracket, winner: Address)
    requires Inv(b) && ReserveHolds(s.book, b.info.token, b.info.entryFee * b.info.playerCount)
    ensures Transfer(s.book, b.info.token, SELF, winner, b.info.entryFee * b.info.playerCount).Some?
  {
    FeesNotNegative(b);
  }

  lemma ResultErrors(s: State, tx: Tx, x: Error)
    requires StateInv(s) && tx.call.Result? && Apply(s, tx) == Err(x)
    ensures ResultSays(x, s, tx)
  {
    hide Inv, Ready, Shape, Decide, Deposit, Create, Cancel, ClaimTimeout, Transfer, ValidGameId, Bal, StateInv, WellFormed, OkWith, HasSlots;
    var c := tx.call;
    InvIsWellFormed(s);
    Stored(s, c.id);
    if c.id in s.brackets {
      StoredToken(s, c.id);
    }
    if Open(s, c.id) && (c.round, c.index) in s.brackets[c.id].nodes {
      var b := s.brackets[c.id];
      ParentInTree(b, c.round, c.index);
      AwaitsIffReady(b, c.round, c.index);
      if ReserveHolds(s.book, b.info.token, b.info.entryFee * b.info.playerCount) {
        PrizeGoesOut(s, b, c.winner);
      }
      if c.round + 1 == b.info.rounds && b.nodes[(c.round, c.index)].status == AwaitingResult
         && (b.nodes[(c.round, c.index)].player1 == Some(c.winner) || b.nodes[(c.round, c.index)].player2 == Some(c.winner)) {
        FinalIsFull(b, c.index, c.winner, tx.now);
      }
    }
  }

  lemma AbandonSays(s: State, id: nat, now: U32)
    requires StateInv(s) && WellFormed(s) && Has(s, id) && Open(s, id)
    ensures Abandon(s, id, now).Err? ==>
      Abandon(s, id, now).error == InsufficientReserve && s.brackets[id].info.fundedCount > 0 && Short(s, id)
  {
    hide Inv;
    Stored(s, id);
    var b := s.brackets[id];
    if b.info.fundedCount > 0 && !Short(s, id) {
      AbandonBook(s, b, 0, 0);
    }
  }

  lemma CancelErrors(s: State, tx: Tx, x: Error)
    requires StateInv(s) && tx.call.CancelTournament? && Apply(s, tx) == Err(x)
    ensures CancelSays(x, s, tx)
  {
    hide Inv, Shape, Abandon, Deposit, Create, Submit, ClaimTimeout;
    Stored(s, tx.call.id);
    if Open(s, tx.call.id) {
      AbandonSays(s, tx.call.id, tx.now);
    }
  }

  lemma TimeoutErrors(s: State, tx: Tx, x: Error)
    requires StateInv(s) && tx.call.Timeout? && Apply(s, tx) == Err(x)
    ensures TimeoutSays(x, s, tx)
  {
    hide Inv, Shape, Abandon, Deposit, Create, Submit, Cancel;
    Stored(s, tx.call.id);
    if Open(s, tx.call.id) {
      AbandonSays(s, tx.call.id, tx.now);
    }
  }

  /** In every run an error tells the truth about the state, the caller or the arguments. */
  lemma ErrorsAreTruthful(s: State, txs: seq<Tx>, tx: Tx)
    requires StateInv(s) && Genesis(s) && HostRun(txs)
    ensures Apply(Run(s, txs), tx).Err? ==> Says(Apply(Run(s, txs), tx).error, Run(s, txs), tx)
  {
    hide Run, Inv, StateInv, CreateSays, PaySays, ResultSays, CancelSays, TimeoutSays, Create, Deposit, Submit, Cancel, ClaimTimeout;
    var e := Run(s, txs);
    InvIsWellFormed(e);
    if Apply(e, tx).Err? {
      var x := Apply(e, tx).error;
      match tx.call
      case CreateTournament(_, _, _) => CreateErrors(e, tx, x);
      case Pay(_, _) => PayErrors(e, tx, x);
      case Result(_, _, _, _, _) => ResultErrors(e, tx, x);
      case CancelTournament(_) => CancelErrors(e, tx, x);
      case Timeout(_, _) => TimeoutErrors(e, tx, x);
      case _ =>
    }
  }

  lemma InvIsWellFormed(s: State)
    requires StateInv(s)
    ensures WellFormed(s)
  {
  }

  // ---------------------------- the reserve ----------------------------

  /** The reserve buffer: a call on a tournament that pays something out leaves at least the buffer, covered run
      or not. */
  lemma PayoutsLeaveTheReserve(s: State, txs: seq<Tx>, tx: Tx)
    requires StateInv(s) && Genesis(s) && HostRun(txs) && HostTx(tx)
    requires Target(tx.call).Some? && Accepted(Run(s, txs), tx)
    ensures var e, id := Run(s, txs), Target(tx.call).value;
      && id in e.brackets && id in Next(e, tx).brackets
      && var tok, paid := e.brackets[id].info.token, Pot(e.brackets[id]) - Pot(Next(e, tx).brackets[id]);
         && Bal(Next(e, tx).book, tok, SELF) == Bal(e.book, tok, SELF) - paid
         && (paid > 0 ==> Bal(Next(e, tx).book, tok, SELF) >= 15_000_000)
  {
    hide Run, Inv, Apply, Pot, Standing, Left, SameTerms;
    var e, id := Run(s, txs), Target(tx.call).value;
    TargetedStep(e, tx, 0, 0);
    TokenIs(e, id);
    TargetedStep(e, tx, e.brackets[id].info.token, 0);
    EnoughReserve(e, tx);
  }

  lemma TokenIs(s: State, id: nat)
    requires StateInv(s) && id in s.brackets && s.config.Some?
    ensures s.brackets[id].info.token == s.config.value.token
  {
    hide Inv;
    assert OkWith(s.brackets[id], s.config.value.token);
  }

  lemma EnoughReserve(s: State, tx: Tx)
    requires StateInv(s) && HostTx(tx) && Target(tx.call).Some? && Accepted(s, tx)
    ensures var id := Target(tx.call).value;
      && id in s.brackets && id in Next(s, tx).brackets
      && (Pot(s.brackets[id]) > Pot(Next(s, tx).brackets[id]) ==> ReserveHolds(s.book, s.brackets[id].info.token, Pot(s.brackets[id]) - Pot(Next(s, tx).brackets[id])))
  {
    hide Inv, Shape;
    var id := Target(tx.call).value;
    Stored(s, id);
    TargetedStep(s, tx, 0, 0);
    var b := s.brackets[id];
    if tx.call.Pay? {
      EntryFeePositive(b);
      PotGrows(s, tx);
    } else if tx.call.Result? {
      hide Deposit, Cancel, ClaimTimeout, Create;
      var c := tx.call;
      ParentInTree(b, c.round, c.index);
      DecideAccounts(b, c.round, c.index, c.winner, tx.now, 0);
    } else {
      hide Deposit, Submit, Create;
      AbandonShape(s, id, tx.now);
      PotGone(b, tx.now);
    }
  }

  lemma PotGone(b: Bracket, now: nat)
    ensures Pot(Closed(b, now)) == 0
  {
  }

  lemma PotGrows(s: State, tx: Tx)
    requires StateInv(s) && HostTx(tx) && tx.call.Pay? && Accepted(s, tx)
    ensures tx.call.id in s.brackets && tx.call.id in Next(s, tx).brackets && Pot(Next(s, tx).brackets[tx.call.id]) >= Pot(s.brackets[tx.call.id])
  {
    hide Inv, FindSlot, Funded, Slot, Fund;
    var id := tx.call.id;
    Stored(s, id);
    var b := s.brackets[id];
    var k := FindSlot(b.nodes, b.info.playerCount, tx.call.player, 0);
    FundAccounts(b, k.value, 0);
    EntryFeePositive(b);
  }
}
