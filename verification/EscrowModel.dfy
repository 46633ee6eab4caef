/** The match escrow contract as transactions over values. */
module EscrowModel {
  import opened Types
  import opened Token

  const MIN_STAKE: int := 1
  const MAX_STAKE: int := 10_000_000_000_000
  const RESERVE_BUFFER: int := 15_000_000
  const DISPUTE_WINDOW_LEDGERS: U32 := 17_280
  const DEFAULT_TIMEOUT_LEDGERS: U32 := 120_960
  const ZERO_ADDRESS: Address := 0
  /** The contract's own address. */
  const SELF: Address := 1

  datatype Error =
    | MatchNotFound | AlreadyFunded | NotFunded | Unauthorized | InvalidState | AlreadyExists
    | AlreadyInitialized | Overflow | ContractPaused | InvalidGameId | InvalidStakeAmount
    | StakeTooLow | StakeTooHigh | InvalidPlayers | InvalidAddress | DuplicateGameId
    | TokenNotAllowlisted | MatchCancelled | MatchCompleted | InsufficientAllowance
    | TransferFailed | GameIdMismatch | DisputeWindowActive | DisputeWindowExpired
    | MatchTimedOut | InsufficientReserve | InvalidAdmin | NotInitialized | NotPaused
    | ActiveMatchExists
    | Trap  // the host aborts: missing authorization, refused transfer, arithmetic overflow

  datatype Winner = Player1 | Player2 | Draw
  datatype Platform = Lichess | ChessDotCom
  datatype MatchState = Pending | Active | PendingResult | Completed | Cancelled

  datatype Match = Match(
    player1: Address, player2: Address, stake: int, token: Address,
    gameId: seq<Byte>, platform: Platform, state: MatchState,
    deposited1: bool, deposited2: bool,
    createdLedger: U32, activatedLedger: Option<U32>,
    pendingLedger: Option<U32>, pendingWinner: Option<Winner>,
    cancelledLedger: Option<U32>, completedLedger: Option<U32>)

  datatype Config = Config(oracle: Address, admin: Address, token: Address, safeAddress: Address, window: U32, timeout: U32)

  datatype State = State(
    config: Option<Config>, paused: bool, count: nat, matches: map<nat, Match>,
    gameIds: map<seq<Byte>, nat>, allowed: set<Address>, book: Book)

  type Reply = Outcome<State, Error>

  function EscrowBalance(m: Match): int {
    if m.state == Completed || m.state == Cancelled then 0
    else (if m.deposited1 then m.stake else 0) + (if m.deposited2 then m.stake else 0)
  }

  predicate ReserveHolds(book: Book, token: Address, payout: int) {
    Bal(book, token, SELF) >= payout + RESERVE_BUFFER
  }

  /** Two transfers out of the contract, in order; `None` when either traps. */
  function PayTwo(book: Book, token: Address, first: Address, a: int, second: Address, b: int): Option<Book> {
    match Transfer(book, token, SELF, first, a)
    case None => None
    case Some(mid) => Transfer(mid, token, SELF, second, b)
  }

  // ---------------------------- administration ----------------------------

  function Initialize(s: State, oracle: Address, admin: Address, token: Address, safe: Address,
                      window: Option<U32>, timeout: Option<U32>, tokenIsContract: bool): Reply {
    if s.config.Some? then Err(AlreadyInitialized)
    else if !tokenIsContract then Err(Trap)
    else
      var w := if window.Some? then window.value else DISPUTE_WINDOW_LEDGERS;
      var t := if timeout.Some? then timeout.value else DEFAULT_TIMEOUT_LEDGERS;
      Ok(s.(config := Some(Config(oracle, admin, token, safe, w, t)), paused := false, count := 0,
            allowed := s.allowed + {token}))
  }

  function SetPaused(s: State, paused: bool, signers: set<Address>): Reply {
    if s.config.None? then Err(Unauthorized)
    else if s.config.value.admin !in signers then Err(Trap)
    else Ok(s.(paused := paused))
  }

  function UpdateOracle(s: State, oracle: Address, signers: set<Address>): Reply {
    if s.config.None? then Err(Unauthorized)
    else if s.config.value.admin !in signers then Err(Trap)
    else Ok(s.(config := Some(s.config.value.(oracle := oracle))))
  }

  function TransferAdmin(s: State, caller: Address, admin: Address, signers: set<Address>): Reply {
    if s.config.None? || caller != s.config.value.admin then Err(Unauthorized)
    else if caller !in signers then Err(Trap)
    else if admin == ZERO_ADDRESS || admin == s.config.value.admin then Err(InvalidAdmin)
    else Ok(s.(config := Some(s.config.value.(admin := admin))))
  }

  // ---------------------------- matches ----------------------------

  function CreateMatch(s: State, player1: Address, player2: Address, stake: int, token: Option<Address>,
                       gameId: seq<Byte>, platform: Platform, signers: set<Address>, now: U32): Reply {
    if player1 !in signers then Err(Trap)
    else if s.paused then Err(ContractPaused)
    else if stake == 0 then Err(InvalidStakeAmount)
    else if stake < MIN_STAKE then Err(StakeTooLow)
    else if stake > MAX_STAKE then Err(StakeTooHigh)
    else if player1 == player2 then Err(InvalidPlayers)
    else if player1 == ZERO_ADDRESS || player2 == ZERO_ADDRESS then Err(InvalidAddress)
    else if !ValidGameId(gameId) then Err(InvalidGameId)
    else if gameId in s.gameIds then Err(DuplicateGameId)
    else if s.config.None? then Err(Unauthorized)
    else
      var chosen := if token.Some? then token.value else s.config.value.token;
      if chosen !in s.allowed then Err(TokenNotAllowlisted)
      else if s.count in s.matches then Err(AlreadyExists)
      else if s.count + 1 > U64_MAX then Err(Overflow)
      else
        var m := Match(player1, player2, stake, chosen, gameId, platform, Pending, false, false,
                       now, None, None, None, None, None);
        Ok(s.(count := s.count + 1, matches := s.matches[s.count := m], gameIds := s.gameIds[gameId := s.count]))
  }

  function Deposit(s: State, id: nat, player: Address, allowance: int, signers: set<Address>, now: U32): Reply {
    if player !in signers then Err(Trap)
    else if s.paused then Err(ContractPaused)
    else if id !in s.matches then Err(MatchNotFound)
    else
      var m := s.matches[id];
      if m.state == Cancelled then Err(MatchCancelled)
      else if m.state == Completed then Err(MatchCompleted)
      else if m.state != Pending then Err(InvalidState)
      else if player != m.player1 && player != m.player2 then Err(Unauthorized)
      else if (if player == m.player1 then m.deposited1 else m.deposited2) then Err(AlreadyFunded)
      else if allowance < m.stake then Err(InsufficientAllowance)
      else match Transfer(s.book, m.token, player, SELF, m.stake)
           case None => Err(TransferFailed)
           case Some(book) => Ok(s.(matches := s.matches[id := Funded(m, player == m.player1, now)], book := book))
  }

  function Funded(m: Match, first: bool, now: U32): Match {
    var paid := if first then m.(deposited1 := true) else m.(deposited2 := true);
    if paid.deposited1 && paid.deposited2 then paid.(state := Active, activatedLedger := Some(now)) else paid
  }

  function SubmitResult(s: State, id: nat, gameId: seq<Byte>, winner: Winner, caller: Address, signers: set<Address>, now: U32): Reply {
    if s.paused then Err(ContractPaused)
    else if s.config.None? || caller != s.config.value.oracle then Err(Unauthorized)
    else if caller !in signers then Err(Trap)
    else if id >= s.count || id !in s.matches then Err(MatchNotFound)
    else
      var m := s.matches[id];
      if m.gameId != gameId then Err(GameIdMismatch)
      else if m.state != Active then Err(InvalidState)
      else if !m.deposited1 || !m.deposited2 then Err(NotFunded)
      else Ok(s.(matches := s.matches[id := m.(state := PendingResult, pendingLedger := Some(now), pendingWinner := Some(winner))]))
  }

  function OverrideResult(s: State, id: nat, winner: Winner, caller: Address, signers: set<Address>, now: U32): Reply {
    if s.config.None? || caller != s.config.value.admin then Err(Unauthorized)
    else if caller !in signers then Err(Trap)
    else if id >= s.count || id !in s.matches then Err(MatchNotFound)
    else
      var m := s.matches[id];
      if m.state != PendingResult || m.pendingLedger.None? then Err(InvalidState)
      else if m.pendingLedger.value + s.config.value.window > U32_MAX then Err(Trap)
      else if now > m.pendingLedger.value + s.config.value.window then Err(DisputeWindowExpired)
      else if m.pendingWinner == Some(winner) then Ok(s)
      else Ok(s.(matches := s.matches[id := m.(pendingWinner := Some(winner))]))
  }

  function FinalizeResult(s: State, id: nat, caller: Address, signers: set<Address>, now: U32): Reply {
    if id >= s.count || id !in s.matches then Err(MatchNotFound)
    else if s.config.None? then Err(Unauthorized)
    else
      var m := s.matches[id];
      if caller != m.player1 && caller != m.player2 && caller != s.config.value.oracle && caller != s.config.value.admin then Err(Unauthorized)
      else if caller !in signers then Err(Trap)
      else if m.state != PendingResult || m.pendingLedger.None? then Err(InvalidState)
      else if m.pendingLedger.value + s.config.value.window > U32_MAX then Err(Trap)
      else if now <= m.pendingLedger.value + s.config.value.window then Err(DisputeWindowActive)
      else if m.pendingWinner.None? then Err(InvalidState)
      else
        var payout := if m.pendingWinner.value == Draw then m.stake else m.stake * 2;
        var total := if m.pendingWinner.value == Draw then payout * 2 else payout;
        if !ReserveHolds(s.book, m.token, total) then Err(InsufficientReserve)
        else
          var paid := match m.pendingWinner.value
            case Player1 => Transfer(s.book, m.token, SELF, m.player1, payout)
            case Player2 => Transfer(s.book, m.token, SELF, m.player2, payout)
            case Draw => PayTwo(s.book, m.token, m.player1, payout, m.player2, payout);
          match paid
          case None => Err(Trap)
          case Some(book) =>
            Ok(s.(matches := s.matches[id := m.(state := Completed, completedLedger := Some(now))], book := book))
  }

  function ClaimTimeout(s: State, id: nat, caller: Address, signers: set<Address>, now: U32): Reply {
    if caller !in signers then Err(Trap)
    else if id >= s.count || id !in s.matches then Err(MatchNotFound)
    else
      var m := s.matches[id];
      var timeout := if s.config.Some? then s.config.value.timeout else DEFAULT_TIMEOUT_LEDGERS;
      if m.state != Active then Err(InvalidState)
      else if caller != m.player1 && caller != m.player2 then Err(Unauthorized)
      else if m.activatedLedger.None? then Err(InvalidState)
      else if m.activatedLedger.value + timeout > U32_MAX then Err(Trap)
      else if now <= m.activatedLedger.value + timeout then Err(MatchTimedOut)
      else if !ReserveHolds(s.book, m.token, m.stake * 2) then Err(InsufficientReserve)
      else match PayTwo(s.book, m.token, m.player1, m.stake, m.player2, m.stake)
           case None => Err(Trap)
           case Some(book) =>
             Ok(s.(matches := s.matches[id := m.(state := Cancelled, cancelledLedger := Some(now))], book := book))
  }

  function CancelMatch(s: State, id: nat, caller: Address, signers: set<Address>, now: U32): Reply {
    if id >= s.count || id !in s.matches then Err(MatchNotFound)
    else
      var m := s.matches[id];
      if m.state != Pending && m.state != Active then Err(InvalidState)
      else if caller != m.player1 && caller != m.player2 then Err(Unauthorized)
      else if (if m.state == Active || (m.deposited1 && m.deposited2)
               then m.player1 !in signers || m.player2 !in signers
               else caller !in signers) then Err(Trap)
      else
        var refund1 := if m.deposited1 then m.stake else 0;
        var refund2 := if m.deposited2 then m.stake else 0;
        if refund1 + refund2 > 0 && !ReserveHolds(s.book, m.token, refund1 + refund2) then Err(InsufficientReserve)
        else
          var mid := if m.deposited1 then Transfer(s.book, m.token, SELF, m.player1, m.stake) else Some(s.book);
          if mid.None? then Err(TransferFailed)
          else
            var end := if m.deposited2 then Transfer(mid.value, m.token, SELF, m.player2, m.stake) else mid;
            if end.None? then Err(TransferFailed)
            else Ok(s.(matches := s.matches[id := m.(state := Cancelled, cancelledLedger := Some(now))], book := end.value))
  }

  ghost predicate SomeActive(s: State) {
    exists id :: id in s.matches && id < s.count && s.matches[id].state == Active
  }

  ghost function EmergencyDrain(s: State, caller: Address, signers: set<Address>): Reply {
    if s.config.None? || caller != s.config.value.admin then Err(Unauthorized)
    else if caller !in signers then Err(Trap)
    else if !s.paused then Err(NotPaused)
    else if SomeActive(s) then Err(ActiveMatchExists)
    else
      var balance := Bal(s.book, s.config.value.token, SELF);
      if balance == 0 then Ok(s)
      else match Transfer(s.book, s.config.value.token, SELF, s.config.value.safeAddress, balance)
           case None => Err(Trap)
           case Some(book) => Ok(s.(book := book))
  }

  // ---------------------------- runs ----------------------------

  datatype Call =
    | Init(oracle: Address, admin: Address, token: Address, safe: Address, window: Option<U32>, timeout: Option<U32>, tokenIsContract: bool)
    | Pause(paused: bool)
    | NewOracle(oracle: Address)
    | NewAdmin(caller: Address, admin: Address)
    | Create(player1: Address, player2: Address, stake: int, chosen: Option<Address>, gameId: seq<Byte>, platform: Platform)
    | Pay(id: nat, player: Address, allowance: int)
    | Report(id: nat, gameId: seq<Byte>, winner: Winner, caller: Address)
    | Override(id: nat, winner: Winner, caller: Address)
    | Finalize(id: nat, caller: Address)
    | Timeout(id: nat, caller: Address)
    | Cancel(id: nat, caller: Address)
    | Drain(caller: Address)
    | Outside(token: Address, from: Address, to: Address, amount: int)  // a transfer the contract takes no part in

  datatype Tx = Tx(call: Call, signers: set<Address>, now: U32)

  /** The host never presents the contract's own signature, and nobody else can spend its balance. */
  predicate HostTx(tx: Tx) {
    SELF !in tx.signers && (tx.call.Outside? ==> tx.call.from != SELF)
  }

  ghost function Apply(s: State, tx: Tx): Reply {
    match tx.call
    case Init(oracle, admin, token, safe, window, timeout, isContract) => Initialize(s, oracle, admin, token, safe, window, timeout, isContract)
    case Pause(paused) => SetPaused(s, paused, tx.signers)
    case NewOracle(oracle) => UpdateOracle(s, oracle, tx.signers)
    case NewAdmin(caller, admin) => TransferAdmin(s, caller, admin, tx.signers)
    case Create(p1, p2, stake, token, gameId, platform) => CreateMatch(s, p1, p2, stake, token, gameId, platform, tx.signers, tx.now)
    case Pay(id, player, allowance) => Deposit(s, id, player, allowance, tx.signers, tx.now)
    case Report(id, gameId, winner, caller) => SubmitResult(s, id, gameId, winner, caller, tx.signers, tx.now)
    case Override(id, winner, caller) => OverrideResult(s, id, winner, caller, tx.signers, tx.now)
    case Finalize(id, caller) => FinalizeResult(s, id, caller, tx.signers, tx.now)
    case Timeout(id, caller) => ClaimTimeout(s, id, caller, tx.signers, tx.now)
    case Cancel(id, caller) => CancelMatch(s, id, caller, tx.signers, tx.now)
    case Drain(caller) => EmergencyDrain(s, caller, tx.signers)
    case Outside(token, from, to, amount) =>
      match Transfer(s.book, token, from, to, amount)
      case None => Err(Trap)
      case Some(book) => Ok(s.(book := book))
  }

  /** A failed transaction leaves the state alone. */
  ghost function Next(s: State, tx: Tx): State {
    match Apply(s, tx) case Ok(s') => s' case Err(_) => s
  }

  ghost predicate Accepted(s: State, tx: Tx) {
    Apply(s, tx).Ok?
  }

  ghost function Run(s: State, txs: seq<Tx>): State {
    if txs == [] then s else Next(Run(s, txs[..|txs| - 1]), txs[|txs| - 1])
  }

  /** The state before the last transaction of a run. */
  ghost function Before(s: State, txs: seq<Tx>): State
    requires txs != []
  {
    Run(s, txs[..|txs| - 1])
  }

  ghost predicate HostRun(txs: seq<Tx>) {
    forall i :: 0 <= i < |txs| ==> HostTx(txs[i])
  }

  function Target(call: Call): Option<nat> {
    match call
    case Pay(id, _, _) => Some(id)
    case Report(id, _, _, _) => Some(id)
    case Override(id, _, _) => Some(id)
    case Finalize(id, _) => Some(id)
    case Timeout(id, _) => Some(id)
    case Cancel(id, _) => Some(id)
    case _ => None
  }
}
