/** The tournament bracket contract as transactions over values: storage, nodes and token balances. */
module TournamentModel {
  import opened Types
  import opened Token

  const MIN_PLAYERS: nat := 2
  const MAX_PLAYERS: nat := 64
  const MIN_ENTRY_FEE: int := 1
  const MAX_PRIZE_POOL: int := 1_000_000_000_000
  const TIMEOUT_LEDGERS: nat := 120_960
  const RESERVE_BUFFER: int := 15_000_000
  const ZERO_ADDRESS: Address := 0
  /** The contract's own address. */
  const SELF: Address := 1

  datatype Error =
    | TournamentNotFound | AlreadyFunded | Unauthorized | AlreadyInitialized | Overflow
    | InvalidAmount | InvalidGameId | InvalidAdmin | StakeTooLow | StakeTooHigh
    | InsufficientReserve | InvalidAddress | InvalidPlayerCount | DuplicatePlayer
    | PlayerNotRegistered | NodeNotFound | InvalidNodeStatus | WinnerNotInMatch
    | TournamentInProgress | TournamentFinished | TimeoutNotReached | InvalidPrizeSchedule
    | Trap  // the host aborts: missing authorization, refused transfer, arithmetic overflow

  datatype Phase = Registration | InProgress | Completed | Cancelled
  datatype NodeStatus = AwaitingFunding | AwaitingResult | Decided

  datatype Node = Node(
    player1: Option<Address>, player2: Option<Address>,
    funded1: bool, funded2: bool,
    winner: Option<Address>, status: NodeStatus, resultLedger: Option<nat>)

  datatype Tournament = Tournament(
    admin: Address, token: Address, entryFee: int, playerCount: nat, rounds: nat,
    fundedCount: nat, phase: Phase, champion: Option<Address>,
    createdLedger: U32, completedLedger: Option<nat>, prizeSchedule: seq<int>)

  /** Nodes are keyed by (round, index). */
  type Nodes = map<(nat, nat), Node>

  /** One tournament record with the nodes stored under its id. */
  datatype Bracket = Bracket(info: Tournament, nodes: Nodes)

  datatype Config = Config(admin: Address, oracle: Address, token: Address)
  datatype State = State(config: Option<Config>, count: nat, brackets: map<nat, Bracket>, book: Book)

  type Reply = Outcome<State, Error>

  // ---------------------------- shape of the tree ----------------------------

  function NodeCount(playerCount: nat, round: nat): nat {
    ShiftRight(playerCount, round + 1)
  }

  function TrailingZeros(n: nat): nat {
    if n == 0 || n % 2 == 1 then 0 else 1 + TrailingZeros(n / 2)
  }

  predicate IsPowerOfTwo(n: nat) {
    n == 1 || (n > 0 && n % 2 == 0 && IsPowerOfTwo(n / 2))
  }

  function SeedPosition(index: nat, playerCount: nat): int {
    if index % 2 == 0 then index / 2 else playerCount - 1 - index / 2
  }

  predicate InTree(rounds: nat, r: nat, i: nat) {
    r < rounds && i < Pow2(rounds - 1 - r)
  }

  /** The stored nodes are exactly those of a complete tree over 2^rounds entrants. */
  ghost predicate Shape(b: Bracket) {
    && 1 <= b.info.rounds <= 6
    && b.info.playerCount == Pow2(b.info.rounds)
    && b.info.entryFee >= 1
    && (forall r: nat, i: nat :: (r, i) in b.nodes <==> InTree(b.info.rounds, r, i))
  }

  ghost predicate WellFormed(s: State) {
    && (forall id: nat :: id in s.brackets <==> id < s.count)
    && (s.config.None? ==> s.count == 0)
    && (forall id: nat :: id in s.brackets ==> Shape(s.brackets[id]))
  }

  /** Round 0 read as a line of 2^rounds entry slots: slots 2i and 2i+1 belong to node (0, i). */
  ghost function Slot(nodes: Nodes, k: nat): Option<Address>
    requires (0, k / 2) in nodes
  {
    if k % 2 == 0 then nodes[(0, k / 2)].player1 else nodes[(0, k / 2)].player2
  }

  ghost predicate Funded(nodes: Nodes, k: nat)
    requires (0, k / 2) in nodes
  {
    if k % 2 == 0 then nodes[(0, k / 2)].funded1 else nodes[(0, k / 2)].funded2
  }

  ghost predicate HasSlots(nodes: Nodes, m: nat) {
    forall i: nat :: 2 * i < m ==> (0, i) in nodes
  }

  lemma ShapeHasSlots(b: Bracket)
    requires Shape(b)
    ensures HasSlots(b.nodes, b.info.playerCount)
    ensures b.info.playerCount == 2 * Pow2(b.info.rounds - 1)
  {
    forall i: nat | 2 * i < b.info.playerCount ensures (0, i) in b.nodes {
      assert InTree(b.info.rounds, 0, i);
    }
  }

  ghost function CountFunded(nodes: Nodes, m: nat): (c: nat)
    requires HasSlots(nodes, m)
    ensures c <= m
  {
    if m == 0 then 0 else CountFunded(nodes, m - 1) + (if Funded(nodes, m - 1) then 1 else 0)
  }

  ghost function Undecided(nodes: Nodes): set<(nat, nat)> {
    set key | key in nodes && nodes[key].status != Decided
  }

  function Final(b: Bracket): (nat, nat)
    requires b.info.rounds > 0
  {
    (b.info.rounds - 1, 0)
  }

  predicate Terminal(p: Phase) {
    p == Completed || p == Cancelled
  }

  // ---------------------------- node updates ----------------------------

  function Fund(b: Bracket, k: nat): Bracket
    requires (0, k / 2) in b.nodes
  {
    var node := b.nodes[(0, k / 2)];
    var paid := if k % 2 == 0 then node.(funded1 := true) else node.(funded2 := true);
    var node' := if paid.funded1 && paid.funded2 then paid.(status := AwaitingResult) else paid;
    var count := b.info.fundedCount + 1;
    b.(nodes := b.nodes[(0, k / 2) := node'],
       info := b.info.(fundedCount := count,
                       phase := if count == b.info.playerCount then InProgress else b.info.phase))
  }

  function Decide(b: Bracket, r: nat, i: nat, winner: Address, now: nat): Bracket
    requires (r, i) in b.nodes
    requires r + 1 < b.info.rounds ==> (r + 1, i / 2) in b.nodes
  {
    var decided := b.nodes[(r, i) := b.nodes[(r, i)].(winner := Some(winner), status := Decided, resultLedger := Some(now))];
    if r + 1 < b.info.rounds then
      var parent := decided[(r + 1, i / 2)];
      var filled := if i % 2 == 0 then parent.(player1 := Some(winner)) else parent.(player2 := Some(winner));
      var parent' := if filled.player1.Some? && filled.player2.Some? then filled.(status := AwaitingResult) else filled;
      b.(nodes := decided[(r + 1, i / 2) := parent'])
    else
      b.(nodes := decided,
         info := b.info.(champion := Some(winner), phase := Completed, completedLedger := Some(now)))
  }

  /** Nodes after the first `m` round-0 nodes had their funded flags cleared. */
  function ClearFlags(nodes: Nodes, m: nat): Nodes {
    map key | key in nodes ::
      if key.0 == 0 && key.1 < m then nodes[key].(funded1 := false, funded2 := false) else nodes[key]
  }

  /** Balances after refunding the funded slots below `m`; `None` when a transfer traps. */
  ghost function PayRefunds(book: Book, token: Address, fee: int, nodes: Nodes, m: nat): Option<Book>
    requires HasSlots(nodes, m)
  {
    if m == 0 then Some(book)
    else
      var before := PayRefunds(book, token, fee, nodes, m - 1);
      if before.None? then None
      else if Funded(nodes, m - 1) && Slot(nodes, m - 1).Some? then
        Transfer(before.value, token, SELF, Slot(nodes, m - 1).value, fee)
      else before
  }

  // ---------------------------- entry points ----------------------------

  predicate Has(s: State, id: nat) {
    id < s.count && id in s.brackets
  }

  predicate ReserveHolds(book: Book, token: Address, payout: int) {
    Bal(book, token, SELF) >= payout + RESERVE_BUFFER
  }

  function Initialize(s: State, admin: Address, oracle: Address, token: Address, tokenIsContract: bool): Reply {
    if s.config.Some? then Err(AlreadyInitialized)
    else if admin == ZERO_ADDRESS || oracle == ZERO_ADDRESS || token == ZERO_ADDRESS then Err(InvalidAdmin)
    else if !tokenIsContract then Err(Trap)
    else Ok(s.(config := Some(Config(admin, oracle, token)), count := 0))
  }

  function Sum(xs: seq<int>): int {
    if xs == [] then 0 else Sum(xs[..|xs| - 1]) + xs[|xs| - 1]
  }

  ghost predicate ScheduleFits(schedule: seq<int>, places: nat, pool: int) {
    && 0 < |schedule| <= places
    && (forall i :: 0 <= i < |schedule| ==> schedule[i] > 0)
    && Sum(schedule) <= pool
  }

  ghost predicate HasDuplicate(players: seq<Address>, i: nat)
    requires i < |players|
  {
    exists j :: 0 <= j < i && players[j] == players[i]
  }

  /** The verdict on the first `m` entrants, in the order the code looks at them. */
  ghost function EntrantsVerdict(players: seq<Address>, m: nat): Option<Error>
    requires m <= |players|
  {
    if m == 0 then None
    else
      var earlier := EntrantsVerdict(players, m - 1);
      if earlier.Some? then earlier
      else if players[m - 1] == ZERO_ADDRESS then Some(InvalidAddress)
      else if HasDuplicate(players, m - 1) then Some(DuplicatePlayer)
      else None
  }

  const EMPTY_NODE := Node(None, None, false, false, None, AwaitingFunding, None)

  ghost function SeededNodes(players: seq<Address>, rounds: nat): Nodes
    requires |players| == Pow2(rounds) && rounds > 0
  {
    map r: nat, i: nat | 0 <= r < rounds && 0 <= i < Pow2(rounds) && InTree(rounds, r, i) ::
      (r, i) := if r > 0 then EMPTY_NODE
                else EMPTY_NODE.(player1 := Some(players[Seat(2 * i, |players|)]),
                                 player2 := Some(players[Seat(2 * i + 1, |players|)]))
  }

  /** SeedPosition kept inside the list; SeedPositionInRange shows that it already is. */
  function Seat(index: nat, n: nat): (p: nat)
    requires n > 0
    ensures p < n
  {
    var p := SeedPosition(index, n);
    if 0 <= p < n then p else 0
  }

  ghost function NewBracket(c: Config, fee: int, players: seq<Address>, schedule: seq<int>, now: U32): Bracket
    requires IsPowerOfTwo(|players|) && |players| >= 2
  {
    PowerOfTwoIsPow2(|players|);
    var rounds := TrailingZeros(|players|);
    Bracket(Tournament(c.admin, c.token, fee, |players|, rounds, 0, Registration, None, now, None, schedule),
            SeededNodes(players, rounds))
  }

  lemma {:induction false} PowerOfTwoIsPow2(n: nat)
    requires IsPowerOfTwo(n)
    ensures n == Pow2(TrailingZeros(n))
    ensures n >= 2 ==> TrailingZeros(n) >= 1
    ensures n <= 64 ==> TrailingZeros(n) <= 6
  {
    if n != 1 {
      PowerOfTwoIsPow2(n / 2);
      if n <= 64 && TrailingZeros(n) > 6 {
        assert Pow2(7) == 128;
        Pow2Grows(7, TrailingZeros(n));
      }
    }
  }

  lemma {:induction false} Pow2Grows(a: nat, b: nat)
    requires a <= b
    ensures Pow2(a) <= Pow2(b)
  {
    if a < b {
      Pow2Grows(a, b - 1);
    }
  }

  ghost function Create(s: State, fee: int, players: seq<Address>, schedule: seq<int>, signers: set<Address>, now: U32): Reply {
    if s.config.None? then Err(Unauthorized)
    else if s.config.value.admin !in signers then Err(Trap)
    else if fee < MIN_ENTRY_FEE then Err(StakeTooLow)
    else if |players| < MIN_PLAYERS || |players| > MAX_PLAYERS || !IsPowerOfTwo(|players|) then Err(InvalidPlayerCount)
    else if fee * |players| > I128_MAX then Err(InvalidAmount)
    else if fee * |players| > MAX_PRIZE_POOL then Err(StakeTooHigh)
    else if !ScheduleFits(schedule, |players|, fee * |players|) then Err(InvalidPrizeSchedule)
    else
      var verdict := EntrantsVerdict(players, |players|);
      if verdict.Some? then Err(verdict.value)
      else if s.count + 1 > U64_MAX then Err(Overflow)
      else Ok(s.(count := s.count + 1,
                 brackets := s.brackets[s.count := NewBracket(s.config.value, fee, players, schedule, now)]))
  }

  /** The first entry slot at or after `k` holding `player`. */
  ghost function FindSlot(nodes: Nodes, n: nat, player: Address, k: nat): (r: Option<nat>)
    requires HasSlots(nodes, n)
    ensures r.Some? ==> k <= r.value < n && Slot(nodes, r.value) == Some(player)
    ensures r.None? ==> forall j: nat :: k <= j < n ==> Slot(nodes, j) != Some(player)
    decreases n - k
  {
    if k >= n then None
    else if Slot(nodes, k) == Some(player) then Some(k)
    else FindSlot(nodes, n, player, k + 1)
  }

  ghost function Deposit(s: State, id: nat, player: Address, signers: set<Address>): Reply
    requires WellFormed(s)
  {
    if player !in signers then Err(Trap)
    else if !Has(s, id) then Err(TournamentNotFound)
    else
      var b := s.brackets[id];
      if Terminal(b.info.phase) then Err(TournamentFinished)
      else
        ShapeHasSlots(b);
        match FindSlot(b.nodes, b.info.playerCount, player, 0)
        case None => Err(PlayerNotRegistered)
        case Some(k) =>
          if Funded(b.nodes, k) then Err(AlreadyFunded)
          else match Transfer(s.book, b.info.token, player, SELF, b.info.entryFee)
               case None => Err(Trap)
               case Some(book) => Ok(s.(brackets := s.brackets[id := Fund(b, k)], book := book))
  }

  ghost function Submit(s: State, id: nat, round: nat, index: nat, gameId: seq<Byte>, winner: Address, signers: set<Address>, now: U32): Reply
    requires WellFormed(s)
  {
    if s.config.None? then Err(Unauthorized)
    else if s.config.value.oracle !in signers then Err(Trap)
    else if !Has(s, id) then Err(TournamentNotFound)
    else
      var b := s.brackets[id];
      if Terminal(b.info.phase) then Err(TournamentFinished)
      else if !ValidGameId(gameId) then Err(InvalidGameId)
      else if (round, index) !in b.nodes then Err(NodeNotFound)
      else
        var node := b.nodes[(round, index)];
        if node.status != AwaitingResult then Err(InvalidNodeStatus)
        else if node.player1 != Some(winner) && node.player2 != Some(winner) then Err(WinnerNotInMatch)
        else
          ParentInTree(b, round, index);
          var b' := Decide(b, round, index, winner, now);
          var s' := s.(brackets := s.brackets[id := b']);
          if round + 1 < b.info.rounds then Ok(s')
          else
            var payout := b.info.entryFee * b.info.playerCount;
            if !ReserveHolds(s.book, b.info.token, payout) then Err(InsufficientReserve)
            else match Transfer(s.book, b.info.token, SELF, winner, payout)
                 case None => Err(Trap)
                 case Some(book) => Ok(s'.(book := book))
  }

  lemma ParentInTree(b: Bracket, r: nat, i: nat)
    requires Shape(b) && (r, i) in b.nodes
    ensures r + 1 < b.info.rounds ==> (r + 1, i / 2) in b.nodes
    ensures r + 1 == b.info.rounds ==> (r, i) == Final(b)
    ensures r < b.info.rounds
  {
    assert InTree(b.info.rounds, r, i);
    if r + 1 < b.info.rounds {
      assert InTree(b.info.rounds, r + 1, i / 2);
    }
  }

  /** `refund_all` followed by the move to Cancelled. */
  ghost function Abandon(s: State, id: nat, now: U32): Reply
    requires WellFormed(s) && Has(s, id)
  {
    var b := s.brackets[id];
    ShapeHasSlots(b);
    var closed := b.info.(phase := Cancelled, completedLedger := Some(now), fundedCount := 0);
    if b.info.fundedCount == 0 then Ok(s.(brackets := s.brackets[id := b.(info := closed)]))
    else if !ReserveHolds(s.book, b.info.token, b.info.entryFee * b.info.fundedCount) then Err(InsufficientReserve)
    else match PayRefunds(s.book, b.info.token, b.info.entryFee, b.nodes, b.info.playerCount)
         case None => Err(Trap)
         case Some(book) =>
           Ok(s.(brackets := s.brackets[id := Bracket(closed, ClearFlags(b.nodes, b.info.playerCount / 2))], book := book))
  }

  ghost function Cancel(s: State, id: nat, signers: set<Address>, now: U32): Reply
    requires WellFormed(s)
  {
    if s.config.None? then Err(Unauthorized)
    else if s.config.value.admin !in signers then Err(Trap)
    else if !Has(s, id) then Err(TournamentNotFound)
    else if s.brackets[id].info.phase != Registration then Err(TournamentInProgress)
    else Abandon(s, id, now)
  }

  ghost function ClaimTimeout(s: State, id: nat, caller: Address, signers: set<Address>, now: U32): Reply
    requires WellFormed(s)
  {
    if caller !in signers then Err(Trap)
    else if !Has(s, id) then Err(TournamentNotFound)
    else if Terminal(s.brackets[id].info.phase) then Err(TournamentFinished)
    else if s.brackets[id].info.createdLedger + TIMEOUT_LEDGERS > U32_MAX then Err(Trap)
    else if now <= s.brackets[id].info.createdLedger + TIMEOUT_LEDGERS then Err(TimeoutNotReached)
    else Abandon(s, id, now)
  }

  // ---------------------------- runs ----------------------------

  datatype Call =
    | Init(admin: Address, oracle: Address, token: Address, tokenIsContract: bool)
    | CreateTournament(fee: int, players: seq<Address>, schedule: seq<int>)
    | Pay(id: nat, player: Address)
    | Result(id: nat, round: nat, index: nat, gameId: seq<Byte>, winner: Address)
    | CancelTournament(id: nat)
    | Timeout(id: nat, caller: Address)
    | Outside(token: Address, from: Address, to: Address, amount: int)  // a transfer the contract takes no part in

  datatype Tx = Tx(call: Call, signers: set<Address>, now: U32)

  /** The host never presents the contract's own signature, and nobody else can spend its balance. */
  predicate HostTx(tx: Tx) {
    SELF !in tx.signers && (tx.call.Outside? ==> tx.call.from != SELF)
  }

  ghost function Apply(s: State, tx: Tx): Reply
    requires WellFormed(s)
  {
    match tx.call
    case Init(admin, oracle, token, isContract) => Initialize(s, admin, oracle, token, isContract)
    case CreateTournament(fee, players, schedule) => Create(s, fee, players, schedule, tx.signers, tx.now)
    case Pay(id, player) => Deposit(s, id, player, tx.signers)
    case Result(id, round, index, gameId, winner) => Submit(s, id, round, index, gameId, winner, tx.signers, tx.now)
    case CancelTournament(id) => Cancel(s, id, tx.signers, tx.now)
    case Timeout(id, caller) => ClaimTimeout(s, id, caller, tx.signers, tx.now)
    case Outside(token, from, to, amount) =>
      match Transfer(s.book, token, from, to, amount)
      case None => Err(Trap)
      case Some(book) => Ok(s.(book := book))
  }

  /** A failed transaction leaves the state alone. */
  ghost function Next(s: State, tx: Tx): State
    requires WellFormed(s)
  {
    match Apply(s, tx) case Ok(s') => s' case Err(_) => s
  }
}
