/** The leaderboard contract as functions on its storage. */
module LeaderboardModel {
  import opened Types

  const MAX_PAGE_SIZE: nat := 50

  /** `Trap` is a failed authorisation or an arithmetic overflow: the host aborts the call. */
  datatype Error = AlreadyInitialized | Unauthorized | NotInitialized | InvalidResult | InvalidRange | ContractPaused | Trap

  datatype MatchOutcome = Player1Won | Player2Won | Draw

  datatype PlayerStats = PlayerStats(wins: nat, losses: nat, draws: nat, earnings: int, token: Option<Address>)

  const EMPTY: PlayerStats := PlayerStats(0, 0, 0, 0, None)

  datatype Row = Row(player: Address, stats: PlayerStats)

  datatype Board = Board(
    admin: Option<Address>, paused: bool, sources: set<Address>,
    stats: map<Address, PlayerStats>, roster: seq<Address>, resultCount: nat)

  const FRESH: Board := Board(None, false, {}, map[], [], 0)

  type Reply = Outcome<Board, Error>

  function LoadStats(stats: map<Address, PlayerStats>, player: Address): PlayerStats {
    if player in stats then stats[player] else EMPTY
  }

  // ---------------------------- recording ----------------------------

  datatype MatchResult = MatchResult(player1: Address, player2: Address, outcome: MatchOutcome, payout: int, token: Address)

  function Winner(r: MatchResult): Option<Address> {
    match r.outcome
    case Player1Won => Some(r.player1)
    case Player2Won => Some(r.player2)
    case Draw => None
  }

  function Loser(r: MatchResult): Option<Address> {
    match r.outcome
    case Player1Won => Some(r.player2)
    case Player2Won => Some(r.player1)
    case Draw => None
  }

  /** `wins += 1`, `earnings += payout`; `None` is the overflow trap. */
  function AddWin(p: PlayerStats, payout: int, token: Address): Option<PlayerStats> {
    if p.wins + 1 > U32_MAX || p.earnings + payout > I128_MAX then None
    else Some(PlayerStats(p.wins + 1, p.losses, p.draws, p.earnings + payout, Some(token)))
  }

  function AddLoss(p: PlayerStats): Option<PlayerStats> {
    if p.losses + 1 > U32_MAX then None else Some(p.(losses := p.losses + 1))
  }

  function AddDraw(p: PlayerStats): Option<PlayerStats> {
    if p.draws + 1 > U32_MAX then None else Some(p.(draws := p.draws + 1))
  }

  /** The stats after one result, `None` when a counter overflows. */
  function Credited(stats: map<Address, PlayerStats>, r: MatchResult): Option<map<Address, PlayerStats>> {
    if r.outcome.Draw? then
      var p1 := AddDraw(LoadStats(stats, r.player1));
      if p1.None? then None
      else
        var one := stats[r.player1 := p1.value];
        var p2 := AddDraw(LoadStats(one, r.player2));
        if p2.None? then None else Some(one[r.player2 := p2.value])
    else
      var w := AddWin(LoadStats(stats, Winner(r).value), r.payout, r.token);
      if w.None? then None
      else
        var one := stats[Winner(r).value := w.value];
        var l := AddLoss(LoadStats(one, Loser(r).value));
        if l.None? then None else Some(one[Loser(r).value := l.value])
  }

  /** `add_to_roster` */
  function Enlist(roster: seq<Address>, player: Address): seq<Address> {
    if player in roster then roster else roster + [player]
  }

  function RecordResult(s: Board, r: MatchResult, caller: Address, signers: set<Address>): Reply {
    if caller !in s.sources then Err(Unauthorized)
    else if s.paused then Err(ContractPaused)
    else if r.player1 == r.player2 || r.payout < 0 then Err(InvalidResult)
    else if caller !in signers then Err(Trap)
    else
      var stats := Credited(s.stats, r);
      if stats.None? then Err(Trap)
      else Ok(s.(stats := stats.value,
                 roster := Enlist(Enlist(s.roster, r.player1), r.player2),
                 resultCount := Min(s.resultCount + 1, U32_MAX)))
  }

  // ---------------------------- administration ----------------------------

  function Initialize(s: Board, admin: Address, source: Address, signers: set<Address>): Reply {
    if s.admin.Some? then Err(AlreadyInitialized)
    else if admin !in signers || source !in signers then Err(Trap)
    else Ok(s.(admin := Some(admin), paused := false, resultCount := 0, sources := s.sources + {source}))
  }

  function AdminGate(s: Board, caller: Address, signers: set<Address>): Option<Error> {
    if s.admin.None? then Some(NotInitialized)
    else if caller != s.admin.value then Some(Unauthorized)
    else if caller !in signers then Some(Trap)
    else None
  }

  function AddSource(s: Board, source: Address, caller: Address, signers: set<Address>): Reply {
    var gate := AdminGate(s, caller, signers);
    if gate.Some? then Err(gate.value)
    else if source !in signers then Err(Trap)
    else Ok(s.(sources := s.sources + {source}))
  }

  function RemoveSource(s: Board, source: Address, caller: Address, signers: set<Address>): Reply {
    var gate := AdminGate(s, caller, signers);
    if gate.Some? then Err(gate.value)
    else if source !in s.sources then Err(Unauthorized)
    else Ok(s.(sources := s.sources - {source}))
  }

  function SetPaused(s: Board, paused: bool, caller: Address, signers: set<Address>): Reply {
    var gate := AdminGate(s, caller, signers);
    if gate.Some? then Err(gate.value) else Ok(s.(paused := paused))
  }

  datatype Call =
    | CallInitialize(admin: Address, source: Address)
    | CallAddSource(source: Address, caller: Address)
    | CallRemoveSource(source: Address, caller: Address)
    | CallSetPaused(paused: bool, caller: Address)
    | CallRecord(result: MatchResult, caller: Address)

  datatype Tx = Tx(call: Call, signers: set<Address>)

  function Apply(s: Board, tx: Tx): Reply {
    match tx.call
    case CallInitialize(a, src) => Initialize(s, a, src, tx.signers)
    case CallAddSource(src, c) => AddSource(s, src, c, tx.signers)
    case CallRemoveSource(src, c) => RemoveSource(s, src, c, tx.signers)
    case CallSetPaused(p, c) => SetPaused(s, p, c, tx.signers)
    case CallRecord(r, c) => RecordResult(s, r, c, tx.signers)
  }

  function Next(s: Board, tx: Tx): Board {
    var reply := Apply(s, tx);
    if reply.Ok? then reply.value else s
  }

  /** The state after any sequence of calls. */
  function Run(txs: seq<Tx>): Board {
    if txs == [] then FRESH else Next(Run(txs[..|txs| - 1]), txs[|txs| - 1])
  }

  /** The results that were accepted along the way, oldest first. */
  function Accepted(txs: seq<Tx>): seq<MatchResult> {
    if txs == [] then []
    else
      var before, tx := txs[..|txs| - 1], txs[|txs| - 1];
      Accepted(before) + (if tx.call.CallRecord? && Apply(Run(before), tx).Ok? then [tx.call.result] else [])
  }

  // ---------------------------- reading the board ----------------------------

  /** `matches_played() > 0`; a total beyond 32 bits has no value and does not compare as positive. */
  predicate OnBoard(p: PlayerStats) {
    0 < p.wins + p.losses + p.draws <= U32_MAX
  }

  /** `ranks_after` */
  predicate RanksAfter(a: Row, b: Row) {
    if a.stats.wins != b.stats.wins then a.stats.wins < b.stats.wins
    else if a.stats.earnings != b.stats.earnings then a.stats.earnings < b.stats.earnings
    else a.player > b.player
  }

  /** The rows collected from the roster, in roster order. */
  function Rows(roster: seq<Address>, stats: map<Address, PlayerStats>): seq<Row> {
    if roster == [] then []
    else
      var n := |roster| - 1;
      var p := LoadStats(stats, roster[n]);
      Rows(roster[..n], stats) + (if OnBoard(p) then [Row(roster[n], p)] else [])
  }

  /** One page of a ranking. */
  function Page(ranked: seq<Row>, limit: nat, offset: nat): Outcome<seq<Row>, Error> {
    if limit == 0 || (offset > 0 && offset >= |ranked|) then Err(InvalidRange)
    else
      var cap := Min(limit, MAX_PAGE_SIZE);
      var end := Min(|ranked|, Min(offset + cap, U32_MAX));
      Ok(if offset <= end then ranked[offset..end] else [])
  }
}
