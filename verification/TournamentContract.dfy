/** The contract object: storage that the entry points read, write and, on failure, leave as it was. */
module TournamentContract {
  import opened Types
  import opened Token
  import opened TournamentModel
  import opened TournamentBracket

  class TournamentBracketContract {
    var config: Option<Config>
    var count: nat
    var brackets: map<nat, Bracket>
    var book: Book

    ghost function Snapshot(): State
      reads this
    {
      State(config, count, brackets, book)
    }

    ghost predicate Valid()
      reads this
    {
      WellFormed(Snapshot())
    }

    /** A call did what the transaction says: committed its state, or failed and changed nothing. */
    ghost predicate Did<T>(reply: Reply, before: State, r: Outcome<T, Error>)
      reads this
    {
      match reply
      case Ok(after) => r.Ok? && Snapshot() == after
      case Err(e) => r == Err(e) && Snapshot() == before
    }

    constructor (initial: Book)
      ensures Valid() && Snapshot() == State(None, 0, map[], initial)
    {
      config, count, brackets, book := None, 0, map[], initial;
    }

    method Initialize(admin: Address, oracle: Address, token: Address, tokenIsContract: bool) returns (r: Outcome<(), Error>)
      requires Valid()
      modifies this
      ensures Valid()
      ensures Did(TournamentModel.Initialize(old(Snapshot()), admin, oracle, token, tokenIsContract), old(Snapshot()), r)
    {
      if config.Some? {
        return Err(AlreadyInitialized);
      }
      if admin == ZERO_ADDRESS || oracle == ZERO_ADDRESS || token == ZERO_ADDRESS {
        return Err(InvalidAdmin);
      }
      if !tokenIsContract {
        return Err(Trap);
      }
      config := Some(Config(admin, oracle, token));
      count := 0;
      return Ok(());
    }

    // ---------------------------- create ----------------------------

    /** The loop over the prize schedule; an overflowing total is rejected like one above the pool. */
    static method ScheduleAccepted(schedule: seq<int>, n: nat, pool: I128) returns (ok: bool)
      requires forall i :: 0 <= i < |schedule| ==> schedule[i] <= I128_MAX
      ensures ok <==> ScheduleFits(schedule, n, pool)
    {
      if |schedule| == 0 || |schedule| > n {
        return false;
      }
      var total := 0;
      var i := 0;
      while i < |schedule|
        invariant 0 <= i <= |schedule|
        invariant forall j :: 0 <= j < i ==> schedule[j] > 0
        invariant total == Sum(schedule[..i]) && 0 <= total <= I128_MAX
      {
        assert schedule[..i + 1][..i] == schedule[..i];
        if schedule[i] <= 0 {
          return false;
        }
        if total + schedule[i] > I128_MAX {
          SumGrows(schedule, i + 1);
          return false;
        }
        total := total + schedule[i];
        i := i + 1;
      }
      assert schedule[..i] == schedule;
      return total <= pool;
    }

    static lemma {:induction false} SumGrows(schedule: seq<int>, m: nat)
      requires m <= |schedule|
      ensures (forall j :: 0 <= j < |schedule| ==> schedule[j] > 0) ==> Sum(schedule[..m]) <= Sum(schedule)
      decreases |schedule| - m
    {
      if m < |schedule| {
        SumGrows(schedule, m + 1);
        assert schedule[..m + 1][..m] == schedule[..m];
      } else {
        assert schedule[..m] == schedule;
      }
    }

    static method CheckEntrants(players: seq<Address>) returns (verdict: Option<Error>)
      ensures verdict == EntrantsVerdict(players, |players|)
    {
      var i := 0;
      while i < |players|
        invariant 0 <= i <= |players|
        invariant EntrantsVerdict(players, i).None?
      {
        if players[i] == ZERO_ADDRESS {
          VerdictStays(players, i + 1, |players|);
          return Some(InvalidAddress);
        }
        var j := 0;
        while j < i
          invariant 0 <= j <= i
          invariant forall k :: 0 <= k < j ==> players[k] != players[i]
        {
          if players[j] == players[i] {
            assert HasDuplicate(players, i);
            VerdictStays(players, i + 1, |players|);
            return Some(DuplicatePlayer);
          }
          j := j + 1;
        }
        i := i + 1;
      }
      return None;
    }

    static lemma {:induction false} VerdictStays(players: seq<Address>, a: nat, m: nat)
      requires a <= m <= |players| && EntrantsVerdict(players, a).Some?
      ensures EntrantsVerdict(players, m) == EntrantsVerdict(players, a)
      decreases m
    {
      if a < m {
        VerdictStays(players, a, m - 1);
      }
    }

    /** The nested loops that lay out the empty tree. */
    static method BuildTree(n: nat, rounds: nat) returns (nodes: Nodes)
      requires n == Pow2(rounds)
      ensures forall r: nat, i: nat :: (r, i) in nodes <==> InTree(rounds, r, i)
      ensures forall key :: key in nodes ==> nodes[key] == EMPTY_NODE
    {
      nodes := map[];
      var r := 0;
      while r < rounds
        invariant 0 <= r <= rounds
        invariant forall r': nat, i': nat :: (r', i') in nodes <==> r' < r && InTree(rounds, r', i')
        invariant forall key :: key in nodes ==> nodes[key] == EMPTY_NODE
      {
        ShiftOfPow2(rounds, r + 1);
        var inRound := NodeCount(n, r);
        var i := 0;
        while i < inRound
          invariant 0 <= i <= inRound == Pow2(rounds - 1 - r)
          invariant forall r': nat, i': nat :: (r', i') in nodes <==> (r' < r && InTree(rounds, r', i')) || (r' == r && i' < i)
          invariant forall key :: key in nodes ==> nodes[key] == EMPTY_NODE
        {
          nodes := nodes[(r, i) := EMPTY_NODE];
          i := i + 1;
        }
        r := r + 1;
      }
    }

    /** The loop that seats the entrants in round 0. */
    static method SeatEntrants(tree: Nodes, players: seq<Address>, rounds: nat) returns (nodes: Nodes)
      requires |players| == Pow2(rounds) && rounds > 0
      requires forall r: nat, i: nat :: (r, i) in tree <==> InTree(rounds, r, i)
      requires forall key :: key in tree ==> tree[key] == EMPTY_NODE
      ensures nodes == SeededNodes(players, rounds)
    {
      hide SeededNodes, Seat, SeedPosition;
      nodes := tree;
      var n := |players|;
      assert n == 2 * Pow2(rounds - 1);
      var i := 0;
      while i < n / 2
        invariant 0 <= i <= n / 2
        invariant nodes.Keys == tree.Keys
        invariant forall key :: key in nodes ==> nodes[key] == Seated(players, rounds, i, key)
      {
        SeatIsSeedPosition(n, 2 * i);
        SeatIsSeedPosition(n, 2 * i + 1);
        assert InTree(rounds, 0, i);
        var p1 := players[SeedPosition(2 * i, n)];
        var p2 := players[SeedPosition(2 * i + 1, n)];
        nodes := nodes[(0, i) := nodes[(0, i)].(player1 := Some(p1), player2 := Some(p2))];
        i := i + 1;
      }
      TreeIsSeeded(players, rounds, nodes);
    }

    /** A node once the first `m` round-0 nodes were seated. */
    static ghost function Seated(players: seq<Address>, rounds: nat, m: nat, key: (nat, nat)): Node
      requires |players| == Pow2(rounds) && rounds > 0
    {
      if key.0 > 0 || key.1 >= m then EMPTY_NODE
      else EMPTY_NODE.(player1 := Some(players[Seat(2 * key.1, |players|)]),
                       player2 := Some(players[Seat(2 * key.1 + 1, |players|)]))
    }

    static lemma TreeIsSeeded(players: seq<Address>, rounds: nat, nodes: Nodes)
      requires |players| == Pow2(rounds) && rounds > 0
      requires forall r: nat, i: nat :: (r, i) in nodes <==> InTree(rounds, r, i)
      requires forall key :: key in nodes ==> nodes[key] == Seated(players, rounds, |players| / 2, key)
      ensures nodes == SeededNodes(players, rounds)
    {
      var seeded := SeededNodes(players, rounds);
      forall key ensures (key in nodes <==> key in seeded) && (key in nodes ==> nodes[key] == seeded[key]) {
        SeededKeys(players, rounds, key.0, key.1);
        if InTree(rounds, 0, key.1) {
          assert 2 * Pow2(rounds - 1) == |players|;
        }
      }
    }

    method CreateTournamentWithPrizes(fee: int, players: seq<Address>, schedule: seq<int>, signers: set<Address>, now: U32) returns (r: Outcome<nat, Error>)
      requires Valid()
      requires forall i :: 0 <= i < |schedule| ==> schedule[i] <= I128_MAX
      modifies this
      ensures Valid()
      ensures Did(Create(old(Snapshot()), fee, players, schedule, signers, now), old(Snapshot()), r)
      ensures r.Ok? ==> r.value == old(count)
    {
      if config.None? {
        return Err(Unauthorized);
      }
      if config.value.admin !in signers {
        return Err(Trap);
      }
      if fee < MIN_ENTRY_FEE {
        return Err(StakeTooLow);
      }
      var n := |players|;
      if n < MIN_PLAYERS || n > MAX_PLAYERS || !IsPowerOfTwo(n) {
        return Err(InvalidPlayerCount);
      }
      var pool := fee * n;
      if pool > I128_MAX {
        return Err(InvalidAmount);
      }
      if pool > MAX_PRIZE_POOL {
        return Err(StakeTooHigh);
      }
      var fits := ScheduleAccepted(schedule, n, pool);
      if !fits {
        return Err(InvalidPrizeSchedule);
      }
      var verdict := CheckEntrants(players);
      if verdict.Some? {
        return Err(verdict.value);
      }
      var id := count;
      if id + 1 > U64_MAX {
        return Err(Overflow);
      }
      PowerOfTwoIsPow2(n);
      var t := Tournament(config.value.admin, config.value.token, fee, n, TrailingZeros(n), 0, Registration, None, now, None, schedule);
      count := id + 1;
      NewBracketShape(config.value, fee, players, schedule, now);
      var tree := BuildTree(n, t.rounds);
      var seated := SeatEntrants(tree, players, t.rounds);
      assert Bracket(t, seated) == NewBracket(config.value, fee, players, schedule, now);
      brackets := brackets[id := Bracket(t, seated)];
      return Ok(id);
    }

    /** `create_tournament`: the whole pool goes to the first place. */
    method CreateTournament(fee: I128, players: seq<Address>, signers: set<Address>, now: U32) returns (r: Outcome<nat, Error>)
      requires Valid()
      modifies this
      ensures Valid()
      ensures fee * |players| > I128_MAX || fee * |players| < -I128_MAX - 1
        ==> r == Err(InvalidAmount) && Snapshot() == old(Snapshot())
      ensures -I128_MAX - 1 <= fee * |players| <= I128_MAX
        ==> Did(Create(old(Snapshot()), fee, players, [fee * |players|], signers, now), old(Snapshot()), r)
    {
      var pool := fee * |players|;
      if pool > I128_MAX || pool < -I128_MAX - 1 {
        return Err(InvalidAmount);
      }
      r := CreateTournamentWithPrizes(fee, players, [pool], signers, now);
    }

    // ---------------------------- deposit ----------------------------

    static lemma SlotPair(nodes: Nodes, i: nat)
      requires (0, i) in nodes
      ensures (0, (2 * i) / 2) in nodes && (0, (2 * i + 1) / 2) in nodes
      ensures Slot(nodes, 2 * i) == nodes[(0, i)].player1 && Slot(nodes, 2 * i + 1) == nodes[(0, i)].player2
      ensures Funded(nodes, 2 * i) == nodes[(0, i)].funded1 && Funded(nodes, 2 * i + 1) == nodes[(0, i)].funded2
    {
    }

    /** `find_entry_slot`, with the pair (node, is first) written as one slot number. */
    static method FindEntrySlot(nodes: Nodes, n: nat, player: Address) returns (slot: Option<nat>)
      requires HasSlots(nodes, n) && n % 2 == 0
      ensures slot == FindSlot(nodes, n, player, 0)
    {
      hide Slot;
      var half := n / 2;
      var i := 0;
      while i < half
        invariant 0 <= i <= half
        invariant FindSlot(nodes, n, player, 0) == FindSlot(nodes, n, player, 2 * i)
      {
        SlotPair(nodes, i);
        var node := nodes[(0, i)];
        if node.player1 == Some(player) {
          return Some(2 * i);
        }
        assert FindSlot(nodes, n, player, 2 * i) == FindSlot(nodes, n, player, 2 * i + 1);
        if node.player2 == Some(player) {
          return Some(2 * i + 1);
        }
        i := i + 1;
      }
      return None;
    }

    method Deposit(id: nat, player: Address, signers: set<Address>) returns (r: Outcome<(), Error>)
      requires Valid()
      modifies this
      ensures Valid()
      ensures Did(TournamentModel.Deposit(old(Snapshot()), id, player, signers), old(Snapshot()), r)
    {
      hide Shape, FindSlot, Transfer;
      if player !in signers {
        return Err(Trap);
      }
      if id >= count || id !in brackets {
        return Err(TournamentNotFound);
      }
      var t := brackets[id].info;
      if t.phase == Completed || t.phase == Cancelled {
        return Err(TournamentFinished);
      }
      ShapeHasSlots(brackets[id]);
      var slot := FindEntrySlot(brackets[id].nodes, t.playerCount, player);
      if slot.None? {
        return Err(PlayerNotRegistered);
      }
      var isFirst := slot.value % 2 == 0;
      var key := (0, slot.value / 2);
      var node := brackets[id].nodes[key];
      if (isFirst && node.funded1) || (!isFirst && node.funded2) {
        return Err(AlreadyFunded);
      }
      var moved := Transfer(book, t.token, player, SELF, t.entryFee);
      if moved.None? {
        return Err(Trap);
      }
      book := moved.value;
      if isFirst {
        node := node.(funded1 := true);
      } else {
        node := node.(funded2 := true);
      }
      if node.funded1 && node.funded2 {
        node := node.(status := AwaitingResult);
      }
      var nodes := brackets[id].nodes[key := node];
      t := t.(fundedCount := t.fundedCount + 1);
      if t.fundedCount == t.playerCount {
        t := t.(phase := InProgress);
      }
      assert Bracket(t, nodes) == Fund(brackets[id], slot.value);
      FundShape(brackets[id], slot.value);
      brackets := brackets[id := Bracket(t, nodes)];
      return Ok(());
    }

    // ---------------------------- results ----------------------------

    method SubmitMatchResult(id: nat, round: nat, index: nat, gameId: seq<Byte>, winner: Address, signers: set<Address>, now: U32) returns (r: Outcome<(), Error>)
      requires Valid()
      modifies this
      ensures Valid()
      ensures Did(Submit(old(Snapshot()), id, round, index, gameId, winner, signers, now), old(Snapshot()), r)
    {
      hide Shape, Transfer, IdByte;
      if config.None? {
        return Err(Unauthorized);
      }
      if config.value.oracle !in signers {
        return Err(Trap);
      }
      if id >= count || id !in brackets {
        return Err(TournamentNotFound);
      }
      var t := brackets[id].info;
      if t.phase == Completed || t.phase == Cancelled {
        return Err(TournamentFinished);
      }
      if |gameId| == 0 || |gameId| > MAX_GAME_ID_LEN {
        return Err(InvalidGameId);
      }
      var idOk := AllIdBytes(gameId);
      if !idOk {
        return Err(InvalidGameId);
      }
      if (round, index) !in brackets[id].nodes {
        return Err(NodeNotFound);
      }
      var node := brackets[id].nodes[(round, index)];
      if node.status != AwaitingResult {
        return Err(InvalidNodeStatus);
      }
      if node.player1 != Some(winner) && node.player2 != Some(winner) {
        return Err(WinnerNotInMatch);
      }
      var committed := brackets;
      ParentInTree(brackets[id], round, index);
      DecideShape(brackets[id], round, index, winner, now);
      var nodes := brackets[id].nodes[(round, index) := node.(winner := Some(winner), status := Decided, resultLedger := Some(now))];
      if round + 1 < t.rounds {
        var parentKey := (round + 1, index / 2);
        var parent := nodes[parentKey];
        if index % 2 == 0 {
          parent := parent.(player1 := Some(winner));
        } else {
          parent := parent.(player2 := Some(winner));
        }
        if parent.player1.Some? && parent.player2.Some? {
          parent := parent.(status := AwaitingResult);
        }
        nodes := nodes[parentKey := parent];
        assert Bracket(t, nodes) == Decide(brackets[id], round, index, winner, now);
        brackets := brackets[id := Bracket(t, nodes)];
        return Ok(());
      }
      t := t.(champion := Some(winner), phase := Completed, completedLedger := Some(now));
      assert Bracket(t, nodes) == Decide(brackets[id], round, index, winner, now);
      brackets := brackets[id := Bracket(t, nodes)];
      var payout := t.entryFee * t.playerCount;
      if Bal(book, t.token, SELF) < payout + RESERVE_BUFFER {
        brackets := committed;  // the host undoes the completed tournament
        return Err(InsufficientReserve);
      }
      var moved := Transfer(book, t.token, SELF, winner, payout);
      if moved.None? {
        brackets := committed;
        return Err(Trap);
      }
      book := moved.value;
      return Ok(());
    }

    // ---------------------------- refunds ----------------------------

    /** Pays one funded entrant of the loop in `refund_all`. */
    static method PayBack(book: Book, token: Address, fee: int, funded: bool, player: Option<Address>) returns (r: Option<Book>)
      ensures r == if funded && player.Some? then Transfer(book, token, SELF, player.value, fee) else Some(book)
    {
      if funded {
        if player.Some? {
          r := Transfer(book, token, SELF, player.value, fee);
          return;
        }
      }
      return Some(book);
    }

    /** The loop of `refund_all`: pays and clears node by node, and stops at a trapped transfer. */
    static method RefundLoop(book: Book, token: Address, fee: int, nodes: Nodes, n: nat) returns (paid: Option<Book>, cleared: Nodes)
      requires HasSlots(nodes, n) && n % 2 == 0
      ensures paid == PayRefunds(book, token, fee, nodes, n)
      ensures paid.Some? ==> cleared == ClearFlags(nodes, n / 2)
    {
      hide PayRefunds, ClearFlags, Transfer;
      var half := n / 2;
      NothingRefunded(book, token, fee, nodes);
      paid, cleared := Some(book), nodes;
      var i := 0;
      while i < half
        invariant 0 <= i <= half
        invariant cleared == ClearFlags(nodes, i)
        invariant paid.Some? && paid == PayRefunds(book, token, fee, nodes, 2 * i)
      {
        ClearNext(nodes, i);
        var node := cleared[(0, i)];
        RefundsByNode(book, token, fee, nodes, i);
        paid := PayBack(paid.value, token, fee, node.funded1, node.player1);
        if paid.Some? {
          paid := PayBack(paid.value, token, fee, node.funded2, node.player2);
        }
        if paid.None? {
          RefundsStayTrapped(book, token, fee, nodes, 2 * i + 2, n);
          return;
        }
        cleared := cleared[(0, i) := node.(funded1 := false, funded2 := false)];
        i := i + 1;
      }
      assert n == 2 * half;
    }

    /** `refund_all`; when a transfer traps, nothing paid so far is kept. */
    method RefundAll(id: nat) returns (r: Outcome<(), Error>)
      requires Valid() && id in brackets
      modifies this`brackets, this`book
      ensures HasSlots(old(brackets[id].nodes), old(brackets[id].info.playerCount))
      ensures Refunded(old(brackets), old(book), id, r)
    {
      var b := brackets[id];
      var t := b.info;
      ShapeHasSlots(b);
      hide Shape, PayRefunds, ClearFlags, Transfer;
      if t.fundedCount == 0 {
        return Ok(());
      }
      if Bal(book, t.token, SELF) < t.entryFee * t.fundedCount + RESERVE_BUFFER {
        return Err(InsufficientReserve);
      }
      var paid, cleared := RefundLoop(book, t.token, t.entryFee, b.nodes, t.playerCount);
      if paid.None? {
        return Err(Trap);
      }
      book := paid.value;
      brackets := brackets[id := Bracket(t.(fundedCount := 0), cleared)];
      return Ok(());
    }

    /** What `refund_all` leaves behind, in terms of the bracket and balances it found. */
    ghost predicate Refunded(was: map<nat, Bracket>, before: Book, id: nat, r: Outcome<(), Error>)
      requires id in was && HasSlots(was[id].nodes, was[id].info.playerCount)
      reads this
    {
      var b := was[id];
      var paid := PayRefunds(before, b.info.token, b.info.entryFee, b.nodes, b.info.playerCount);
      var cleared := Bracket(b.info.(fundedCount := 0), ClearFlags(b.nodes, b.info.playerCount / 2));
      if b.info.fundedCount == 0 then
        r == Ok(()) && brackets == was && book == before
      else if !ReserveHolds(before, b.info.token, b.info.entryFee * b.info.fundedCount) then
        r == Err(InsufficientReserve) && brackets == was && book == before
      else if paid.None? then
        r == Err(Trap) && brackets == was && book == before
      else
        r == Ok(()) && brackets == was[id := cleared] && book == paid.value
    }

    static lemma ClearKeepsKeys(nodes: Nodes, m: nat)
      ensures ClearFlags(nodes, m).Keys == nodes.Keys
    {
    }

    static lemma SameTree(b: Bracket, b': Bracket)
      requires Shape(b) && b'.nodes.Keys == b.nodes.Keys
      requires b'.info.rounds == b.info.rounds && b'.info.playerCount == b.info.playerCount && b'.info.entryFee == b.info.entryFee
      ensures Shape(b')
    {
    }

    static lemma FundShape(b: Bracket, k: nat)
      requires Shape(b) && (0, k / 2) in b.nodes
      ensures Shape(Fund(b, k))
    {
    }

    static lemma NothingRefunded(book: Book, token: Address, fee: int, nodes: Nodes)
      ensures PayRefunds(book, token, fee, nodes, 0) == Some(book)
      ensures ClearFlags(nodes, 0) == nodes
    {
    }

    static lemma ClearNext(nodes: Nodes, i: nat)
      requires (0, i) in nodes
      ensures (0, i) in ClearFlags(nodes, i) && ClearFlags(nodes, i)[(0, i)] == nodes[(0, i)]
      ensures ClearFlags(nodes, i)[(0, i) := nodes[(0, i)].(funded1 := false, funded2 := false)] == ClearFlags(nodes, i + 1)
    {
    }

    /** Two steps of PayRefunds are one turn of the loop over nodes. */
    static lemma RefundsByNode(book: Book, token: Address, fee: int, nodes: Nodes, i: nat)
      requires HasSlots(nodes, 2 * i + 2) && PayRefunds(book, token, fee, nodes, 2 * i).Some?
      ensures var node := nodes[(0, i)];
        var start := PayRefunds(book, token, fee, nodes, 2 * i).value;
        var half := if node.funded1 && node.player1.Some? then Transfer(start, token, SELF, node.player1.value, fee) else Some(start);
        && PayRefunds(book, token, fee, nodes, 2 * i + 1) == half
        && PayRefunds(book, token, fee, nodes, 2 * i + 2)
           == (if half.None? then None
               else if node.funded2 && node.player2.Some? then Transfer(half.value, token, SELF, node.player2.value, fee)
               else half)
    {
      assert (2 * i) / 2 == i && (2 * i + 1) / 2 == i;
    }

    static lemma {:induction false} RefundsStayTrapped(book: Book, token: Address, fee: int, nodes: Nodes, a: nat, m: nat)
      requires a <= m && HasSlots(nodes, m) && PayRefunds(book, token, fee, nodes, a).None?
      ensures PayRefunds(book, token, fee, nodes, m).None?
      decreases m
    {
      if a < m {
        RefundsStayTrapped(book, token, fee, nodes, a, m - 1);
      }
    }

    method CancelTournament(id: nat, signers: set<Address>, now: U32) returns (r: Outcome<(), Error>)
      requires Valid()
      modifies this
      ensures Valid()
      ensures Did(Cancel(old(Snapshot()), id, signers, now), old(Snapshot()), r)
    {
      hide Shape, PayRefunds, ClearFlags, Transfer, HasSlots;
      if config.None? {
        return Err(Unauthorized);
      }
      if config.value.admin !in signers {
        return Err(Trap);
      }
      if id >= count || id !in brackets {
        return Err(TournamentNotFound);
      }
      if brackets[id].info.phase != Registration {
        return Err(TournamentInProgress);
      }
      var was := brackets[id];
      r := RefundAll(id);
      if r.Ok? {
        var b := brackets[id];
        ClearKeepsKeys(was.nodes, was.info.playerCount / 2);
        SameTree(was, b.(info := b.info.(phase := Cancelled, completedLedger := Some(now))));
        brackets := brackets[id := b.(info := b.info.(phase := Cancelled, completedLedger := Some(now)))];
      }
    }

    method ClaimTimeout(id: nat, caller: Address, signers: set<Address>, now: U32) returns (r: Outcome<(), Error>)
      requires Valid()
      modifies this
      ensures Valid()
      ensures Did(TournamentModel.ClaimTimeout(old(Snapshot()), id, caller, signers, now), old(Snapshot()), r)
    {
      hide Shape, PayRefunds, ClearFlags, Transfer, HasSlots;
      if caller !in signers {
        return Err(Trap);
      }
      if id >= count || id !in brackets {
        return Err(TournamentNotFound);
      }
      var t := brackets[id].info;
      if t.phase == Completed || t.phase == Cancelled {
        return Err(TournamentFinished);
      }
      if t.createdLedger + TIMEOUT_LEDGERS > U32_MAX {
        return Err(Trap);
      }
      if now <= t.createdLedger + TIMEOUT_LEDGERS {
        return Err(TimeoutNotReached);
      }
      var was := brackets[id];
      r := RefundAll(id);
      if r.Ok? {
        var b := brackets[id];
        ClearKeepsKeys(was.nodes, was.info.playerCount / 2);
        SameTree(was, b.(info := b.info.(phase := Cancelled, completedLedger := Some(now))));
        brackets := brackets[id := b.(info := b.info.(phase := Cancelled, completedLedger := Some(now)))];
      }
    }
  }
}
