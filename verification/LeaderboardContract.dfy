/** The leaderboard contract object. */
module LeaderboardContract {
  import opened Types
  import opened LeaderboardModel
  import opened LeaderboardRanking

  class Leaderboard {
    var admin: Option<Address>
    var paused: bool
    var sources: set<Address>
    var stats: map<Address, PlayerStats>
    var roster: seq<Address>
    var resultCount: nat

    ghost function Snapshot(): Board
      reads this
    {
      Board(admin, paused, sources, stats, roster, resultCount)
    }

    /** A call committed the state of its reply, or failed and changed nothing. */
    ghost predicate Did(reply: Reply, before: Board, r: Outcome<(), Error>)
      reads this
    {
      match reply
      case Ok(after) => r.Ok? && Snapshot() == after
      case Err(e) => r == Err(e) && Snapshot() == before
    }

    constructor ()
      ensures Snapshot() == FRESH
    {
      admin, paused, sources, stats, roster, resultCount := None, false, {}, map[], [], 0;
    }

    method Initialize(newAdmin: Address, source: Address, signers: set<Address>) returns (r: Outcome<(), Error>)
      modifies this
      ensures Did(LeaderboardModel.Initialize(old(Snapshot()), newAdmin, source, signers), old(Snapshot()), r)
    {
      if admin.Some? {
        return Err(AlreadyInitialized);
      }
      if newAdmin !in signers || source !in signers {
        return Err(Trap);
      }
      admin := Some(newAdmin);
      paused := false;
      resultCount := 0;
      sources := sources + {source};
      return Ok(());
    }

    method RequireAdmin(caller: Address, signers: set<Address>) returns (gate: Option<Error>)
      ensures gate == AdminGate(Snapshot(), caller, signers)
    {
      if admin.None? {
        return Some(NotInitialized);
      }
      if caller != admin.value {
        return Some(Unauthorized);
      }
      return if caller in signers then None else Some(Trap);
    }

    method AddSource(source: Address, caller: Address, signers: set<Address>) returns (r: Outcome<(), Error>)
      modifies this
      ensures Did(LeaderboardModel.AddSource(old(Snapshot()), source, caller, signers), old(Snapshot()), r)
    {
      var gate := RequireAdmin(caller, signers);
      if gate.Some? {
        return Err(gate.value);
      }
      if source !in signers {
        return Err(Trap);
      }
      sources := sources + {source};
      return Ok(());
    }

    method RemoveSource(source: Address, caller: Address, signers: set<Address>) returns (r: Outcome<(), Error>)
      modifies this
      ensures Did(LeaderboardModel.RemoveSource(old(Snapshot()), source, caller, signers), old(Snapshot()), r)
    {
      var gate := RequireAdmin(caller, signers);
      if gate.Some? {
        return Err(gate.value);
      }
      if source !in sources {
        return Err(Unauthorized);
      }
      sources := sources - {source};
      return Ok(());
    }

    method SetPaused(pause: bool, caller: Address, signers: set<Address>) returns (r: Outcome<(), Error>)
      modifies this
      ensures Did(LeaderboardModel.SetPaused(old(Snapshot()), pause, caller, signers), old(Snapshot()), r)
    {
      var gate := RequireAdmin(caller, signers);
      if gate.Some? {
        return Err(gate.value);
      }
      paused := pause;
      return Ok(());
    }

    /** A trap half-way undoes the stats already written. */
    method RecordResult(result: MatchResult, caller: Address, signers: set<Address>) returns (r: Outcome<(), Error>)
      modifies this
      ensures Did(LeaderboardModel.RecordResult(old(Snapshot()), result, caller, signers), old(Snapshot()), r)
    {
      if caller !in sources {
        return Err(Unauthorized);
      }
      if paused {
        return Err(ContractPaused);
      }
      if result.player1 == result.player2 {
        return Err(InvalidResult);
      }
      if result.payout < 0 {
        return Err(InvalidResult);
      }
      if caller !in signers {
        return Err(Trap);
      }
      var undo := stats;
      var trapped := CreditPlayers(result);
      if trapped {
        stats := undo;
        return Err(Trap);
      }
      AddToRoster(result.player1);
      AddToRoster(result.player2);
      resultCount := if resultCount < U32_MAX then resultCount + 1 else U32_MAX;
      return Ok(());
    }

    method CreditPlayers(result: MatchResult) returns (trapped: bool)
      modifies this`stats
      ensures trapped <==> Credited(old(stats), result).None?
      ensures !trapped ==> Some(stats) == Credited(old(stats), result)
    {
      if result.outcome.Draw? {
        var p1 := AddDraw(LoadStats(stats, result.player1));
        if p1.None? {
          return true;
        }
        stats := stats[result.player1 := p1.value];
        var p2 := AddDraw(LoadStats(stats, result.player2));
        if p2.None? {
          return true;
        }
        stats := stats[result.player2 := p2.value];
      } else {
        var winner, loser := Winner(result).value, Loser(result).value;
        var w := AddWin(LoadStats(stats, winner), result.payout, result.token);
        if w.None? {
          return true;
        }
        stats := stats[winner := w.value];
        var l := AddLoss(LoadStats(stats, loser));
        if l.None? {
          return true;
        }
        stats := stats[loser := l.value];
      }
      return false;
    }

    method AddToRoster(player: Address)
      modifies this`roster
      ensures roster == Enlist(old(roster), player)
    {
      var i := 0;
      while i < |roster|
        invariant 0 <= i <= |roster| && roster == old(roster)
        invariant player !in roster[..i]
      {
        if roster[i] == player {
          return;
        }
        i := i + 1;
      }
      assert roster[..i] == roster;
      roster := roster + [player];
    }

    method CollectRows() returns (rows: seq<Row>)
      ensures rows == Rows(roster, stats)
    {
      hide OnBoard, LoadStats;
      rows := [];
      var idx := 0;
      while idx < |roster|
        invariant 0 <= idx <= |roster|
        invariant rows == Rows(roster[..idx], stats)
      {
        var player := roster[idx];
        assert roster[..idx + 1][..idx] == roster[..idx];
        var p := LoadStats(stats, player);
        if OnBoard(p) {
          rows := rows + [Row(player, p)];
        }
        idx := idx + 1;
      }
      assert roster[..idx] == roster;
    }

    /** The page is cut from the one ranking of the players on the board. No run repeats a roster entry. */
    method GetLeaderboard(limit: nat, offset: nat) returns (r: Outcome<seq<Row>, Error>)
      requires NoRepeats(roster)
      ensures r == Page(Ranking(Rows(roster, stats)), limit, offset)
    {
      hide Rows, Ranking, NoRepeats, OneRowEach;
      if limit == 0 {
        return Err(InvalidRange);
      }
      var cap := if limit > MAX_PAGE_SIZE then MAX_PAGE_SIZE else limit;
      var ranked := CollectRows();
      RowsOfRoster(roster, stats);
      ranked := InsertionSort(ranked);
      if offset > 0 && offset >= |ranked| {
        return Err(InvalidRange);
      }
      var end := Min(|ranked|, Min(offset + cap, U32_MAX));
      var out: seq<Row> := [];
      var i := offset;
      while i < end
        invariant offset <= i && (i <= end || i == offset)
        invariant out == if i <= end then ranked[offset..i] else []
      {
        out := out + [ranked[i]];
        i := i + 1;
      }
      return Ok(out);
    }
  }

  /** Sorted up to `n`, the row at `hole` not yet compared with those before it. */
  predicate SortedAround(s: seq<Row>, n: nat, hole: nat)
    requires n <= |s|
  {
    forall i, j :: 0 <= i < j < n && j != hole ==> !RanksAfter(s[i], s[j])
  }

  lemma SwapDown(s: seq<Row>, n: nat, j: nat)
    requires 0 < j < n <= |s| && SortedAround(s, n, j) && RanksAfter(s[j - 1], s[j])
    ensures var t := s[j := s[j - 1]][j - 1 := s[j]];
      SortedAround(t, n, j - 1) && multiset(t) == multiset(s)
  {
    RankingIsTotal(s[j - 1], s[j], s[j - 1]);
  }

  lemma Settled(s: seq<Row>, n: nat, j: nat)
    requires j < n <= |s| && SortedAround(s, n, j) && (j > 0 ==> !RanksAfter(s[j - 1], s[j]))
    ensures SortedAround(s, n, n)
  {
    forall i | 0 <= i < j ensures !RanksAfter(s[i], s[j]) {
      if i < j - 1 {
        RankingIsTotal(s[i], s[j - 1], s[j]);
      }
    }
  }

  /** The in-place insertion sort by neighbour swaps. */
  method InsertionSort(rows: seq<Row>) returns (ranked: seq<Row>)
    requires OneRowEach(rows)
    ensures ranked == Ranking(rows)
  {
    hide RanksAfter, Ranking, OneRowEach, SortedAround;
    ranked := rows;
    SortedStart(ranked);
    var i := 1;
    while i < |rows|
      invariant 1 <= i && (i <= |rows| || rows == [])
      invariant |ranked| == |rows| && multiset(ranked) == multiset(rows)
      invariant i <= |ranked| ==> SortedAround(ranked, i, i)
    {
      var j := i;
      OneMore(ranked, i);
      while j > 0 && RanksAfter(ranked[j - 1], ranked[j])
        invariant 0 <= j <= i < |ranked| == |rows|
        invariant multiset(ranked) == multiset(rows)
        invariant SortedAround(ranked, i + 1, j)
      {
        SwapDown(ranked, i + 1, j);
        var prev, cur := ranked[j - 1], ranked[j];
        ranked := ranked[j := prev][j - 1 := cur];
        j := j - 1;
      }
      Settled(ranked, i + 1, j);
      i := i + 1;
    }
    if |ranked| == 0 {
      SortedNothing(ranked);
    }
    SortedIsRanked(ranked);
    RankingRanks(rows);
    OneRowEachPermuted(rows, ranked);
    OneRanking(ranked, Ranking(rows));
  }

  lemma SortedStart(s: seq<Row>)
    ensures |s| > 0 ==> SortedAround(s, 1, 1)
  {
  }

  lemma SortedNothing(s: seq<Row>)
    requires |s| == 0
    ensures SortedAround(s, 0, 0)
  {
  }

  lemma OneMore(s: seq<Row>, n: nat)
    requires n < |s| && SortedAround(s, n, n)
    ensures SortedAround(s, n + 1, n)
  {
  }

  lemma SortedIsRanked(s: seq<Row>)
    ensures SortedAround(s, |s|, |s|) ==> Ranked(s)
  {
  }
}
