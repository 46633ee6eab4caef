/** Ranking: one order of the board, whatever the roster's order, and pages that show each row once. */
module LeaderboardRanking {
  import opened Types
  import opened LeaderboardModel

  predicate Ranked(s: seq<Row>) {
    forall i, j :: 0 <= i < j < |s| ==> !RanksAfter(s[i], s[j])
  }

  predicate NoRepeats(s: seq<Address>) {
    forall i, j :: 0 <= i < j < |s| ==> s[i] != s[j]
  }

  /** No player has two rows. */
  predicate OneRowEach(s: seq<Row>) {
    forall i, j :: 0 <= i < j < |s| ==> s[i].player != s[j].player
  }

  lemma RankingIsTotal(a: Row, b: Row, c: Row)
    ensures !(RanksAfter(a, b) && RanksAfter(b, a))
    ensures a.player != b.player ==> RanksAfter(a, b) || RanksAfter(b, a)
    ensures !RanksAfter(a, b) && !RanksAfter(b, c) ==> !RanksAfter(a, c)
  {
  }

  lemma FirstIsBest(s: seq<Row>, x: Row)
    requires Ranked(s) && x in multiset(s)
    ensures s != [] && (x == s[0] || !RanksAfter(s[0], x))
  {
    assert x in s;
    var j :| 0 <= j < |s| && s[j] == x;
  }

  lemma SamePlayerSameRow(s: seq<Row>, a: Row, b: Row)
    requires OneRowEach(s) && a in multiset(s) && b in multiset(s) && a.player == b.player
    ensures a == b
  {
    assert a in s && b in s;
  }

  lemma Tails(s: seq<Row>)
    requires s != []
    ensures multiset(s[1..]) == multiset(s) - multiset{s[0]}
    ensures Ranked(s) ==> Ranked(s[1..])
    ensures OneRowEach(s) ==> OneRowEach(s[1..])
  {
    assert s == [s[0]] + s[1..];
  }

  /** Uniqueness: the same rows can be ranked in one way only. */
  lemma {:induction false} OneRanking(s: seq<Row>, t: seq<Row>)
    requires Ranked(s) && Ranked(t) && OneRowEach(s) && multiset(s) == multiset(t)
    ensures s == t
  {
    hide Ranked, OneRowEach, RanksAfter;
    SameLength(s, t);
    if s != [] {
      var a, b := s[0], t[0];
      assert a in multiset(s) && b in multiset(t);
      FirstIsBest(s, b);
      FirstIsBest(t, a);
      RankingIsTotal(a, b, a);
      if a != b {
        SamePlayerSameRow(s, a, b);
      }
      Tails(s);
      Tails(t);
      OneRanking(s[1..], t[1..]);
      assert s == [a] + s[1..] && t == [a] + t[1..];
    }
  }

  lemma SameLength(s: seq<Row>, t: seq<Row>)
    requires multiset(s) == multiset(t)
    ensures |s| == |t|
  {
    assert |multiset(s)| == |s| && |multiset(t)| == |t|;
  }

  function InsertRow(s: seq<Row>, r: Row): seq<Row> {
    if s == [] || !RanksAfter(s[|s| - 1], r) then s + [r]
    else InsertRow(s[..|s| - 1], r) + [s[|s| - 1]]
  }

  /** The ranking of some rows. */
  function Ranking(rows: seq<Row>): seq<Row> {
    if rows == [] then [] else InsertRow(Ranking(rows[..|rows| - 1]), rows[|rows| - 1])
  }

  lemma {:induction false} InsertMembers(s: seq<Row>, r: Row)
    ensures multiset(InsertRow(s, r)) == multiset(s) + multiset{r}
    ensures forall x :: x in InsertRow(s, r) <==> x in s || x == r
  {
    if s != [] && RanksAfter(s[|s| - 1], r) {
      InsertMembers(s[..|s| - 1], r);
      assert s == s[..|s| - 1] + [s[|s| - 1]];
    }
  }

  lemma AppendRanks(s: seq<Row>, r: Row)
    requires Ranked(s) && forall x :: x in s ==> !RanksAfter(x, r)
    ensures Ranked(s + [r])
  {
    hide RanksAfter;
  }

  lemma {:induction false} InsertRanks(s: seq<Row>, r: Row)
    requires Ranked(s)
    ensures Ranked(InsertRow(s, r)) && multiset(InsertRow(s, r)) == multiset(s) + multiset{r}
  {
    InsertMembers(s, r);
    if s != [] {
      var n := |s| - 1;
      var before, last := s[..n], s[n];
      assert forall x :: x in before ==> !RanksAfter(x, last);
      RankingIsTotal(last, r, last);
      if RanksAfter(last, r) {
        InsertRanks(before, r);
        InsertMembers(before, r);
        AppendRanks(InsertRow(before, r), last);
      } else {
        forall x | x in s ensures !RanksAfter(x, r) {
          RankingIsTotal(x, last, r);
        }
        AppendRanks(s, r);
      }
    }
  }

  lemma {:induction false} RankingRanks(rows: seq<Row>)
    ensures Ranked(Ranking(rows)) && multiset(Ranking(rows)) == multiset(rows) && |Ranking(rows)| == |rows|
  {
    if rows != [] {
      var n := |rows| - 1;
      assert rows == rows[..n] + [rows[n]];
      RankingRanks(rows[..n]);
      InsertRanks(Ranking(rows[..n]), rows[n]);
    }
    assert |multiset(Ranking(rows))| == |Ranking(rows)| && |multiset(rows)| == |rows|;
  }

  /** The board in plain terms: more wins come first, among equal wins more earnings, among equal records the
      smaller address. */
  lemma BoardOrder(rows: seq<Row>, i: nat, j: nat)
    requires OneRowEach(rows) && i < j < |Ranking(rows)|
    ensures var a, b := Ranking(rows)[i], Ranking(rows)[j];
      || a.stats.wins > b.stats.wins
      || (a.stats.wins == b.stats.wins && a.stats.earnings > b.stats.earnings)
      || (a.stats.wins == b.stats.wins && a.stats.earnings == b.stats.earnings && a.player < b.player)
  {
    hide Ranking;
    RankingRanks(rows);
    OneRowEachPermuted(rows, Ranking(rows));
  }

  // ---------------------------- the rows of a board ----------------------------

  lemma {:induction false} RowsOfRoster(roster: seq<Address>, stats: map<Address, PlayerStats>)
    requires NoRepeats(roster)
    ensures forall r :: r in Rows(roster, stats) <==> r.player in roster && r.stats == LoadStats(stats, r.player) && OnBoard(r.stats)
    ensures OneRowEach(Rows(roster, stats))
  {
    if roster != [] {
      var n := |roster| - 1;
      RowsOfRoster(roster[..n], stats);
      assert roster == roster[..n] + [roster[n]];
      assert forall i :: 0 <= i < |Rows(roster[..n], stats)| ==> Rows(roster[..n], stats)[i] in Rows(roster[..n], stats);
    }
  }

  lemma {:induction false} OnceInMultiset(s: seq<Row>, r: Row)
    requires OneRowEach(s)
    ensures multiset(s)[r] == if r in s then 1 else 0
  {
    if s != [] {
      assert s == [s[0]] + s[1..];
      OnceInMultiset(s[1..], r);
    }
  }

  lemma SameRows(s: seq<Row>, t: seq<Row>)
    requires OneRowEach(s) && OneRowEach(t) && forall r :: r in s <==> r in t
    ensures multiset(s) == multiset(t)
  {
    forall r ensures multiset(s)[r] == multiset(t)[r] {
      OnceInMultiset(s, r);
      OnceInMultiset(t, r);
    }
  }

  lemma OneRowEachPermuted(s: seq<Row>, t: seq<Row>)
    requires OneRowEach(s) && multiset(s) == multiset(t)
    ensures OneRowEach(t)
  {
    forall i, j | 0 <= i < j < |t| ensures t[i].player != t[j].player {
      if t[i].player == t[j].player {
        assert t[i] in multiset(s) && t[j] in multiset(s);
        var a :| 0 <= a < |s| && s[a] == t[i];
        var b :| 0 <= b < |s| && s[b] == t[j];
        assert a == b;
        OnceInMultiset(s, t[i]);
        TwiceInMultiset(t, i, j);
      }
    }
  }

  lemma TwiceInMultiset(t: seq<Row>, i: nat, j: nat)
    requires i < j < |t| && t[i] == t[j]
    ensures multiset(t)[t[i]] >= 2
  {
    assert t == t[..j] + [t[j]] + t[j + 1..];
    assert t[i] in t[..j];
    assert multiset(t[..j])[t[i]] >= 1;
  }

  /** The order in which players entered the roster does not show. */
  lemma RosterOrderDoesNotShow(a: seq<Address>, b: seq<Address>, stats: map<Address, PlayerStats>)
    requires NoRepeats(a) && NoRepeats(b) && forall p :: p in a <==> p in b
    ensures Ranking(Rows(a, stats)) == Ranking(Rows(b, stats))
  {
    hide Rows, Ranking, Ranked, OneRowEach;
    var s, t := Rows(a, stats), Rows(b, stats);
    RowsOfRoster(a, stats);
    RowsOfRoster(b, stats);
    SameRows(s, t);
    RankingRanks(s);
    RankingRanks(t);
    OneRowEachPermuted(s, Ranking(s));
    OneRanking(Ranking(s), Ranking(t));
  }

  // ---------------------------- paging ----------------------------

  /** The pages a caller collects with steps of `limit`, up to the last that starts on the board. */
  function Collected(ranked: seq<Row>, limit: nat, pages: nat): seq<Row> {
    if pages == 0 then []
    else
      var page := Page(ranked, limit, (pages - 1) * limit);
      Collected(ranked, limit, pages - 1) + (if page.Ok? then page.value else [])
  }

  /** After any number of pages with steps of at most a page size, the caller has exactly that much of the
      ranking, in order. */
  lemma {:induction false} PagesAdvance(ranked: seq<Row>, limit: nat, pages: nat)
    requires 0 < limit <= MAX_PAGE_SIZE && |ranked| <= U32_MAX
    ensures Collected(ranked, limit, pages) == ranked[..Min(|ranked|, pages * limit)]
  {
    if pages > 0 {
      PagesAdvance(ranked, limit, pages - 1);
      assert pages * limit == (pages - 1) * limit + limit;
    }
  }

  /** With a wider step every page but the first is cut to fifty rows, and row fifty is on none of them. */
  lemma {:induction false} WideStepSkips(ranked: seq<Row>, limit: nat, pages: nat)
    requires limit > MAX_PAGE_SIZE && MAX_PAGE_SIZE < |ranked| <= U32_MAX && OneRowEach(ranked)
    ensures ranked[MAX_PAGE_SIZE] !in Collected(ranked, limit, pages)
  {
    if pages > 0 {
      WideStepSkips(ranked, limit, pages - 1);
      var offset := (pages - 1) * limit;
      StepsReach(pages - 1, limit);
      var page := Page(ranked, limit, offset);
      if page.Ok? {
        forall i | 0 <= i < |page.value| ensures page.value[i] != ranked[MAX_PAGE_SIZE] {
          assert page.value[i] == ranked[offset + i];
          assert offset + i != MAX_PAGE_SIZE;
        }
      }
    }
  }

  lemma StepsReach(k: nat, limit: nat)
    ensures k == 0 ==> k * limit == 0
    ensures k > 0 ==> k * limit >= limit
  {
    if k > 0 {
      assert k * limit == (k - 1) * limit + limit;
    }
  }

  /** Stepping by the requested limit shows the whole ranking, each row once and in order, exactly when the
      limit is within the page size or the whole board fits on one page. */
  lemma PagingIsCompleteIff(ranked: seq<Row>, limit: nat, pages: nat)
    requires limit > 0 && |ranked| <= U32_MAX && OneRowEach(ranked)
    requires pages > 0 && pages * limit >= |ranked|
    ensures Collected(ranked, limit, pages) == ranked <==> limit <= MAX_PAGE_SIZE || |ranked| <= MAX_PAGE_SIZE
  {
    if limit <= MAX_PAGE_SIZE {
      PagesAdvance(ranked, limit, pages);
    } else if |ranked| <= MAX_PAGE_SIZE {
      FitsOnePage(ranked, limit, pages);
    } else {
      WideStepSkips(ranked, limit, pages);
    }
  }

  lemma {:induction false} FitsOnePage(ranked: seq<Row>, limit: nat, pages: nat)
    requires limit > MAX_PAGE_SIZE >= |ranked| && pages > 0
    ensures Collected(ranked, limit, pages) == ranked
  {
    if pages > 1 {
      FitsOnePage(ranked, limit, pages - 1);
      StepsReach(pages - 1, limit);
    } else {
      assert Collected(ranked, limit, 0) == [];
    }
  }
}
