/** Double entry: what the stored counters say about the results that were accepted, in every run. */
module LeaderboardAccounts {
  import opened Types
  import opened LeaderboardModel
  import opened LeaderboardRanking

  datatype Column = Wins | Losses | Draws | Earnings

  function Entry(k: Column, p: PlayerStats): int {
    match k
    case Wins => p.wins
    case Losses => p.losses
    case Draws => p.draws
    case Earnings => p.earnings
  }

  /** What one result is worth to one player. */
  function Credit(k: Column, r: MatchResult, p: Address): int {
    match k
    case Wins => if Winner(r) == Some(p) then 1 else 0
    case Losses => if Loser(r) == Some(p) then 1 else 0
    case Draws => if r.outcome.Draw? && (p == r.player1 || p == r.player2) then 1 else 0
    case Earnings => if Winner(r) == Some(p) then r.payout else 0
  }

  function Earned(k: Column, a: seq<MatchResult>, p: Address): int {
    if a == [] then 0 else Earned(k, a[..|a| - 1], p) + Credit(k, a[|a| - 1], p)
  }

  function Decisive(a: seq<MatchResult>): nat {
    if a == [] then 0 else Decisive(a[..|a| - 1]) + (if a[|a| - 1].outcome.Draw? then 0 else 1)
  }

  function PaidOut(a: seq<MatchResult>): int {
    if a == [] then 0 else PaidOut(a[..|a| - 1]) + (if a[|a| - 1].outcome.Draw? then 0 else a[|a| - 1].payout)
  }

  predicate Played(a: seq<MatchResult>, p: Address) {
    exists r :: r in a && (p == r.player1 || p == r.player2)
  }

  // ---------------------------- one call ----------------------------

  /** An accepted result moves every counter of every player by exactly its credit. */
  lemma RecordCredits(s: Board, r: MatchResult, caller: Address, signers: set<Address>, k: Column, p: Address)
    requires RecordResult(s, r, caller, signers).Ok?
    ensures Entry(k, LoadStats(RecordResult(s, r, caller, signers).value.stats, p)) == Entry(k, LoadStats(s.stats, p)) + Credit(k, r, p)
  {
  }

  lemma EnlistKeeps(roster: seq<Address>, p: Address)
    requires NoRepeats(roster)
    ensures NoRepeats(Enlist(roster, p))
    ensures forall x :: x in Enlist(roster, p) <==> x in roster || x == p
  {
  }

  // ---------------------------- every run ----------------------------

  /** The books after a run: each counter is what the accepted results add up to. */
  ghost predicate Balanced(s: Board, a: seq<MatchResult>) {
    && (forall k, p {:trigger Earned(k, a, p)} :: Entry(k, LoadStats(s.stats, p)) == Earned(k, a, p))
    && NoRepeats(s.roster)
    && (forall p :: p in s.roster <==> Played(a, p))
    && s.resultCount == Min(|a|, U32_MAX)
    && (s.admin.None? ==> s.sources == {} && a == [])
    && (forall r :: r in a ==> r.player1 != r.player2 && r.payout >= 0)
  }

  lemma StepBalances(s: Board, a: seq<MatchResult>, tx: Tx)
    requires Balanced(s, a)
    ensures Balanced(Next(s, tx), a + (if tx.call.CallRecord? && Apply(s, tx).Ok? then [tx.call.result] else []))
  {
    if tx.call.CallRecord? && Apply(s, tx).Ok? {
      RecordBalances(s, a, tx.call.result, tx.call.caller, tx.signers);
    } else {
      assert a + [] == a;
      OthersBalance(s, a, tx);
    }
  }

  lemma OthersBalance(s: Board, a: seq<MatchResult>, tx: Tx)
    requires Balanced(s, a) && (tx.call.CallRecord? ==> Apply(s, tx).Err?)
    ensures Balanced(Next(s, tx), a)
  {
    hide Earned, Entry, LoadStats, Played, NoRepeats, RecordResult;
    var t := Next(s, tx);
    assert t.stats == s.stats && t.roster == s.roster;
  }

  lemma EarnedStep(k: Column, a: seq<MatchResult>, r: MatchResult, p: Address)
    ensures Earned(k, a + [r], p) == Earned(k, a, p) + Credit(k, r, p)
  {
    assert (a + [r])[..|a|] == a;
  }

  lemma PlayedStep(a: seq<MatchResult>, r: MatchResult, p: Address)
    ensures Played(a + [r], p) <==> Played(a, p) || p == r.player1 || p == r.player2
  {
    assert r in a + [r];
    assert forall x :: x in a + [r] <==> x in a || x == r;
  }

  lemma RecordBalances(s: Board, a: seq<MatchResult>, r: MatchResult, caller: Address, signers: set<Address>)
    requires Balanced(s, a) && RecordResult(s, r, caller, signers).Ok?
    ensures Balanced(RecordResult(s, r, caller, signers).value, a + [r])
  {
    var t := RecordResult(s, r, caller, signers).value;
    RecordFacts(s, r, caller, signers);
    hide RecordResult, Earned, Entry, LoadStats, Credit, Played, NoRepeats, Enlist;
    var b := a + [r];
    forall k, p {:trigger Earned(k, b, p)} ensures Entry(k, LoadStats(t.stats, p)) == Earned(k, b, p) {
      assert Entry(k, LoadStats(s.stats, p)) == Earned(k, a, p);
      RecordCredits(s, r, caller, signers, k, p);
      EarnedStep(k, a, r, p);
    }
    EnlistKeeps(s.roster, r.player1);
    EnlistKeeps(Enlist(s.roster, r.player1), r.player2);
    forall p ensures p in t.roster <==> Played(b, p) {
      PlayedStep(a, r, p);
    }
  }

  lemma RecordFacts(s: Board, r: MatchResult, caller: Address, signers: set<Address>)
    requires RecordResult(s, r, caller, signers).Ok?
    ensures var t := RecordResult(s, r, caller, signers).value;
      && t.roster == Enlist(Enlist(s.roster, r.player1), r.player2)
      && t.resultCount == Min(s.resultCount + 1, U32_MAX)
      && t.admin == s.admin && t.sources == s.sources && caller in s.sources
      && r.player1 != r.player2 && r.payout >= 0
  {
    hide Credited, Enlist;
  }

  /** In every run the books balance. */
  lemma {:induction false} RunBalances(txs: seq<Tx>)
    ensures Balanced(Run(txs), Accepted(txs))
  {
    if txs == [] {
      assert forall k, p {:trigger Earned(k, [], p)} :: Entry(k, LoadStats(FRESH.stats, p)) == Earned(k, [], p);
    } else {
      hide Balanced, Next, Apply;
      RunBalances(txs[..|txs| - 1]);
      StepBalances(Run(txs[..|txs| - 1]), Accepted(txs[..|txs| - 1]), txs[|txs| - 1]);
    }
  }

  // ---------------------------- totals over the roster ----------------------------

  function Sum(ps: seq<Address>, k: Column, stats: map<Address, PlayerStats>): int {
    if ps == [] then 0 else Sum(ps[..|ps| - 1], k, stats) + Entry(k, LoadStats(stats, ps[|ps| - 1]))
  }

  function SumEarned(ps: seq<Address>, k: Column, a: seq<MatchResult>): int {
    if ps == [] then 0 else SumEarned(ps[..|ps| - 1], k, a) + Earned(k, a, ps[|ps| - 1])
  }

  function SumCredit(ps: seq<Address>, k: Column, r: MatchResult): int {
    if ps == [] then 0 else SumCredit(ps[..|ps| - 1], k, r) + Credit(k, r, ps[|ps| - 1])
  }

  /** What one result is worth to both players together. */
  function Pot(k: Column, r: MatchResult): int {
    match k
    case Wins => if r.outcome.Draw? then 0 else 1
    case Losses => if r.outcome.Draw? then 0 else 1
    case Draws => if r.outcome.Draw? then 2 else 0
    case Earnings => if r.outcome.Draw? then 0 else r.payout
  }

  lemma {:induction false} CreditsMakeThePot(ps: seq<Address>, k: Column, r: MatchResult)
    requires NoRepeats(ps) && r.player1 != r.player2
    ensures SumCredit(ps, k, r) == (if r.player1 in ps then Credit(k, r, r.player1) else 0) + (if r.player2 in ps then Credit(k, r, r.player2) else 0)
  {
    if ps != [] {
      var n := |ps| - 1;
      assert ps == ps[..n] + [ps[n]];
      CreditsMakeThePot(ps[..n], k, r);
    }
  }

  lemma {:induction false} SumEarnedStep(ps: seq<Address>, k: Column, a: seq<MatchResult>)
    requires a != []
    ensures SumEarned(ps, k, a) == SumEarned(ps, k, a[..|a| - 1]) + SumCredit(ps, k, a[|a| - 1])
  {
    if ps != [] {
      SumEarnedStep(ps[..|ps| - 1], k, a);
    }
  }

  lemma {:induction false} NothingEarned(ps: seq<Address>, k: Column)
    ensures SumEarned(ps, k, []) == 0
  {
    if ps != [] {
      NothingEarned(ps[..|ps| - 1], k);
    }
  }

  function Books(k: Column, a: seq<MatchResult>): int {
    match k
    case Wins => Decisive(a)
    case Losses => Decisive(a)
    case Draws => 2 * (|a| - Decisive(a))
    case Earnings => PaidOut(a)
  }

  lemma {:induction false} EarnedMakesTheBooks(ps: seq<Address>, k: Column, a: seq<MatchResult>)
    requires NoRepeats(ps) && forall r :: r in a ==> r.player1 in ps && r.player2 in ps && r.player1 != r.player2
    ensures SumEarned(ps, k, a) == Books(k, a)
  {
    if a == [] {
      NothingEarned(ps, k);
    } else {
      var n := |a| - 1;
      assert a == a[..n] + [a[n]];
      EarnedMakesTheBooks(ps, k, a[..n]);
      SumEarnedStep(ps, k, a);
      CreditsMakeThePot(ps, k, a[n]);
    }
  }

  lemma {:induction false} SumIsEarned(ps: seq<Address>, k: Column, s: Board, a: seq<MatchResult>)
    requires Balanced(s, a)
    ensures Sum(ps, k, s.stats) == SumEarned(ps, k, a)
  {
    hide NoRepeats, Played;
    if ps != [] {
      SumIsEarned(ps[..|ps| - 1], k, s, a);
      assert Entry(k, LoadStats(s.stats, ps[|ps| - 1])) == Earned(k, a, ps[|ps| - 1]);
    }
  }

  /** Double entry, in every run: over the roster, wins and losses both count the decisive results, draws
      count each drawn result twice, and earnings are the payouts of the decisive results. */
  lemma DoubleEntry(txs: seq<Tx>)
    ensures var s, a := Run(txs), Accepted(txs);
      && Sum(s.roster, Wins, s.stats) == Sum(s.roster, Losses, s.stats) == Decisive(a)
      && Sum(s.roster, Draws, s.stats) == 2 * (|a| - Decisive(a))
      && Sum(s.roster, Earnings, s.stats) == PaidOut(a)
      && s.resultCount == Min(|a|, U32_MAX)
  {
    hide Run, Accepted, Sum, SumEarned, Decisive, PaidOut;
    var s, a := Run(txs), Accepted(txs);
    RunBalances(txs);
    forall r | r in a ensures r.player1 in s.roster && r.player2 in s.roster && r.player1 != r.player2 {
      assert Played(a, r.player1) && Played(a, r.player2);
    }
    forall k: Column ensures Sum(s.roster, k, s.stats) == Books(k, a) {
      SumIsEarned(s.roster, k, s, a);
      EarnedMakesTheBooks(s.roster, k, a);
    }
    assert Sum(s.roster, Wins, s.stats) == Books(Wins, a) && Sum(s.roster, Losses, s.stats) == Books(Losses, a);
    assert Sum(s.roster, Draws, s.stats) == Books(Draws, a) && Sum(s.roster, Earnings, s.stats) == Books(Earnings, a);
  }

  lemma {:induction false} PlayedCounts(a: seq<MatchResult>, p: Address)
    requires forall r :: r in a ==> r.player1 != r.player2
    ensures Earned(Wins, a, p) >= 0 && Earned(Losses, a, p) >= 0 && Earned(Draws, a, p) >= 0
    ensures Earned(Wins, a, p) + Earned(Losses, a, p) + Earned(Draws, a, p) > 0 <==> Played(a, p)
  {
    if a != [] {
      var n := |a| - 1;
      assert a == a[..n] + [a[n]];
      PlayedCounts(a[..n], p);
      PlayedStep(a[..n], a[n], p);
    }
  }

  /** In every run the roster holds, once each, exactly the players with a non-zero record. */
  lemma RosterIsThePlayers(txs: seq<Tx>)
    ensures var s := Run(txs);
      && NoRepeats(s.roster)
      && forall p: Address :: p in s.roster <==> LoadStats(s.stats, p).wins + LoadStats(s.stats, p).losses + LoadStats(s.stats, p).draws > 0
  {
    hide Run, Accepted, Played, NoRepeats;
    var s, a := Run(txs), Accepted(txs);
    RunBalances(txs);
    forall p: Address
      ensures p in s.roster <==> LoadStats(s.stats, p).wins + LoadStats(s.stats, p).losses + LoadStats(s.stats, p).draws > 0
    {
      PlayedCounts(a, p);
      assert Entry(Wins, LoadStats(s.stats, p)) == Earned(Wins, a, p);
      assert Entry(Losses, LoadStats(s.stats, p)) == Earned(Losses, a, p);
      assert Entry(Draws, LoadStats(s.stats, p)) == Earned(Draws, a, p);
    }
  }

  /** In every run the board lists, in rank order and once each, exactly the players whose match count is
      positive and fits 32 bits; and collecting its pages shows all of it exactly when the step is within the
      page size or the board fits one page. */
  lemma BoardOfARun(txs: seq<Tx>, limit: nat, pages: nat)
    requires |Run(txs).roster| <= U32_MAX && limit > 0 && pages > 0 && pages * limit >= |Run(txs).roster|
    ensures var s := Run(txs); var board := Ranking(Rows(s.roster, s.stats));
      && Ranked(board) && OneRowEach(board)
      && (forall p: Address {:trigger LoadStats(s.stats, p)} :: Row(p, LoadStats(s.stats, p)) in board
            <==> 1 <= LoadStats(s.stats, p).wins + LoadStats(s.stats, p).losses + LoadStats(s.stats, p).draws <= 0xffff_ffff)
      && (Collected(board, limit, pages) == board <==> limit <= MAX_PAGE_SIZE || |board| <= MAX_PAGE_SIZE)
  {
    hide Run, Rows, Ranking, Ranked, OneRowEach, Collected, NoRepeats;
    var s := Run(txs);
    var rows := Rows(s.roster, s.stats);
    var board := Ranking(rows);
    RosterIsThePlayers(txs);
    RowsOfRoster(s.roster, s.stats);
    RowsAreFewer(s.roster, s.stats);
    RankingRanks(rows);
    OneRowEachPermuted(rows, board);
    forall p: Address ensures Row(p, LoadStats(s.stats, p)) in board <==> OnBoard(LoadStats(s.stats, p)) {
      var r := Row(p, LoadStats(s.stats, p));
      assert r in board <==> r in multiset(rows);
    }
    PagingIsCompleteIff(board, limit, pages);
  }

  lemma {:induction false} RowsAreFewer(roster: seq<Address>, stats: map<Address, PlayerStats>)
    ensures |Rows(roster, stats)| <= |roster|
  {
    if roster != [] {
      RowsAreFewer(roster[..|roster| - 1], stats);
    }
  }

  // ---------------------------- the token of a record ----------------------------

  /** The token of the last decisive result that `p` won. */
  function LastToken(a: seq<MatchResult>, p: Address): Option<Address> {
    if a == [] then None
    else if Winner(a[|a| - 1]) == Some(p) then Some(a[|a| - 1].token)
    else LastToken(a[..|a| - 1], p)
  }

  lemma RecordToken(s: Board, r: MatchResult, caller: Address, signers: set<Address>, p: Address)
    requires RecordResult(s, r, caller, signers).Ok?
    ensures LoadStats(RecordResult(s, r, caller, signers).value.stats, p).token
         == if Winner(r) == Some(p) then Some(r.token) else LoadStats(s.stats, p).token
  {
  }

  /** In every run a record is denominated in the token of the last decisive result that its player won. */
  lemma {:induction false} TokensAreLastWon(txs: seq<Tx>, p: Address)
    ensures LoadStats(Run(txs).stats, p).token == LastToken(Accepted(txs), p)
  {
    if txs != [] {
      hide RecordResult, Credited;
      var before, tx := txs[..|txs| - 1], txs[|txs| - 1];
      TokensAreLastWon(before, p);
      var s, a := Run(before), Accepted(before);
      assert a + [] == a;
      if tx.call.CallRecord? {
        if Apply(s, tx).Ok? {
          RecordToken(s, tx.call.result, tx.call.caller, tx.signers, p);
          assert (a + [tx.call.result])[..|a|] == a;
        }
      }
    }
  }

  // ---------------------------- who may record, and what is refused ----------------------------

  /** No counter that the result would raise is at its limit. */
  predicate NoOverflow(a: seq<MatchResult>, r: MatchResult) {
    match r.outcome
    case Draw => Earned(Draws, a, r.player1) < 0xffff_ffff && Earned(Draws, a, r.player2) < 0xffff_ffff
    case Player1Won => CanWin(a, r.player1, r.payout) && Earned(Losses, a, r.player2) < 0xffff_ffff
    case Player2Won => CanWin(a, r.player2, r.payout) && Earned(Losses, a, r.player1) < 0xffff_ffff
  }

  predicate CanWin(a: seq<MatchResult>, p: Address, payout: int) {
    Earned(Wins, a, p) < 0xffff_ffff && Earned(Earnings, a, p) + payout <= I128_MAX
  }

  lemma CreditedIff(s: Board, a: seq<MatchResult>, r: MatchResult)
    requires Balanced(s, a) && r.player1 != r.player2
    ensures Credited(s.stats, r).Some? <==> NoOverflow(a, r)
  {
    hide Earned, NoRepeats, Played;
    forall k: Column, p: Address ensures Entry(k, LoadStats(s.stats, p)) == Earned(k, a, p) {
    }
    assert Entry(Wins, LoadStats(s.stats, r.player1)) == Earned(Wins, a, r.player1);
    assert Entry(Wins, LoadStats(s.stats, r.player2)) == Earned(Wins, a, r.player2);
    assert Entry(Losses, LoadStats(s.stats, r.player1)) == Earned(Losses, a, r.player1);
    assert Entry(Losses, LoadStats(s.stats, r.player2)) == Earned(Losses, a, r.player2);
    assert Entry(Draws, LoadStats(s.stats, r.player1)) == Earned(Draws, a, r.player1);
    assert Entry(Draws, LoadStats(s.stats, r.player2)) == Earned(Draws, a, r.player2);
    assert Entry(Earnings, LoadStats(s.stats, r.player1)) == Earned(Earnings, a, r.player1);
    assert Entry(Earnings, LoadStats(s.stats, r.player2)) == Earned(Earnings, a, r.player2);
  }

  /** In every run a result is accepted exactly from a signing source while not paused, for two different
      players and a payout of at least zero, if what was accepted before leaves room in every counter. */
  lemma RecordAcceptedIff(txs: seq<Tx>, r: MatchResult, caller: Address, signers: set<Address>)
    ensures RecordResult(Run(txs), r, caller, signers).Ok?
       <==> && caller in Run(txs).sources && caller in signers && !Run(txs).paused
            && r.player1 != r.player2 && r.payout >= 0 && NoOverflow(Accepted(txs), r)
  {
    hide Run, Accepted, Credited, NoOverflow, Balanced;
    RunBalances(txs);
    if r.player1 != r.player2 {
      CreditedIff(Run(txs), Accepted(txs), r);
    }
  }

  /** Who governs after a run: the admin of the one initialisation, the pause last set, and the sources added and
      not removed since. */
  ghost predicate GovernedBy(txs: seq<Tx>, s: Board)
    decreases |txs|
  {
    if txs == [] then s.admin.None? && !s.paused && s.sources == {}
    else
      var tx := txs[|txs| - 1];
      var was := Run(txs[..|txs| - 1]);
      && GovernedBy(txs[..|txs| - 1], was)
      && match tx.call
         case CallInitialize(admin, source) =>
           if was.admin.None? && admin in tx.signers && source in tx.signers
           then s.admin == Some(admin) && !s.paused && s.sources == {source}
           else SameGovernment(was, s)
         case CallAddSource(source, caller) =>
           if SignedByAdmin(was, caller, tx.signers) && source in tx.signers
           then s.admin == was.admin && s.paused == was.paused && s.sources == was.sources + {source}
           else SameGovernment(was, s)
         case CallRemoveSource(source, caller) =>
           if SignedByAdmin(was, caller, tx.signers) && source in was.sources
           then s.admin == was.admin && s.paused == was.paused && s.sources == was.sources - {source}
           else SameGovernment(was, s)
         case CallSetPaused(paused, caller) =>
           if SignedByAdmin(was, caller, tx.signers)
           then s.admin == was.admin && s.paused == paused && s.sources == was.sources
           else SameGovernment(was, s)
         case CallRecord(_, _) => SameGovernment(was, s)
  }

  predicate SignedByAdmin(s: Board, caller: Address, signers: set<Address>) {
    s.admin == Some(caller) && caller in signers
  }

  predicate SameGovernment(was: Board, s: Board) {
    s.admin == was.admin && s.paused == was.paused && s.sources == was.sources
  }

  lemma {:induction false} RunIsGoverned(txs: seq<Tx>)
    ensures GovernedBy(txs, Run(txs))
    ensures Run(txs).admin.None? ==> Run(txs).sources == {} && !Run(txs).paused
  {
    if txs != [] {
      hide Credited, Enlist;
      RunIsGoverned(txs[..|txs| - 1]);
    }
  }

  /** A page is refused exactly for a zero limit or an offset, other than zero, at or behind the end. */
  lemma PageRefusedIff(ranked: seq<Row>, limit: nat, offset: nat)
    ensures Page(ranked, limit, offset) == Err(InvalidRange) || Page(ranked, limit, offset).Ok?
    ensures Page(ranked, limit, offset).Err? <==> limit == 0 || (offset != 0 && offset >= |ranked|)
    ensures Page(ranked, limit, offset).Ok? && |ranked| <= U32_MAX ==>
      Page(ranked, limit, offset).value == ranked[offset..Min(|ranked|, offset + Min(limit, 50))]
  {
  }

  /** Administration is accepted exactly with the admin's signature, a new source exactly with its own as well,
      and a removal exactly of a source there is. */
  lemma AdminAcceptedIff(s: Board, source: Address, caller: Address, signers: set<Address>)
    ensures Initialize(s, caller, source, signers).Ok? <==> s.admin.None? && caller in signers && source in signers
    ensures AddSource(s, source, caller, signers).Ok? <==> SignedByAdmin(s, caller, signers) && source in signers
    ensures RemoveSource(s, source, caller, signers).Ok? <==> SignedByAdmin(s, caller, signers) && source in s.sources
    ensures SetPaused(s, true, caller, signers).Ok? <==> SignedByAdmin(s, caller, signers)
    ensures SetPaused(s, false, caller, signers).Ok? <==> SignedByAdmin(s, caller, signers)
  {
  }

  /** In every run an error tells the truth about the state, the caller or the arguments. */
  lemma ErrorsAreTruthful(txs: seq<Tx>, tx: Tx)
    ensures var s := Run(txs);
      Apply(s, tx).Err? ==>
        match Apply(s, tx).error
        case AlreadyInitialized => tx.call.CallInitialize? && s.admin.Some?
        case NotInitialized => s.admin.None? && !tx.call.CallInitialize? && !tx.call.CallRecord?
        case Unauthorized =>
          (match tx.call
           case CallRecord(_, caller) => caller !in s.sources
           case CallAddSource(_, caller) => s.admin != Some(caller)
           case CallRemoveSource(source, caller) => s.admin != Some(caller) || source !in s.sources
           case CallSetPaused(_, caller) => s.admin != Some(caller)
           case CallInitialize(_, _) => false)
        case ContractPaused => tx.call.CallRecord? && s.paused
        case InvalidResult => tx.call.CallRecord? && (tx.call.result.player1 == tx.call.result.player2 || tx.call.result.payout < 0)
        case InvalidRange => false
        case Trap =>
          (match tx.call
           case CallRecord(r, caller) => caller !in tx.signers || !NoOverflow(Accepted(txs), r)
           case CallAddSource(source, caller) => caller !in tx.signers || source !in tx.signers
           case CallRemoveSource(_, caller) => caller !in tx.signers
           case CallSetPaused(_, caller) => caller !in tx.signers
           case CallInitialize(admin, source) => admin !in tx.signers || source !in tx.signers)
  {
    hide Run, Accepted, Credited, NoOverflow, Balanced;
    RunBalances(txs);
    if tx.call.CallRecord? && tx.call.result.player1 != tx.call.result.player2 {
      CreditedIff(Run(txs), Accepted(txs), tx.call.result);
    }
  }
}
