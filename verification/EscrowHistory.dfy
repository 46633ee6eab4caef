/** What a match remembers: the arguments and ledgers of the accepted calls that made it, over every run. */
module EscrowHistory {
  import opened Types
  import opened Token
  import opened EscrowModel
  import opened EscrowProofs

  // ---------------------------- the calls of a run ----------------------------

  ghost predicate Creates(s: State, tx: Tx, id: nat) {
    Accepted(s, tx) && tx.call.Create? && id == s.count
  }

  /** The accepted call that created match `id`. */
  ghost function Creation(s: State, txs: seq<Tx>, id: nat): Option<Tx> {
    if txs == [] then None
    else if Creates(Before(s, txs), txs[|txs| - 1], id) then Some(txs[|txs| - 1])
    else Creation(s, txs[..|txs| - 1], id)
  }

  /** The last accepted call on match `id`. */
  ghost function LastCall(s: State, txs: seq<Tx>, id: nat): Option<Tx> {
    if txs == [] then None
    else if Acts(Before(s, txs), txs[|txs| - 1], id) then Some(txs[|txs| - 1])
    else LastCall(s, txs[..|txs| - 1], id)
  }

  /** The last accepted deposit for match `id`. */
  ghost function LastDeposit(s: State, txs: seq<Tx>, id: nat): Option<Tx> {
    if txs == [] then None
    else if Acts(Before(s, txs), txs[|txs| - 1], id) && txs[|txs| - 1].call.Pay? then Some(txs[|txs| - 1])
    else LastDeposit(s, txs[..|txs| - 1], id)
  }

  /** Those whose deposit for match `id` was accepted. */
  ghost function Depositors(s: State, txs: seq<Tx>, id: nat): set<Address> {
    if txs == [] then {}
    else
      Depositors(s, txs[..|txs| - 1], id)
      + (if Acts(Before(s, txs), txs[|txs| - 1], id) && txs[|txs| - 1].call.Pay? then {txs[|txs| - 1].call.player} else {})
  }

  /** The accepted report of match `id`. */
  ghost function ReportOf(s: State, txs: seq<Tx>, id: nat): Option<Tx> {
    if txs == [] then None
    else if Acts(Before(s, txs), txs[|txs| - 1], id) && txs[|txs| - 1].call.Report? then Some(txs[|txs| - 1])
    else ReportOf(s, txs[..|txs| - 1], id)
  }

  // ---------------------------- what a match remembers ----------------------------

  /** The players, in the order they were named, the stake, token, game, platform and ledger of a creation. */
  ghost predicate TermsOf(m: Match, creation: Tx, defaultToken: Address) {
    && creation.call.Create?
    && m.player1 == creation.call.player1 && m.player2 == creation.call.player2
    && m.stake == creation.call.stake
    && m.token == (if creation.call.chosen.Some? then creation.call.chosen.value else defaultToken)
    && m.gameId == creation.call.gameId && m.platform == creation.call.platform
    && m.createdLedger == creation.now
    && creation.call.player1 in creation.signers
  }

  ghost predicate LedgersOf(m: Match, paid: set<Address>, deposit: Option<Tx>, report: Option<Tx>, last: Option<Tx>) {
    && paid <= {m.player1, m.player2}
    && (m.deposited1 <==> m.player1 in paid) && (m.deposited2 <==> m.player2 in paid)
    && (deposit.None? ==> paid == {})
    && m.activatedLedger == (if m.deposited1 && m.deposited2 && deposit.Some? then Some(deposit.value.now) else None)
    && m.pendingLedger == (if report.Some? then Some(report.value.now) else None)
    && (report.Some? ==> report.value.call.Report? && report.value.call.gameId == m.gameId)
    && (m.state == Completed ==> last.Some? && last.value.call.Finalize?)
    && (m.state == Cancelled ==> last.Some? && (last.value.call.Cancel? || last.value.call.Timeout?))
    && m.completedLedger == (if m.state == Completed && last.Some? then Some(last.value.now) else None)
    && m.cancelledLedger == (if m.state == Cancelled && last.Some? then Some(last.value.now) else None)
    && (m.state == Pending ==> !(m.deposited1 && m.deposited2) && report.None?)
    && (m.state == Active ==> m.deposited1 && m.deposited2 && report.None?)
    && (m.state == PendingResult ==> report.Some?)
  }

  lemma CreatesTerms(s: State, tx: Tx)
    requires StateInv(s) && HostTx(tx) && Creates(s, tx, s.count)
    ensures s.config.Some? && s.count in Next(s, tx).matches && Next(s, tx).config == s.config
    ensures TermsOf(Next(s, tx).matches[s.count], tx, s.config.value.token)
    ensures LedgersOf(Next(s, tx).matches[s.count], {}, None, None, None)
  {
    hide StateInv, ValidGameId;
  }

  lemma ActsLedgers(s: State, tx: Tx, id: nat, paid: set<Address>, deposit: Option<Tx>, report: Option<Tx>, last: Option<Tx>)
    requires StateInv(s) && HostTx(tx) && Acts(s, tx, id)
    requires id in s.matches ==> LedgersOf(s.matches[id], paid, deposit, report, last)
    ensures id in s.matches && id in Next(s, tx).matches
    ensures LedgersOf(Next(s, tx).matches[id],
                      paid + (if tx.call.Pay? then {tx.call.player} else {}),
                      if tx.call.Pay? then Some(tx) else deposit,
                      if tx.call.Report? then Some(tx) else report, Some(tx))
  {
    hide StateInv, Transfer, Bal, PayTwo, ReserveHolds;
    StoredMatch(s, id);
    ActsStored(s, tx, id);
    if tx.call.Pay? {
      hide SubmitResult, OverrideResult, FinalizeResult, ClaimTimeout, CancelMatch;
    } else {
      hide Deposit, Funded;
    }
  }

  lemma ActsStored(s: State, tx: Tx, id: nat)
    requires StateInv(s) && HostTx(tx) && Acts(s, tx, id)
    ensures id in s.matches && id in Next(s, tx).matches && SameTerms(s.matches[id], Next(s, tx).matches[id])
  {
    hide Apply, MatchOk, Balanced, StateInv;
    TargetedStep(s, tx, 0, 0);
  }

  /** Over any run, each match was created by an accepted call, and still has its players in the order they were
      named, and its stake, token, game, platform and ledger. */
  lemma {:induction false} TermsAsCreated(s: State, txs: seq<Tx>, id: nat)
    requires Genesis(s) && HostRun(txs)
    ensures var e := Run(s, txs);
      id in e.matches ==> e.config.Some? && Creation(s, txs, id).Some? && TermsOf(e.matches[id], Creation(s, txs, id).value, e.config.value.token)
  {
    hide Apply, MatchOk, StateInv, Accepted, Next, TermsOf;
    RunInv(s, txs);
    StoredMatch(Run(s, txs), id);
    if txs != [] {
      var b, tx := Before(s, txs), txs[|txs| - 1];
      TermsAsCreated(s, txs[..|txs| - 1], id);
      RunInv(s, txs[..|txs| - 1]);
      StoredBelow(b, id);
      StoredBelow(Run(s, txs), id);
      SeenFrom(b, tx, id);
      if Acts(b, tx, id) {
        ActsStored(b, tx, id);
        NotBoth(b, tx, id);
        TermsKept(b.matches[id], Run(s, txs).matches[id]);
      } else if Creates(b, tx, id) {
        CreatesTerms(b, tx);
      }
    }
  }

  lemma StoredBelow(s: State, id: nat)
    requires StateInv(s)
    ensures id in s.matches <==> id < s.count
  {
  }

  lemma NotBoth(s: State, tx: Tx, id: nat)
    requires Acts(s, tx, id)
    ensures !Creates(s, tx, id)
  {
  }

  lemma TermsKept(m: Match, m': Match)
    requires SameTerms(m, m')
    ensures forall tx, tok :: TermsOf(m, tx, tok) ==> TermsOf(m', tx, tok)
  {
  }

  /** Over any run, a match holds the ledgers of the calls that moved it: activated by the second of the two
      players' deposits, in dispute since the one report, which named its game, completed by a finalize and
      cancelled by a cancellation or a timeout claim. */
  lemma {:induction false} LedgersAsCalled(s: State, txs: seq<Tx>, id: nat)
    requires Genesis(s) && HostRun(txs)
    ensures var e := Run(s, txs);
      if id in e.matches
      then LedgersOf(e.matches[id], Depositors(s, txs, id), LastDeposit(s, txs, id), ReportOf(s, txs, id), LastCall(s, txs, id))
      else Depositors(s, txs, id) == {} && LastDeposit(s, txs, id).None? && ReportOf(s, txs, id).None? && LastCall(s, txs, id).None?
  {
    hide Apply, MatchOk, StateInv, Accepted, Next, LedgersOf;
    if txs != [] {
      var before := txs[..|txs| - 1];
      var b, tx := Before(s, txs), txs[|txs| - 1];
      LedgersAsCalled(s, before, id);
      RunInv(s, before);
      RunInv(s, txs);
      StoredBelow(b, id);
      StoredBelow(Run(s, txs), id);
      SeenFrom(b, tx, id);
      if Acts(b, tx, id) {
        ActsLedgers(b, tx, id, Depositors(s, before, id), LastDeposit(s, before, id), ReportOf(s, before, id), LastCall(s, before, id));
      } else if Creates(b, tx, id) {
        CreatesTerms(b, tx);
        assert Depositors(s, txs, id) == {};
      } else {
        assert Depositors(s, txs, id) == Depositors(s, before, id);
      }
    }
  }

  // ---------------------------- the settlement in the caller's terms ----------------------------

  /** A completed match paid the player whom the last accepted report or override named, by the position that
      the creation gave them, exactly the stake of the creation from the other; a draw or a cancellation left
      everybody even. */
  lemma SettledAsAgreed(s: State, txs: seq<Tx>, id: nat, who: Address)
    requires Genesis(s) && HostRun(txs) && who != SELF && id in Run(s, txs).matches
    ensures Run(s, txs).config.Some? && Creation(s, txs, id).Some? && Creation(s, txs, id).value.call.Create?
    ensures var m, call := Run(s, txs).matches[id], Creation(s, txs, id).value.call;
      var tok := if call.chosen.Some? then call.chosen.value else Run(s, txs).config.value.token;
      var net := Flow(s, txs, id, tok, who);
      && (m.state == Cancelled ==> net == 0)
      && (m.state == Completed ==>
            && Finalizations(s, txs, id) == 1 && LastNamed(s, txs, id).Some?
            && (LastNamed(s, txs, id) == Some(Draw) ==> net == 0)
            && (LastNamed(s, txs, id) == Some(Player1) ==>
                  net == if who == call.player1 then call.stake else if who == call.player2 then -call.stake else 0)
            && (LastNamed(s, txs, id) == Some(Player2) ==>
                  net == if who == call.player2 then call.stake else if who == call.player1 then -call.stake else 0))
  {
    hide Run, Flow, LastNamed, Finalizations, Creation;
    TermsAsCreated(s, txs, id);
    FinalSettlement(s, txs, id, who);
  }

  // ---------------------------- the configuration ----------------------------

  /** The configuration, the pause and the allowlist as the accepted calls set them. */
  datatype Setup = Setup(init: Option<Tx>, oracle: Option<Tx>, admin: Option<Tx>, pause: Option<Tx>)

  ghost function SetupOf(s: State, txs: seq<Tx>): Setup {
    if txs == [] then Setup(None, None, None, None)
    else
      var before := SetupOf(s, txs[..|txs| - 1]);
      var tx := txs[|txs| - 1];
      if !Accepted(Before(s, txs), tx) then before
      else match tx.call
           case Init(_, _, _, _, _, _, _) => before.(init := Some(tx))
           case NewOracle(_) => before.(oracle := Some(tx))
           case NewAdmin(_, _) => before.(admin := Some(tx))
           case Pause(_) => before.(pause := Some(tx))
           case _ => before
  }

  ghost predicate ConfiguredAs(e: State, start: State, u: Setup) {
    && (e.config.Some? <==> u.init.Some?)
    && (u.init.None? ==> u.oracle.None? && u.admin.None? && u.pause.None?)
    && (u.init.Some? ==> u.init.value.call.Init?)
    && (u.oracle.Some? ==> u.oracle.value.call.NewOracle?)
    && (u.admin.Some? ==> u.admin.value.call.NewAdmin?)
    && (u.pause.Some? ==> u.pause.value.call.Pause?)
    && (e.config.Some? && u.init.Some? && u.init.value.call.Init? ==>
         var c, i := e.config.value, u.init.value.call;
         && c.token == i.token && c.safeAddress == i.safe
         && c.window == (if i.window.Some? then i.window.value else 17_280)
         && c.timeout == (if i.timeout.Some? then i.timeout.value else 120_960)
         && c.oracle == (if u.oracle.Some? && u.oracle.value.call.NewOracle? then u.oracle.value.call.oracle else i.oracle)
         && c.admin == (if u.admin.Some? && u.admin.value.call.NewAdmin? then u.admin.value.call.admin else i.admin)
         && e.allowed == start.allowed + {i.token}
         && (e.paused <==> u.pause.Some? && u.pause.value.call.Pause? && u.pause.value.call.paused))
    && (e.config.None? ==> e.allowed == start.allowed)
  }

  /** Over any run, oracle, admin and pause are those last set by an accepted call, the rest of the
      configuration is that of the one initialisation, with a window of 17280 and a timeout of 120960 ledgers
      when it names none. */
  lemma {:induction false} ConfigAsCalled(s: State, txs: seq<Tx>)
    requires Genesis(s) && HostRun(txs)
    ensures ConfiguredAs(Run(s, txs), s, SetupOf(s, txs))
  {
    if txs != [] {
      hide Next, ConfiguredAs, Accepted;
      ConfigAsCalled(s, txs[..|txs| - 1]);
      ConfigStep(Before(s, txs), s, txs[|txs| - 1], SetupOf(s, txs[..|txs| - 1]));
    }
  }

  lemma ConfigStep(b: State, start: State, tx: Tx, u: Setup)
    requires ConfiguredAs(b, start, u)
    ensures ConfiguredAs(Next(b, tx), start,
                         if !Accepted(b, tx) then u
                         else match tx.call
                              case Init(_, _, _, _, _, _, _) => u.(init := Some(tx))
                              case NewOracle(_) => u.(oracle := Some(tx))
                              case NewAdmin(_, _) => u.(admin := Some(tx))
                              case Pause(_) => u.(pause := Some(tx))
                              case _ => u)
  {
    hide Transfer, Bal, PayTwo, SomeActive, ValidGameId;
    if Accepted(b, tx) && !tx.call.Init? && !tx.call.NewOracle? && !tx.call.NewAdmin? && !tx.call.Pause? {
      hide ConfiguredAs, Accepted;
      OthersKeepConfig(b, tx);
      SameSetup(b, Next(b, tx), start, u);
    }
  }

  lemma SameSetup(b: State, b': State, start: State, u: Setup)
    requires ConfiguredAs(b, start, u) && b'.config == b.config && b'.paused == b.paused && b'.allowed == b.allowed
    ensures ConfiguredAs(b', start, u)
  {
  }

  lemma OthersKeepConfig(b: State, tx: Tx)
    requires Accepted(b, tx) && !tx.call.Init? && !tx.call.NewOracle? && !tx.call.NewAdmin? && !tx.call.Pause?
    ensures Next(b, tx).config == b.config && Next(b, tx).paused == b.paused && Next(b, tx).allowed == b.allowed
  {
    hide Transfer, Bal, PayTwo, SomeActive, ValidGameId, ReserveHolds, Funded;
  }
}
