/** Theorems about whole runs: conservation, each entrant's net result, the length of play, and that no pot can be locked. */
module TournamentHistory {
  import opened Types
  import opened Token
  import opened TournamentModel
  import opened TournamentBracket
  import opened TournamentTheorems
  import opened TournamentRuns

  /** The state before the last transaction of a run. */
  ghost function Before(s: State, txs: seq<Tx>): State
    requires StateInv(s) && HostRun(txs) && txs != []
  {
    Run(s, txs[..|txs| - 1])
  }

  ghost predicate Accepted(s: State, tx: Tx)
    requires WellFormed(s)
  {
    Apply(s, tx).Ok?
  }

  // ---------------------------- conservation ----------------------------

  ghost function Gifts(s: State, txs: seq<Tx>, tok: Address): int
    requires StateInv(s) && HostRun(txs)
  {
    if txs == [] then 0
    else
      var tx := txs[|txs| - 1];
      Gifts(s, txs[..|txs| - 1], tok) + (if Accepted(Before(s, txs), tx) then Gift(tx, tok) else 0)
  }

  ghost function Held(s: State, tok: Address): int
    requires StateInv(s)
  {
    if s.config.Some? && s.config.value.token == tok then Pots(s, s.count) else 0
  }

  lemma CreateHeld(s: State, tx: Tx, tok: Address)
    requires StateInv(s) && HostTx(tx) && tx.call.CreateTournament? && Accepted(s, tx)
    ensures StateInv(Next(s, tx)) && Held(Next(s, tx), tok) == Held(s, tok)
  {
    hide Inv, Left, HasPaid, NewBracket, EntrantsVerdict;
    var call := tx.call;
    CreateStep(s, call.fee, call.players, call.schedule, tx.signers, tx.now);
    NewBracketAccounts(s.config.value, call.fee, call.players, call.schedule, tx.now);
    PotsAfter(s, Next(s, tx), s.count, s.count);
  }

  /** Calls that act on no tournament leave every tournament as it was. */
  lemma UntargetedStep(s: State, tx: Tx, tok: Address)
    requires StateInv(s) && HostTx(tx) && Target(tx.call).None? && Accepted(s, tx)
    ensures var s' := Next(s, tx);
      && StateInv(s') && s'.count == (if tx.call.CreateTournament? then s.count + 1 else s.count)
      && (forall id: nat :: id < s.count ==> s'.brackets[id] == s.brackets[id])
      && Bal(s'.book, tok, SELF) == Bal(s.book, tok, SELF) + Gift(tx, tok)
      && Held(s', tok) == Held(s, tok)
      && (s.config.Some? ==> s'.config == s.config)
  {
    hide Inv;
    NextInv(s, tx);
    var s' := Next(s, tx);
    match tx.call
    case Init(_, _, _, _) =>
    case CreateTournament(fee, players, schedule) =>
      CreateStep(s, fee, players, schedule, tx.signers, tx.now);
      CreateHeld(s, tx, tok);
    case Outside(token, from, to, amount) =>
      TransferMoves(s.book, token, from, to, amount, tok, SELF);
      PotsAfter(s, s', s.count, s.count);
  }

  /** How one transaction looks to tournament `id`: either it is an accepted call on it, or it leaves
      it alone, or it is the call that created it. */
  lemma SeenFrom(s: State, tx: Tx, id: nat)
    requires StateInv(s) && HostTx(tx)
    ensures StateInv(Next(s, tx))
    ensures !Accepted(s, tx) ==> Next(s, tx) == s
    ensures Acts(s, tx, id) ==> s.config.Some? && id < s.count && Next(s, tx).config == s.config && Next(s, tx).count == s.count
    ensures !Acts(s, tx, id) && id < s.count ==>
      id < Next(s, tx).count && Next(s, tx).brackets[id] == s.brackets[id] && (s.config.Some? ==> Next(s, tx).config == s.config)
    ensures s.count <= id < Next(s, tx).count ==> Creates(s, tx) && id == s.count
    ensures s.config.Some? ==> Next(s, tx).config == s.config
  {
    hide Inv, Standing, Left, Undecided;
    NextInv(s, tx);
    if Accepted(s, tx) {
      if Target(tx.call).Some? {
        hide Apply;
        TargetedStep(s, tx, 0, 0);
      } else {
        UntargetedStep(s, tx, 0);
      }
    }
  }

  ghost predicate Acts(s: State, tx: Tx, id: nat)
    requires WellFormed(s)
  {
    Accepted(s, tx) && Target(tx.call) == Some(id)
  }

  ghost predicate Creates(s: State, tx: Tx)
    requires WellFormed(s)
  {
    Accepted(s, tx) && tx.call.CreateTournament?
  }

  lemma TargetedHeld(s: State, tx: Tx, tok: Address)
    requires StateInv(s) && HostTx(tx) && Target(tx.call).Some? && Accepted(s, tx)
    ensures var s' := Next(s, tx);
      && StateInv(s') && Gift(tx, tok) == 0
      && Bal(s'.book, tok, SELF) - Bal(s.book, tok, SELF) == Held(s', tok) - Held(s, tok)
  {
    hide Apply, Inv;
    NextInv(s, tx);
    TargetedStep(s, tx, tok, SELF);
    PotsAfter(s, Next(s, tx), Target(tx.call).value, s.count);
  }

  /** Conservation: the contract's balance in any token is what it had at the start, plus what was
      sent to it from outside, plus the fees held for tournaments that are not over. */
  lemma {:induction false} TokensAreConserved(s: State, txs: seq<Tx>, tok: Address)
    requires StateInv(s) && Genesis(s) && HostRun(txs)
    ensures Bal(Run(s, txs).book, tok, SELF) == Bal(s.book, tok, SELF) + Gifts(s, txs, tok) + Held(Run(s, txs), tok)
  {
    if txs != [] {
      var tx := txs[|txs| - 1];
      TokensAreConserved(s, txs[..|txs| - 1], tok);
      var b := Before(s, txs);
      if Accepted(b, tx) {
        if Target(tx.call).Some? {
          TargetedHeld(b, tx, tok);
        } else {
          UntargetedStep(b, tx, tok);
        }
      }
    }
  }

  // ---------------------------- net result of every entrant ----------------------------

  /** What the accepted calls on tournament `id` moved in or out of `who`'s balance. */
  ghost function Flow(s: State, txs: seq<Tx>, id: nat, tok: Address, who: Address): int
    requires StateInv(s) && HostRun(txs)
  {
    if txs == [] then 0
    else
      var b, tx := Before(s, txs), txs[|txs| - 1];
      Flow(s, txs[..|txs| - 1], id, tok, who)
      + (if Acts(b, tx, id) then Bal(Next(b, tx).book, tok, who) - Bal(b.book, tok, who) else 0)
  }

  lemma CreatedStanding(s: State, tx: Tx, who: Address)
    requires StateInv(s) && HostTx(tx) && Accepted(s, tx) && tx.call.CreateTournament?
    ensures Next(s, tx).count == s.count + 1
    ensures var b := Next(s, tx).brackets[s.count];
      && Shape(b) && Standing(b, who) == 0
      && Left(b) == 2 * b.info.playerCount - 1 && |Undecided(b.nodes)| == b.info.playerCount - 1
      && !Terminal(b.info.phase)
  {
    var call := tx.call;
    CreateStep(s, call.fee, call.players, call.schedule, tx.signers, tx.now);
    NewBracketAccounts(s.config.value, call.fee, call.players, call.schedule, tx.now);
  }

  /** Settlement: over any run, a tournament has moved exactly the standing of each participant: minus
      one fee while it is open, nothing once cancelled, plus (n-1) fees for the champion. */
  lemma {:induction false} FlowIsStanding(s: State, txs: seq<Tx>, id: nat, who: Address)
    requires StateInv(s) && Genesis(s) && HostRun(txs) && who != SELF
    ensures var e := Run(s, txs);
      if e.config.Some? && id < e.count
      then Flow(s, txs, id, e.config.value.token, who) == Standing(e.brackets[id], who)
      else forall tok :: Flow(s, txs, id, tok, who) == 0
  {
    hide Apply, Inv, Standing, Accepted, Acts, Creates, Next;
    if txs != [] {
      var tx := txs[|txs| - 1];
      FlowIsStanding(s, txs[..|txs| - 1], id, who);
      var b := Before(s, txs);
      SeenFrom(b, tx, id);
      if Acts(b, tx, id) {
        ActsStanding(b, tx, id, who);
      } else if Creates(b, tx) && id == b.count {
        CreatesStanding(b, tx, who);
      }
    }
  }

  lemma ActsStanding(s: State, tx: Tx, id: nat, who: Address)
    requires StateInv(s) && HostTx(tx) && Acts(s, tx, id) && who != SELF
    ensures StateInv(Next(s, tx)) && s.config.Some? && id in s.brackets && id in Next(s, tx).brackets
    ensures var tok := s.config.value.token;
      Bal(Next(s, tx).book, tok, who) - Bal(s.book, tok, who) == Standing(Next(s, tx).brackets[id], who) - Standing(s.brackets[id], who)
  {
    hide Apply, Inv, Standing, Left;
    NextInv(s, tx);
    TargetedStep(s, tx, 0, who);
    TargetedStep(s, tx, s.config.value.token, who);
  }

  lemma CreatesStanding(s: State, tx: Tx, who: Address)
    requires StateInv(s) && HostTx(tx) && Creates(s, tx)
    ensures StateInv(Next(s, tx)) && s.count in Next(s, tx).brackets
    ensures Standing(Next(s, tx).brackets[s.count], who) == 0
  {
    hide Apply, Inv, Standing, Left;
    NextInv(s, tx);
    CreatedStanding(s, tx, who);
  }

  // ---------------------------- the field given at creation ----------------------------

  /** The accepted call that created tournament `id`. */
  ghost function Creation(s: State, txs: seq<Tx>, id: nat): Option<Tx>
    requires StateInv(s) && HostRun(txs)
  {
    if txs == [] then None
    else
      var b, tx := Before(s, txs), txs[|txs| - 1];
      if Creates(b, tx) && id == b.count then Some(tx) else Creation(s, txs[..|txs| - 1], id)
  }

  /** The list of entrants with which tournament `id` was created. */
  ghost function Field(s: State, txs: seq<Tx>, id: nat): seq<Address>
    requires StateInv(s) && HostRun(txs)
  {
    var tx := Creation(s, txs, id);
    if tx.Some? && tx.value.call.CreateTournament? then tx.value.call.players else []
  }

  /** The terms of a tournament are those of a creation call: fee, size, schedule, ledger, and the token and
      admin of the configuration. */
  ghost predicate TermsOf(b: Bracket, tx: Tx, c: Config) {
    && tx.call.CreateTournament?
    && b.info.createdLedger == tx.now
    && b.info.entryFee == tx.call.fee && b.info.prizeSchedule == tx.call.schedule
    && b.info.playerCount == |tx.call.players| == Pow2(b.info.rounds)
    && b.info.token == c.token && b.info.admin == c.admin && c.admin in tx.signers
  }

  lemma CreatesTerms(s: State, tx: Tx)
    requires StateInv(s) && HostTx(tx) && Creates(s, tx)
    ensures s.config.Some? && s.count in Next(s, tx).brackets
    ensures TermsOf(Next(s, tx).brackets[s.count], tx, s.config.value)
  {
    hide Inv, EntrantsVerdict, SeededNodes;
    var call := tx.call;
    CreateStep(s, call.fee, call.players, call.schedule, tx.signers, tx.now);
    PowerOfTwoIsPow2(|call.players|);
  }

  lemma ActsTerms(s: State, tx: Tx, id: nat, creation: Tx)
    requires StateInv(s) && HostTx(tx) && Acts(s, tx, id)
    requires s.config.Some? && id in s.brackets ==> TermsOf(s.brackets[id], creation, s.config.value)
    ensures s.config.Some? && id in s.brackets && id in Next(s, tx).brackets && TermsOf(Next(s, tx).brackets[id], creation, s.config.value)
  {
    hide Apply, Inv, Standing, Left, SameEntries;
    TargetedStep(s, tx, 0, 0);
  }

  /** Over any run, each tournament was created by an accepted call, and its ledger, fee, size, schedule, token
      and admin are still those of that call and of the configuration. */
  lemma {:induction false} TermsAsCreated(s: State, txs: seq<Tx>, id: nat)
    requires StateInv(s) && Genesis(s) && HostRun(txs)
    ensures var e := Run(s, txs);
      e.config.Some? && id < e.count ==>
        Creation(s, txs, id).Some? && TermsOf(e.brackets[id], Creation(s, txs, id).value, e.config.value)
  {
    hide Apply, Inv, TermsOf, Accepted, Acts, Creates, Next;
    if txs != [] {
      var tx := txs[|txs| - 1];
      TermsAsCreated(s, txs[..|txs| - 1], id);
      var b := Before(s, txs);
      SeenFrom(b, tx, id);
      CreatesIsNew(b, tx, id);
      if Acts(b, tx, id) {
        ActsTerms(b, tx, id, Creation(s, txs[..|txs| - 1], id).value);
      } else if Creates(b, tx) && id == b.count {
        CreatesTerms(b, tx);
      }
    }
  }

  // ---------------------------- results and endings as reported ----------------------------

  /** The accepted result of node (r, i). */
  ghost function ReportOf(s: State, txs: seq<Tx>, id: nat, r: nat, i: nat): Option<Tx>
    requires StateInv(s) && HostRun(txs)
  {
    if txs == [] then None
    else
      var b, tx := Before(s, txs), txs[|txs| - 1];
      if Acts(b, tx, id) && tx.call.Result? && (tx.call.round, tx.call.index) == (r, i) then Some(tx)
      else ReportOf(s, txs[..|txs| - 1], id, r, i)
  }

  /** The last accepted call on tournament `id`. */
  ghost function LastCall(s: State, txs: seq<Tx>, id: nat): Option<Tx>
    requires StateInv(s) && HostRun(txs)
  {
    if txs == [] then None
    else
      var b, tx := Before(s, txs), txs[|txs| - 1];
      if Acts(b, tx, id) then Some(tx) else LastCall(s, txs[..|txs| - 1], id)
  }

  /** Node (r, i) holds the winner and the ledger of its report, and the tournament ended as its last call says. */
  ghost predicate AsReported(b: Bracket, r: nat, i: nat, report: Option<Tx>, last: Option<Tx>) {
    && (report.Some? ==> report.value.call.Result?)
    && ((r, i) in b.nodes ==>
          && b.nodes[(r, i)].winner == (if report.Some? && report.value.call.Result? then Some(report.value.call.winner) else None)
          && b.nodes[(r, i)].resultLedger == (if report.Some? then Some(report.value.now) else None))
    && (Terminal(b.info.phase) ==> last.Some? && b.info.completedLedger == Some(last.value.now))
    && (b.info.phase == Cancelled ==> last.value.call.CancelTournament? || last.value.call.Timeout?)
    && (b.info.phase == Completed ==> last.value.call.Result? && b.info.champion == Some(last.value.call.winner))
    && (!Terminal(b.info.phase) ==> b.info.completedLedger.None? && b.info.champion.None?)
  }

  lemma NothingReported(b: Bracket, r: nat, i: nat)
    requires Inv(b) && b.info.phase == Registration && Undecided(b.nodes) == b.nodes.Keys
    ensures AsReported(b, r, i, None, None)
  {
    hide SeedsDistinct, MoneyOk, Wired;
    if (r, i) in b.nodes {
      assert (r, i) in Undecided(b.nodes);
      assert NodeOk(b, r, i);
    }
  }

  lemma CreatesUnreported(s: State, tx: Tx, r: nat, i: nat)
    requires StateInv(s) && HostTx(tx) && Creates(s, tx)
    ensures s.count in Next(s, tx).brackets && AsReported(Next(s, tx).brackets[s.count], r, i, None, None)
  {
    hide Inv, EntrantsVerdict, SeededNodes, AsReported;
    var call := tx.call;
    CreateStep(s, call.fee, call.players, call.schedule, tx.signers, tx.now);
    NewBracketInv(s.config.value, call.fee, call.players, call.schedule, tx.now);
    var b := Next(s, tx).brackets[s.count];
    assert Undecided(b.nodes) == b.nodes.Keys;
    NothingReported(b, r, i);
  }

  lemma PayReports(s: State, tx: Tx, id: nat, r: nat, i: nat, report: Option<Tx>, last: Option<Tx>)
    requires StateInv(s) && HostTx(tx) && Acts(s, tx, id) && tx.call.Pay? && id in s.brackets
    requires AsReported(s.brackets[id], r, i, report, last)
    ensures id in Next(s, tx).brackets && AsReported(Next(s, tx).brackets[id], r, i, report, Some(tx))
  {
    hide Inv, FindSlot, Slot, Funded;
  }

  lemma ResultReports(s: State, tx: Tx, id: nat, r: nat, i: nat, report: Option<Tx>, last: Option<Tx>)
    requires StateInv(s) && HostTx(tx) && Acts(s, tx, id) && tx.call.Result? && id in s.brackets
    requires AsReported(s.brackets[id], r, i, report, last)
    ensures id in Next(s, tx).brackets
    ensures AsReported(Next(s, tx).brackets[id], r, i, if (tx.call.round, tx.call.index) == (r, i) then Some(tx) else report, Some(tx))
  {
    hide Inv, Shape;
    var b, call := s.brackets[id], tx.call;
    ParentInTree(b, call.round, call.index);
    DecideKeys(b, call.round, call.index, call.winner, tx.now);
    if (r, i) in b.nodes {
      DecideOthers(b, call.round, call.index, call.winner, tx.now, r, i);
    }
  }

  lemma DecideKeys(b: Bracket, r: nat, i: nat, w: Address, now: nat)
    requires (r, i) in b.nodes && (r + 1 < b.info.rounds ==> (r + 1, i / 2) in b.nodes)
    ensures Decide(b, r, i, w, now).nodes.Keys == b.nodes.Keys
  {
  }

  lemma EndReports(s: State, tx: Tx, id: nat, r: nat, i: nat, report: Option<Tx>, last: Option<Tx>)
    requires StateInv(s) && HostTx(tx) && Acts(s, tx, id) && (tx.call.CancelTournament? || tx.call.Timeout?) && id in s.brackets
    requires AsReported(s.brackets[id], r, i, report, last) && !Terminal(s.brackets[id].info.phase)
    ensures id in Next(s, tx).brackets && AsReported(Next(s, tx).brackets[id], r, i, report, Some(tx))
  {
    hide Inv, Shape, PayRefunds;
    InvShapes(s, id);
    AbandonShape(s, id, tx.now);
  }

  lemma InvShapes(s: State, id: nat)
    requires StateInv(s) && id in s.brackets
    ensures WellFormed(s) && Has(s, id) && HasSlots(s.brackets[id].nodes, s.brackets[id].info.playerCount)
  {
    ShapeHasSlots(s.brackets[id]);
  }

  lemma ActsReports(s: State, tx: Tx, id: nat, r: nat, i: nat, report: Option<Tx>, last: Option<Tx>)
    requires StateInv(s) && HostTx(tx) && Acts(s, tx, id)
    requires id in s.brackets ==> AsReported(s.brackets[id], r, i, report, last)
    ensures id in s.brackets && id in Next(s, tx).brackets
    ensures AsReported(Next(s, tx).brackets[id], r, i,
                       if tx.call.Result? && (tx.call.round, tx.call.index) == (r, i) then Some(tx) else report, Some(tx))
  {
    hide Apply, Inv, AsReported, SameTerms, Standing, Left;
    TargetedStep(s, tx, 0, 0);
    if tx.call.Pay? {
      PayReports(s, tx, id, r, i, report, last);
    } else if tx.call.Result? {
      ResultReports(s, tx, id, r, i, report, last);
    } else {
      OnlyEndsLeft(tx);
      EndReports(s, tx, id, r, i, report, last);
    }
  }

  lemma OnlyEndsLeft(tx: Tx)
    requires Target(tx.call).Some? && !tx.call.Pay? && !tx.call.Result?
    ensures tx.call.CancelTournament? || tx.call.Timeout?
  {
  }

  /** Over any run, every node holds exactly the winner and the ledger of its accepted report; the tournament
      ended at the ledger of its last accepted call, cancelled by a cancellation or a timeout claim, or completed
      by a result whose winner is the champion. */
  lemma {:induction false} ReportsAreRecorded(s: State, txs: seq<Tx>, id: nat, r: nat, i: nat)
    requires StateInv(s) && Genesis(s) && HostRun(txs)
    ensures var e := Run(s, txs);
      if e.config.Some? && id < e.count
      then AsReported(e.brackets[id], r, i, ReportOf(s, txs, id, r, i), LastCall(s, txs, id))
      else ReportOf(s, txs, id, r, i).None? && LastCall(s, txs, id).None?
  {
    hide Apply, Inv, AsReported, Accepted, Acts, Creates, Next;
    if txs != [] {
      var tx := txs[|txs| - 1];
      var before := txs[..|txs| - 1];
      ReportsAreRecorded(s, before, id, r, i);
      var b := Before(s, txs);
      SeenFrom(b, tx, id);
      if Acts(b, tx, id) {
        ActsReports(b, tx, id, r, i, ReportOf(s, before, id, r, i), LastCall(s, before, id));
      } else if Creates(b, tx) && id == b.count {
        CreatesUnreported(b, tx, r, i);
      }
    }
  }

  /** Entry slot `k` holds whom snake seeding of the list puts there. */
  ghost predicate SlotSeeded(nodes: Nodes, players: seq<Address>, k: nat)
    requires HasSlots(nodes, |players|) && k < |players|
  {
    && 0 <= SeedPosition(k, |players|) < |players|
    && Slot(nodes, k) == Some(players[SeedPosition(k, |players|)])
  }

  ghost predicate SeededAs(b: Bracket, players: seq<Address>) {
    && |players| == b.info.playerCount
    && HasSlots(b.nodes, |players|)
    && forall k: nat {:trigger SlotSeeded(b.nodes, players, k)} :: k < |players| ==> SlotSeeded(b.nodes, players, k)
  }

  lemma SeedsKept(b: Bracket, b': Bracket, players: seq<Address>)
    requires SeededAs(b, players) && SameTerms(b, b')
    ensures SeededAs(b', players)
  {
    forall k: nat {:trigger SlotSeeded(b'.nodes, players, k)} | k < |players| ensures SlotSeeded(b'.nodes, players, k) {
      assert SlotSeeded(b.nodes, players, k);
      assert Slot(b'.nodes, k) == Slot(b.nodes, k);
    }
  }

  lemma ActsSeeds(s: State, tx: Tx, id: nat, players: seq<Address>)
    requires StateInv(s) && HostTx(tx) && Acts(s, tx, id)
    requires id in s.brackets ==> SeededAs(s.brackets[id], players)
    ensures StateInv(Next(s, tx)) && id in s.brackets && id in Next(s, tx).brackets && SeededAs(Next(s, tx).brackets[id], players)
  {
    hide Apply, Inv, Standing, Left, SeededAs, SameTerms;
    NextInv(s, tx);
    TargetedStep(s, tx, 0, 0);
    SeedsKept(s.brackets[id], Next(s, tx).brackets[id], players);
  }

  lemma CreatesSeeds(s: State, tx: Tx)
    requires StateInv(s) && HostTx(tx) && Creates(s, tx)
    ensures StateInv(Next(s, tx)) && s.count in Next(s, tx).brackets && SeededAs(Next(s, tx).brackets[s.count], tx.call.players)
  {
    hide Inv, NewBracket, EntrantsVerdict, SeededAs;
    var call := tx.call;
    NextInv(s, tx);
    CreateStep(s, call.fee, call.players, call.schedule, tx.signers, tx.now);
    NewBracketField(s.config.value, call.fee, call.players, call.schedule, tx.now);
  }

  lemma NewBracketField(c: Config, fee: int, players: seq<Address>, schedule: seq<int>, now: U32)
    requires |players| >= 2 && |players| <= 64 && IsPowerOfTwo(|players|) && fee >= 1
    ensures SeededAs(NewBracket(c, fee, players, schedule, now), players)
  {
    var b := NewBracket(c, fee, players, schedule, now);
    NewBracketShape(c, fee, players, schedule, now);
    ShapeHasSlots(b);
    forall k: nat {:trigger SlotSeeded(b.nodes, players, k)} | k < |players| ensures SlotSeeded(b.nodes, players, k) {
      NewBracketSlot(c, fee, players, schedule, now, k);
    }
  }

  /** Over any run, however the calls interleave, each entry slot of each tournament still holds the player
      that snake seeding of the list given at its creation put there. */
  lemma {:induction false} EntriesAsCreated(s: State, txs: seq<Tx>, id: nat)
    requires StateInv(s) && Genesis(s) && HostRun(txs)
    ensures var e := Run(s, txs);
      e.config.Some? && id < e.count ==> SeededAs(e.brackets[id], Field(s, txs, id))
  {
    hide Apply, Inv, SeededAs, Accepted, Acts, Creates, Next;
    if txs != [] {
      var tx := txs[|txs| - 1];
      EntriesAsCreated(s, txs[..|txs| - 1], id);
      var b := Before(s, txs);
      SeenFrom(b, tx, id);
      CreatesIsNew(b, tx, id);
      if Acts(b, tx, id) {
        ActsSeeds(b, tx, id, Field(s, txs[..|txs| - 1], id));
      } else if Creates(b, tx) && id == b.count {
        CreatesSeeds(b, tx);
      }
    }
  }

  lemma CreatesIsNew(s: State, tx: Tx, id: nat)
    requires StateInv(s) && HostTx(tx)
    ensures Acts(s, tx, id) ==> !Creates(s, tx)
    ensures Creates(s, tx) ==> tx.call.CreateTournament?
  {
  }

  /** The entrants of a tournament are exactly the players on its list. */
  lemma EntrantsAreTheField(b: Bracket, players: seq<Address>, who: Address)
    requires Inv(b) && SeededAs(b, players)
    ensures IsEntrant(b, who) <==> who in players
  {
    InvShape(b);
    if who in players {
      var a :| 0 <= a < |players| && players[a] == who;
      SeedPositionBijective(|players|, a, a);
      assert SlotSeeded(b.nodes, players, SlotOfSeed(a, |players|));
      assert Slot(b.nodes, SlotOfSeed(a, |players|)) == Some(who);
    }
    if IsEntrant(b, who) {
      var k: nat :| k < b.info.playerCount && Slot(b.nodes, k) == Some(who);
      assert SlotSeeded(b.nodes, players, k);
    }
  }

  /** The two ways a tournament can end, in tokens, for the n players on its list and for everybody else. */
  lemma FinalSettlement(s: State, txs: seq<Tx>, id: nat, who: Address)
    requires StateInv(s) && Genesis(s) && HostRun(txs) && who != SELF
    requires Run(s, txs).config.Some? && id < Run(s, txs).count
    ensures var e := Run(s, txs);
      var b := e.brackets[id];
      var players := Field(s, txs, id);
      var net := Flow(s, txs, id, e.config.value.token, who);
      && (b.info.phase == Cancelled ==> net == 0)
      && (b.info.phase == Completed ==>
            && b.info.champion.Some? && b.info.champion.value in players
            && Creation(s, txs, id).Some? && Creation(s, txs, id).value.call.CreateTournament?
            && var fee := Creation(s, txs, id).value.call.fee;
               net == (if b.info.champion == Some(who) then fee * (|players| - 1)
                       else if who in players then -fee else 0))
  {
    hide Inv, Standing, SeededAs, IsEntrant, Field, Flow, Run, Creation;
    FlowIsStanding(s, txs, id, who);
    TermsAsCreated(s, txs, id);
    var b, players := Run(s, txs).brackets[id], Field(s, txs, id);
    assert OkWith(b, Run(s, txs).config.value.token);
    EntriesAsCreated(s, txs, id);
    FieldSize(b, players);
    EntrantsAreTheField(b, players, who);
    if b.info.phase == Completed {
      SettledStanding(b, who);
      EntrantsAreTheField(b, players, b.info.champion.value);
    } else if b.info.phase == Cancelled {
      CancelledStanding(b, who);
    }
  }

  lemma FieldSize(b: Bracket, players: seq<Address>)
    requires SeededAs(b, players)
    ensures |players| == b.info.playerCount
  {
  }

  lemma CancelledStanding(b: Bracket, who: Address)
    requires Shape(b) && b.info.phase == Cancelled
    ensures Standing(b, who) == 0
  {
  }

  lemma SettledStanding(b: Bracket, who: Address)
    requires Inv(b) && b.info.phase == Completed
    ensures b.info.champion.Some? && IsEntrant(b, b.info.champion.value)
    ensures Standing(b, who) == (if b.info.champion == Some(who) then b.info.entryFee * (b.info.playerCount - 1)
                                 else if IsEntrant(b, who) then -b.info.entryFee else 0)
  {
    FinalMeansAllPaid(b);
    ChampionHasPaid(b);
    ShapeHasSlots(b);
    var c: nat :| PaidSlot(b, b.info.champion.value, c);
    assert Slot(b.nodes, c) == b.info.champion;
    if IsEntrant(b, who) {
      var k: nat :| k < b.info.playerCount && Slot(b.nodes, k) == Some(who);
      assert PaidSlot(b, who, k);
    }
    if HasPaid(b, who) {
      var k: nat :| PaidSlot(b, who, k);
      assert Slot(b.nodes, k) == Some(who);
    }
  }

  ghost predicate IsEntrant(b: Bracket, who: Address)
    requires Shape(b)
  {
    ShapeHasSlots(b);
    exists k: nat :: k < b.info.playerCount && Slot(b.nodes, k) == Some(who)
  }

  // ---------------------------- length of play ----------------------------

  ghost function AcceptedCalls(s: State, txs: seq<Tx>, id: nat): nat
    requires StateInv(s) && HostRun(txs)
  {
    if txs == [] then 0
    else
      AcceptedCalls(s, txs[..|txs| - 1], id)
      + (if Acts(Before(s, txs), txs[|txs| - 1], id) then 1 else 0)
  }

  ghost function AcceptedResults(s: State, txs: seq<Tx>, id: nat): nat
    requires StateInv(s) && HostRun(txs)
  {
    if txs == [] then 0
    else
      AcceptedResults(s, txs[..|txs| - 1], id)
      + (if Acts(Before(s, txs), txs[|txs| - 1], id) && txs[|txs| - 1].call.Result? then 1 else 0)
  }

  ghost predicate PlayCounts(b: Bracket, calls: nat, results: nat) {
    && results == b.info.playerCount - 1 - |Undecided(b.nodes)|
    && (b.info.phase != Cancelled ==> calls == 2 * b.info.playerCount - 1 - Left(b))
    && (b.info.phase == Cancelled ==> calls <= 2 * b.info.playerCount - 1)
  }

  lemma PlayStep(s: State, tx: Tx, id: nat, calls: nat, results: nat)
    requires StateInv(s) && HostTx(tx) && Acts(s, tx, id)
    requires id in s.brackets ==> PlayCounts(s.brackets[id], calls, results)
    ensures s.config.Some? && id in s.brackets && id in Next(s, tx).brackets
    ensures PlayCounts(Next(s, tx).brackets[id], calls + 1, results + if tx.call.Result? then 1 else 0)
  {
    hide Apply, Inv;
    TargetedStep(s, tx, 0, 0);
    assert OkWith(s.brackets[id], s.config.value.token);
    FinalStillOpen(s.brackets[id]);
    FundedAtMostAll(s.brackets[id]);
  }

  lemma PlayStart(s: State, tx: Tx)
    requires StateInv(s) && HostTx(tx) && Creates(s, tx)
    ensures s.count in Next(s, tx).brackets && PlayCounts(Next(s, tx).brackets[s.count], 0, 0)
  {
    hide Apply, Inv;
    NextInv(s, tx);
    CreatedStanding(s, tx, 0);
  }

  lemma {:induction false} PlayIsCounted(s: State, txs: seq<Tx>, id: nat)
    requires StateInv(s) && Genesis(s) && HostRun(txs)
    ensures var e := Run(s, txs);
      if e.config.Some? && id < e.count
      then PlayCounts(e.brackets[id], AcceptedCalls(s, txs, id), AcceptedResults(s, txs, id))
      else AcceptedCalls(s, txs, id) == 0 && AcceptedResults(s, txs, id) == 0
  {
    hide Apply, Inv, PlayCounts, Accepted, Acts, Creates, Next;
    if txs != [] {
      var tx := txs[|txs| - 1];
      PlayIsCounted(s, txs[..|txs| - 1], id);
      var b := Before(s, txs);
      SeenFrom(b, tx, id);
      if Acts(b, tx, id) {
        PlayStep(b, tx, id, AcceptedCalls(s, txs[..|txs| - 1], id), AcceptedResults(s, txs[..|txs| - 1], id));
      } else if Creates(b, tx) && id == b.count {
        PlayStart(b, tx);
      }
    }
  }

  lemma FundedAtMostAll(b: Bracket)
    requires Inv(b)
    ensures b.info.fundedCount <= b.info.playerCount
  {
    ShapeHasSlots(b);
  }

  /** At most 2n-1 calls on a tournament are ever accepted, and it is completed exactly when n-1 results were. */
  lemma PlayIsBounded(s: State, txs: seq<Tx>, id: nat)
    requires StateInv(s) && Genesis(s) && HostRun(txs)
    requires Run(s, txs).config.Some? && id < Run(s, txs).count
    ensures var b := Run(s, txs).brackets[id];
      && AcceptedCalls(s, txs, id) <= 2 * b.info.playerCount - 1
      && AcceptedResults(s, txs, id) <= b.info.playerCount - 1
      && (b.info.phase == Completed <==> AcceptedResults(s, txs, id) == b.info.playerCount - 1)
  {
    PlayIsCounted(s, txs, id);
    var b := Run(s, txs).brackets[id];
    assert OkWith(b, Run(s, txs).config.value.token);
    FundedAtMostAll(b);
    if b.info.phase == Completed {
      FinalMeansAllPaid(b);
    } else {
      FinalStillOpen(b);
    }
  }

  // ---------------------------- no pot can be locked ----------------------------

  lemma ReserveCovers(s: State, id: nat)
    requires StateInv(s) && s.config.Some? && id < s.count
    requires Bal(s.book, s.config.value.token, SELF) >= RESERVE_BUFFER + Pots(s, s.count)
    ensures ReserveHolds(s.book, s.config.value.token, Pot(s.brackets[id]))
  {
    PotsNonNegative(s, s.count, id);
  }

  /** The prize never exceeds what the tournament holds when its final is decided. */
  lemma SubmitWithinReserve(s: State, id: nat, round: nat, index: nat, gameId: seq<Byte>, winner: Address, signers: set<Address>, now: U32)
    requires StateInv(s)
    requires s.config.Some? ==> Bal(s.book, s.config.value.token, SELF) >= RESERVE_BUFFER + Pots(s, s.count)
    ensures Submit(s, id, round, index, gameId, winner, signers, now) != Err(InsufficientReserve)
  {
    hide Inv, Decide, Pots;
    if Submit(s, id, round, index, gameId, winner, signers, now) == Err(InsufficientReserve) {
      var b := s.brackets[id];
      ReserveCovers(s, id);
      assert OkWith(b, s.config.value.token);
      InvShape(b);
      ParentInTree(b, round, index);
      DecideFinal(b, index, winner, now, 0);
    }
  }

  lemma AbandonWithinReserve(s: State, id: nat, now: U32)
    requires StateInv(s) && s.config.Some? && Has(s, id) && !Terminal(s.brackets[id].info.phase)
    requires Bal(s.book, s.config.value.token, SELF) >= RESERVE_BUFFER + Pots(s, s.count)
    ensures Abandon(s, id, now).Ok?
  {
    hide Inv;
    var b := s.brackets[id];
    ReserveCovers(s, id);
    assert OkWith(b, s.config.value.token);
    ShapeHasSlots(b);
    if b.info.fundedCount > 0 {
      AbandonBook(s, b, 0, 0);
    }
  }

  /** Once gifts cover the reserve buffer, no call in any run is refused for want of reserve. */
  lemma NeverShortOfReserve(s: State, txs: seq<Tx>, tx: Tx)
    requires StateInv(s) && Genesis(s) && HostRun(txs)
    requires var e := Run(s, txs);
      e.config.Some? ==> Bal(s.book, e.config.value.token, SELF) + Gifts(s, txs, e.config.value.token) >= RESERVE_BUFFER
    ensures Apply(Run(s, txs), tx) != Err(InsufficientReserve)
  {
    hide Inv, Abandon, Submit, Deposit, Create, Initialize, Pots, Gifts, Run;
    var e := Run(s, txs);
    if e.config.Some? {
      TokensAreConserved(s, txs, e.config.value.token);
      match tx.call
      case Result(id, round, index, gameId, winner) => SubmitWithinReserve(e, id, round, index, gameId, winner, tx.signers, tx.now);
      case CancelTournament(id) => if Has(e, id) && e.brackets[id].info.phase == Registration { AbandonWithinReserve(e, id, tx.now); }
      case Timeout(id, _) => if Has(e, id) && !Terminal(e.brackets[id].info.phase) { AbandonWithinReserve(e, id, tx.now); }
      case Pay(id, player) => DepositNeedsNoReserve(e, id, player, tx.signers);
      case _ => CreateNeedsNoReserve(e, tx);
    } else {
      CreateNeedsNoReserve(e, tx);
    }
  }

  lemma DepositNeedsNoReserve(s: State, id: nat, player: Address, signers: set<Address>)
    requires WellFormed(s)
    ensures Deposit(s, id, player, signers) != Err(InsufficientReserve)
  {
  }

  lemma {:induction false} VerdictIsNotReserve(players: seq<Address>, m: nat)
    requires m <= |players|
    ensures EntrantsVerdict(players, m) != Some(InsufficientReserve)
  {
    if m > 0 {
      VerdictIsNotReserve(players, m - 1);
    }
  }

  lemma CreateNeedsNoReserve(s: State, tx: Tx)
    requires WellFormed(s) && (s.config.None? || tx.call.CreateTournament? || tx.call.Init? || tx.call.Outside?)
    ensures Apply(s, tx) != Err(InsufficientReserve)
  {
    if tx.call.CreateTournament? {
      VerdictIsNotReserve(tx.call.players, |tx.call.players|);
    }
  }

  /** The permissionless backstop: once the timeout has passed since the ledger of the creation call, anyone
      can have everybody refunded, unless the deadline does not fit a 32-bit ledger number, in which case the
      call always aborts. */
  lemma TimeoutAlwaysRefunds(s: State, txs: seq<Tx>, id: nat, caller: Address, signers: set<Address>, now: U32)
    requires StateInv(s) && Genesis(s) && HostRun(txs)
    requires Run(s, txs).config.Some? && id < Run(s, txs).count && !Terminal(Run(s, txs).brackets[id].info.phase)
    requires Bal(s.book, Run(s, txs).config.value.token, SELF) + Gifts(s, txs, Run(s, txs).config.value.token) >= RESERVE_BUFFER
    ensures Creation(s, txs, id).Some?
    ensures var due := Creation(s, txs, id).value.now + TIMEOUT_LEDGERS;
      ClaimTimeout(Run(s, txs), id, caller, signers, now).Ok? <==> caller in signers && due <= U32_MAX && now > due
  {
    hide Inv, Abandon, Creation, Run;
    var e := Run(s, txs);
    TermsAsCreated(s, txs, id);
    TokensAreConserved(s, txs, e.config.value.token);
    AbandonWithinReserve(e, id, now);
  }
}
