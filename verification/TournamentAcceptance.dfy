/** Exactly when a creation, a deposit and a cancellation are accepted. */
module TournamentAcceptance {
  import opened Types
  import opened Token
  import opened TournamentModel
  import opened TournamentBracket
  import opened TournamentTheorems
  import opened TournamentRuns
  import opened TournamentHistory

  lemma SumAdds(xs: seq<int>, x: int)
    ensures Sum([]) == 0 && Sum(xs + [x]) == Sum(xs) + x
  {
    assert (xs + [x])[..|xs|] == xs;
  }

  lemma PowersUpTo64(n: nat)
    requires 2 <= n <= 64
    ensures IsPowerOfTwo(n) <==> n in {2, 4, 8, 16, 32, 64}
  {
    if IsPowerOfTwo(n) {
      PowerOfTwoIsPow2(n);
      var k := TrailingZeros(n);
      assert Pow2(1) == 2 && Pow2(2) == 4 && Pow2(3) == 8 && Pow2(4) == 16 && Pow2(5) == 32 && Pow2(6) == 64;
    }
    if n in {2, 4, 8, 16, 32, 64} {
      assert IsPowerOfTwo(2);
      assert IsPowerOfTwo(4);
      assert IsPowerOfTwo(8);
      assert IsPowerOfTwo(16);
      assert IsPowerOfTwo(32);
      assert IsPowerOfTwo(64);
    }
  }

  lemma {:induction false} VerdictIff(players: seq<Address>, m: nat)
    requires m <= |players|
    ensures EntrantsVerdict(players, m).None?
       <==> (forall i :: 0 <= i < m ==> players[i] != ZERO_ADDRESS) && (forall i, j :: 0 <= i < j < m ==> players[i] != players[j])
  {
    if m > 0 {
      VerdictIff(players, m - 1);
    }
  }

  /** A tournament is created exactly when the admin signs, the fee is positive, the field has 2, 4, 8, 16, 32 or
      64 different non-zero entrants, the pool is within its bound, and the schedule names at least one and at
      most as many prizes as entrants, each positive, within the pool. */
  lemma CreateAcceptedIff(s: State, fee: int, players: seq<Address>, schedule: seq<int>, signers: set<Address>, now: U32)
    ensures var n, pool := |players|, fee * |players|;
      Create(s, fee, players, schedule, signers, now).Ok?
      <==> && s.config.Some? && s.config.value.admin in signers && s.count < U64_MAX
           && fee >= 1 && n in {2, 4, 8, 16, 32, 64} && pool <= 1_000_000_000_000
           && 1 <= |schedule| <= n && (forall i :: 0 <= i < |schedule| ==> schedule[i] > 0) && Sum(schedule) <= pool
           && (forall i :: 0 <= i < n ==> players[i] != ZERO_ADDRESS)
           && (forall i, j :: 0 <= i < j < n ==> players[i] != players[j])
  {
    hide EntrantsVerdict, Sum, NewBracket, IsPowerOfTwo;
    VerdictIff(players, |players|);
    if 2 <= |players| <= 64 {
      PowersUpTo64(|players|);
    }
  }

  lemma InitializeAcceptedIff(s: State, admin: Address, oracle: Address, token: Address, tokenIsContract: bool)
    ensures Initialize(s, admin, oracle, token, tokenIsContract).Ok?
       <==> s.config.None? && admin != ZERO_ADDRESS && oracle != ZERO_ADDRESS && token != ZERO_ADDRESS && tokenIsContract
  {
  }

  /** In every run a deposit is accepted exactly from a signing player of the list of a tournament that is not
      over, who has not paid and owns the fee. */
  lemma DepositAcceptedIff(s: State, txs: seq<Tx>, id: nat, player: Address, signers: set<Address>)
    requires StateInv(s) && Genesis(s) && HostRun(txs)
    ensures var e := Run(s, txs);
      Deposit(e, id, player, signers).Ok?
      <==> && player in signers && e.config.Some? && id < e.count
           && var b := e.brackets[id];
              && !Terminal(b.info.phase) && player in Field(s, txs, id) && !HasPaid(b, player)
              && Bal(e.book, e.config.value.token, player) >= b.info.entryFee
  {
    hide Run, Inv, Field, SeededAs, IsEntrant, HasPaid;
    var e := Run(s, txs);
    if e.config.Some? && id < e.count {
      var b := e.brackets[id];
      assert OkWith(b, e.config.value.token);
      EntriesAsCreated(s, txs, id);
      EntrantsAreTheField(b, Field(s, txs, id), player);
      InvShape(b);
      FoundOrNot(b, player);
    }
  }

  /** The scan finds the one slot of an entrant, which is paid for exactly if the entrant has paid. */
  lemma FoundOrNot(b: Bracket, player: Address)
    requires Inv(b) && HasSlots(b.nodes, b.info.playerCount)
    ensures var k := FindSlot(b.nodes, b.info.playerCount, player, 0);
      && (k.Some? <==> IsEntrant(b, player))
      && (k.Some? ==> (Funded(b.nodes, k.value) <==> HasPaid(b, player)))
  {
    hide Inv, Slot, Funded;
    InvShape(b);
    var k := FindSlot(b.nodes, b.info.playerCount, player, 0);
    if IsEntrant(b, player) {
      var j: nat :| j < b.info.playerCount && Slot(b.nodes, j) == Some(player);
    }
    if k.Some? {
      if Funded(b.nodes, k.value) {
        assert PaidSlot(b, player, k.value);
      }
      if HasPaid(b, player) {
        var j: nat :| PaidSlot(b, player, j);
        SlotsAreUnique(b, j, k.value, k.value);
      }
    }
  }

  /** In every covered run a cancellation is accepted exactly from the signing admin while the tournament is in
      Registration. */
  lemma CancelAcceptedIff(s: State, txs: seq<Tx>, id: nat, signers: set<Address>, now: U32)
    requires StateInv(s) && Genesis(s) && HostRun(txs)
    requires var e := Run(s, txs);
      e.config.Some? ==> Bal(s.book, e.config.value.token, SELF) + Gifts(s, txs, e.config.value.token) >= RESERVE_BUFFER
    ensures var e := Run(s, txs);
      Cancel(e, id, signers, now).Ok?
      <==> e.config.Some? && e.config.value.admin in signers && id < e.count && e.brackets[id].info.phase == Registration
  {
    hide Inv, Abandon, Run, Gifts, Pots;
    var e := Run(s, txs);
    if e.config.Some? {
      TokensAreConserved(s, txs, e.config.value.token);
      if Has(e, id) && e.brackets[id].info.phase == Registration {
        AbandonWithinReserve(e, id, now);
      }
    }
  }

  /** Over any run the configuration is that of the one accepted initialisation. */
  ghost predicate ConfiguredBy(s: State, txs: seq<Tx>)
    requires StateInv(s) && HostRun(txs)
  {
    if txs == [] then Run(s, txs).config == s.config
    else
      var b, tx := Before(s, txs), txs[|txs| - 1];
      && ConfiguredBy(s, txs[..|txs| - 1])
      && Run(s, txs).config == (if Accepted(b, tx) && tx.call.Init? then Some(Config(tx.call.admin, tx.call.oracle, tx.call.token)) else b.config)
  }

  lemma {:induction false} ConfigAsCalled(s: State, txs: seq<Tx>)
    requires StateInv(s) && Genesis(s) && HostRun(txs)
    ensures ConfiguredBy(s, txs)
  {
    if txs != [] {
      hide Inv, Create, Deposit, Submit, Abandon;
      ConfigAsCalled(s, txs[..|txs| - 1]);
      ConfigStep(Before(s, txs), txs[|txs| - 1]);
    }
  }

  lemma ConfigStep(s: State, tx: Tx)
    requires StateInv(s) && HostTx(tx)
    ensures Next(s, tx).config == (if Accepted(s, tx) && tx.call.Init? then Some(Config(tx.call.admin, tx.call.oracle, tx.call.token)) else s.config)
  {
    hide Inv, Standing, Left;
    SeenFrom(s, tx, 0);
    if Accepted(s, tx) && !tx.call.Init? && Target(tx.call).Some? {
      hide Apply;
      TargetedStep(s, tx, 0, 0);
    } else {
      hide Deposit, Submit, Abandon, EntrantsVerdict, NewBracket;
    }
  }
}
