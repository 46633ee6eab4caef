/** The contract registry: a sorted index of names that must agree with the registration records. */
module ContractRegistry {
  import opened Types

  /** Contract names are Soroban symbols: opaque but totally ordered, so numbers stand for them. */
  type Symbol = nat

  const MAX_PAGE_SIZE: nat := 50

  /** `Trap` is a failed authorisation: the host aborts the call. */
  datatype Error = Unauthorized | ContractPaused | ContractNotFound | AlreadyRegistered | Overflow | InvalidRange | Trap

  datatype ContractRecord = ContractRecord(registrant: Address, contractAddress: Address, contractId: Symbol, active: bool)

  datatype State = State(admin: Option<Address>, paused: bool, count: nat, registrations: map<Symbol, ContractRecord>, names: seq<Symbol>)

  const FRESH: State := State(None, false, 0, map[], [])

  type Reply = Outcome<State, Error>

  // ---------------------------- the index ----------------------------

  /** How many leading names are below `id`: where the insertion loop stops. */
  function Position(names: seq<Symbol>, id: Symbol): (p: nat)
    ensures p <= |names|
    ensures forall i :: 0 <= i < p ==> names[i] < id
    ensures p < |names| ==> names[p] >= id
  {
    if names == [] || names[0] >= id then 0 else 1 + Position(names[1..], id)
  }

  function Inserted(names: seq<Symbol>, id: Symbol): seq<Symbol> {
    var p := Position(names, id);
    names[..p] + [id] + names[p..]
  }

  /** The names without the first occurrence of `id`. */
  function Removed(names: seq<Symbol>, id: Symbol): seq<Symbol> {
    if names == [] then []
    else if names[0] == id then names[1..]
    else [names[0]] + Removed(names[1..], id)
  }

  function Page(names: seq<Symbol>, offset: nat, limit: nat): Outcome<seq<Symbol>, Error> {
    if limit == 0 then Err(InvalidRange)
    else
      var end := Min(|names|, Min(offset + Min(limit, MAX_PAGE_SIZE), U32_MAX));
      Ok(if offset <= end then names[offset..end] else [])
  }

  // ---------------------------- the entry points on a state ----------------------------

  function Initialize(s: State, admin: Address, signers: set<Address>): Reply {
    if s.admin.Some? then Err(Unauthorized)
    else if admin !in signers then Err(Trap)
    else Ok(State(Some(admin), false, 0, s.registrations, []))
  }

  function AdminGate(s: State, caller: Address, signers: set<Address>): Option<Error> {
    if s.admin != Some(caller) then Some(Unauthorized)
    else if caller !in signers then Some(Trap)
    else None
  }

  function SetPaused(s: State, paused: bool, caller: Address, signers: set<Address>): Reply {
    var gate := AdminGate(s, caller, signers);
    if gate.Some? then Err(gate.value) else Ok(s.(paused := paused))
  }

  function Register(s: State, caller: Address, id: Symbol, address: Address, signers: set<Address>): Reply {
    var gate := AdminGate(s, caller, signers);
    if s.paused then Err(ContractPaused)
    else if gate.Some? then Err(gate.value)
    else if id in s.registrations then Err(AlreadyRegistered)
    else if s.count + 1 > U32_MAX then Err(Overflow)
    else Ok(s.(names := Inserted(s.names, id), count := s.count + 1,
               registrations := s.registrations[id := ContractRecord(caller, address, id, true)]))
  }

  function Update(s: State, caller: Address, id: Symbol, address: Address, signers: set<Address>): Reply {
    var gate := AdminGate(s, caller, signers);
    if s.paused then Err(ContractPaused)
    else if gate.Some? then Err(gate.value)
    else if id !in s.registrations then Err(ContractNotFound)
    else Ok(s.(registrations := s.registrations[id := s.registrations[id].(contractAddress := address)]))
  }

  function Deregister(s: State, caller: Address, id: Symbol, signers: set<Address>): Reply {
    if s.paused then Err(ContractPaused)
    else if id !in s.registrations then Err(ContractNotFound)
    else if s.registrations[id].registrant != caller && s.admin != Some(caller) then Err(Unauthorized)
    else if caller !in signers then Err(Trap)
    else Ok(s.(names := Removed(s.names, id), count := if s.count == 0 then 0 else s.count - 1,
               registrations := s.registrations - {id}))
  }

  datatype Call =
    | CallInitialize(admin: Address)
    | CallSetPaused(paused: bool, caller: Address)
    | CallRegister(caller: Address, id: Symbol, address: Address)
    | CallUpdate(caller: Address, id: Symbol, address: Address)
    | CallDeregister(caller: Address, id: Symbol)

  datatype Tx = Tx(call: Call, signers: set<Address>)

  function Apply(s: State, tx: Tx): Reply {
    match tx.call
    case CallInitialize(a) => Initialize(s, a, tx.signers)
    case CallSetPaused(p, c) => SetPaused(s, p, c, tx.signers)
    case CallRegister(c, id, a) => Register(s, c, id, a, tx.signers)
    case CallUpdate(c, id, a) => Update(s, c, id, a, tx.signers)
    case CallDeregister(c, id) => Deregister(s, c, id, tx.signers)
  }

  function Next(s: State, tx: Tx): State {
    var r := Apply(s, tx);
    if r.Ok? then r.value else s
  }

  function Run(txs: seq<Tx>): State {
    if txs == [] then FRESH else Next(Run(txs[..|txs| - 1]), txs[|txs| - 1])
  }

  // ---------------------------- the registry object ----------------------------

  class Registry {
    var admin: Option<Address>
    var paused: bool
    var count: nat
    var registrations: map<Symbol, ContractRecord>
    var names: seq<Symbol>

    ghost function Snapshot(): State
      reads this
    {
      State(admin, paused, count, registrations, names)
    }

    /** A call committed the state of its reply, or failed and changed nothing. */
    ghost predicate Did(reply: Reply, before: State, r: Outcome<(), Error>)
      reads this
    {
      match reply
      case Ok(after) => r.Ok? && Snapshot() == after
      case Err(e) => r == Err(e) && Snapshot() == before
    }

    constructor ()
      ensures Snapshot() == FRESH
    {
      admin, paused, count, registrations, names := None, false, 0, map[], [];
    }

    method InitializeRegistry(newAdmin: Address, signers: set<Address>) returns (r: Outcome<(), Error>)
      modifies this
      ensures Did(Initialize(old(Snapshot()), newAdmin, signers), old(Snapshot()), r)
    {
      if admin.Some? {
        return Err(Unauthorized);
      }
      if newAdmin !in signers {
        return Err(Trap);
      }
      admin, paused, count, names := Some(newAdmin), false, 0, [];
      return Ok(());
    }

    method RegisterContract(caller: Address, id: Symbol, address: Address, signers: set<Address>) returns (r: Outcome<(), Error>)
      modifies this
      ensures Did(Register(old(Snapshot()), caller, id, address, signers), old(Snapshot()), r)
    {
      if paused {
        return Err(ContractPaused);
      }
      if admin != Some(caller) {
        return Err(Unauthorized);
      }
      if caller !in signers {
        return Err(Trap);
      }
      if id in registrations {
        return Err(AlreadyRegistered);
      }
      if count >= U32_MAX {
        return Err(Overflow);
      }
      InsertName(id);
      count := count + 1;
      registrations := registrations[id := ContractRecord(caller, address, id, true)];
      return Ok(());
    }

    /** The insertion loop and `insert`. */
    method InsertName(id: Symbol)
      modifies this`names
      ensures names == Inserted(old(names), id)
    {
      var position := 0;
      assert names[0..] == names;
      while position < |names| && names[position] < id
        invariant 0 <= position <= |names| && names == old(names)
        invariant position + Position(names[position..], id) == Position(names, id)
      {
        assert names[position..][1..] == names[position + 1..];
        position := position + 1;
      }
      names := names[..position] + [id] + names[position..];
    }

    method UpdateContract(caller: Address, id: Symbol, address: Address, signers: set<Address>) returns (r: Outcome<(), Error>)
      modifies this
      ensures Did(Update(old(Snapshot()), caller, id, address, signers), old(Snapshot()), r)
    {
      if paused {
        return Err(ContractPaused);
      }
      if admin != Some(caller) {
        return Err(Unauthorized);
      }
      if caller !in signers {
        return Err(Trap);
      }
      if id !in registrations {
        return Err(ContractNotFound);
      }
      var record := registrations[id];
      registrations := registrations[id := record.(contractAddress := address)];
      return Ok(());
    }

    method DeregisterContract(caller: Address, id: Symbol, signers: set<Address>) returns (r: Outcome<(), Error>)
      modifies this
      ensures Did(Deregister(old(Snapshot()), caller, id, signers), old(Snapshot()), r)
    {
      if paused {
        return Err(ContractPaused);
      }
      if id !in registrations {
        return Err(ContractNotFound);
      }
      if registrations[id].registrant != caller && admin != Some(caller) {
        return Err(Unauthorized);
      }
      if caller !in signers {
        return Err(Trap);
      }
      RemoveName(id);
      registrations := registrations - {id};
      count := if count == 0 then 0 else count - 1;
      return Ok(());
    }

    /** `first_index_of` and, when there is one, `remove`. */
    method RemoveName(id: Symbol)
      modifies this`names
      ensures names == Removed(old(names), id)
    {
      var i := 0;
      while i < |names| && names[i] != id
        invariant 0 <= i <= |names| && names == old(names)
        invariant Removed(names, id) == names[..i] + Removed(names[i..], id)
      {
        assert names[i..][1..] == names[i + 1..];
        i := i + 1;
      }
      if i < |names| {
        assert names[i..][1..] == names[i + 1..];
        names := names[..i] + names[i + 1..];
      }
    }

    method ListNames(offset: nat, limit: nat) returns (r: Outcome<seq<Symbol>, Error>)
      ensures r == Page(names, offset, limit)
    {
      if limit == 0 {
        return Err(InvalidRange);
      }
      var end := Min(|names|, Min(offset + Min(limit, MAX_PAGE_SIZE), U32_MAX));
      var page: seq<Symbol> := [];
      var i := offset;
      while i < end
        invariant offset <= i && (i <= end || i == offset)
        invariant page == if i <= end then names[offset..i] else []
      {
        page := page + [names[i]];
        i := i + 1;
      }
      return Ok(page);
    }
  }

  // ---------------------------- the index agrees, in every run ----------------------------

  predicate Ascending(s: seq<Symbol>) {
    forall i, j :: 0 <= i < j < |s| ==> s[i] < s[j]
  }

  ghost predicate Agrees(s: State) {
    && Ascending(s.names)
    && (forall n :: n in s.names <==> n in s.registrations)
    && s.count == |s.names| <= U32_MAX
    && (forall n :: n in s.registrations ==> s.registrations[n].contractId == n)
    && (s.admin.None? ==> s.registrations == map[])
  }

  lemma InsertedAgrees(names: seq<Symbol>, id: Symbol)
    requires Ascending(names) && id !in names
    ensures Ascending(Inserted(names, id)) && |Inserted(names, id)| == |names| + 1
    ensures forall n :: n in Inserted(names, id) <==> n in names || n == id
  {
    var p := Position(names, id);
    var low, high := names[..p], names[p..];
    assert names == low + high;
    InsertedBetween(low, id, high);
  }

  lemma InsertedBetween(low: seq<Symbol>, id: Symbol, high: seq<Symbol>)
    requires Ascending(low + high) && id !in high
    requires forall i :: 0 <= i < |low| ==> low[i] < id
    requires high != [] ==> id <= high[0]
    ensures Ascending(low + [id] + high)
  {
    var all, s := low + high, low + [id] + high;
    forall i, j | 0 <= i < j < |s| ensures s[i] < s[j] {
      var p := |low|;
      if j < p {
        assert s[i] == all[i] && s[j] == all[j];
      } else if j == p {
        assert s[i] == low[i];
      } else {
        assert s[j] == high[j - p - 1] == all[j - 1];
        assert high[0] == all[p] && high[0] in high;
        assert i < p ==> s[i] == all[i];
        assert i > p ==> s[i] == all[i - 1];
      }
    }
  }

  lemma AscendingParts(s: seq<Symbol>)
    requires s != []
    ensures Ascending(s) <==> Ascending(s[1..]) && forall n :: n in s[1..] ==> s[0] < n
  {
    var t := s[1..];
    if Ascending(t) && forall n :: n in t ==> s[0] < n {
      forall i, j | 0 <= i < j < |s| ensures s[i] < s[j] {
        assert s[j] == t[j - 1] && t[j - 1] in t;
        if i > 0 {
          assert s[i] == t[i - 1];
        }
      }
    }
  }

  lemma {:induction false} RemovedAgrees(names: seq<Symbol>, id: Symbol)
    requires Ascending(names)
    ensures Ascending(Removed(names, id))
    ensures forall n :: n in Removed(names, id) <==> n in names && n != id
    ensures |Removed(names, id)| == |names| - if id in names then 1 else 0
  {
    hide Ascending;
    if names != [] {
      assert names == [names[0]] + names[1..];
      AscendingParts(names);
      if names[0] != id {
        RemovedAgrees(names[1..], id);
        AscendingParts(Removed(names, id));
      }
    }
  }

  lemma NextAgrees(s: State, tx: Tx)
    requires Agrees(s)
    ensures Agrees(Next(s, tx))
  {
    hide Ascending, Inserted, Removed;
    if Apply(s, tx).Ok? {
      match tx.call
      case CallRegister(c, id, a) => RegisterAgrees(s, c, id, a, tx.signers);
      case CallDeregister(c, id) => DeregisterAgrees(s, c, id, tx.signers);
      case CallInitialize(_) => NoNames();
      case _ =>
    }
  }

  lemma NoNames()
    ensures Ascending([])
  {
  }

  lemma RegisterAgrees(s: State, caller: Address, id: Symbol, address: Address, signers: set<Address>)
    requires Agrees(s) && Register(s, caller, id, address, signers).Ok?
    ensures Agrees(Register(s, caller, id, address, signers).value)
  {
    hide Inserted, Ascending;
    InsertedAgrees(s.names, id);
  }

  /** The saturating subtraction never saturates. */
  lemma DeregisterAgrees(s: State, caller: Address, id: Symbol, signers: set<Address>)
    requires Agrees(s) && Deregister(s, caller, id, signers).Ok?
    ensures Agrees(Deregister(s, caller, id, signers).value)
    ensures s.count > 0
  {
    hide Removed, Ascending;
    RemovedAgrees(s.names, id);
  }

  /** In every run: the names are strictly ascending, they are exactly the keys that have a record, each record
      carries its own key, and the counter is their number. */
  lemma {:induction false} RunAgrees(txs: seq<Tx>)
    ensures Agrees(Run(txs))
  {
    hide Next, Agrees;
    if txs == [] {
      FreshAgrees();
    } else {
      RunAgrees(txs[..|txs| - 1]);
      NextAgrees(Run(txs[..|txs| - 1]), txs[|txs| - 1]);
    }
  }

  lemma FreshAgrees()
    ensures Agrees(FRESH)
  {
  }

  /** Registering and deregistering again leaves no trace. */
  lemma DeregisterUndoes(s: State, caller: Address, id: Symbol, address: Address, signers: set<Address>)
    requires Agrees(s) && Register(s, caller, id, address, signers).Ok?
    ensures Deregister(Register(s, caller, id, address, signers).value, caller, id, signers) == Ok(s)
  {
    hide Inserted, Removed, Ascending;
    var t := Register(s, caller, id, address, signers).value;
    InsertedAgrees(s.names, id);
    RemovedAgrees(t.names, id);
    SameNames(Removed(t.names, id), s.names);
    assert t.registrations - {id} == s.registrations;
  }

  lemma {:induction false} SameNames(a: seq<Symbol>, b: seq<Symbol>)
    requires Ascending(a) && Ascending(b) && forall n :: n in a <==> n in b
    ensures a == b
  {
    assert b != [] ==> b[0] in b;
    if a != [] {
      assert a[0] in b;
      var x, y := a[0], b[0];
      assert y in a;
      assert a == [x] + a[1..] && b == [y] + b[1..];
      assert x == y;
      forall n ensures n in a[1..] <==> n in b[1..] {
        TailNames(a, n);
        TailNames(b, n);
      }
      SameNames(a[1..], b[1..]);
    }
  }

  lemma TailNames(s: seq<Symbol>, n: Symbol)
    requires Ascending(s) && s != []
    ensures n in s[1..] <==> n in s && n != s[0]
  {
    assert s == [s[0]] + s[1..];
  }

  /** The listing depends on what is registered now, not on the history that led there. */
  lemma HistoryDoesNotShow(a: seq<Tx>, b: seq<Tx>)
    requires Run(a).registrations.Keys == Run(b).registrations.Keys
    ensures Run(a).names == Run(b).names && Run(a).count == Run(b).count
  {
    hide Run, Ascending;
    RunAgrees(a);
    RunAgrees(b);
    forall n ensures n in Run(a).names <==> n in Run(b).names {
      assert n in Run(a).names <==> n in Run(a).registrations.Keys;
      assert n in Run(b).names <==> n in Run(b).registrations.Keys;
    }
    SameNames(Run(a).names, Run(b).names);
  }

  // ---------------------------- what a record says ----------------------------

  /** The accepted registration that the record of `id` goes back to; none once it was deregistered. */
  function RegisteredBy(txs: seq<Tx>, id: Symbol): Option<Tx> {
    if txs == [] then None
    else
      var before, tx := txs[..|txs| - 1], txs[|txs| - 1];
      if Apply(Run(before), tx).Err? then RegisteredBy(before, id)
      else if tx.call.CallRegister? && tx.call.id == id then Some(tx)
      else if tx.call.CallDeregister? && tx.call.id == id then None
      else RegisteredBy(before, id)
  }

  /** The address that the last accepted registration or update gave to `id`. */
  function AddressOf(txs: seq<Tx>, id: Symbol): Address {
    if txs == [] then 0
    else
      var before, tx := txs[..|txs| - 1], txs[|txs| - 1];
      if Apply(Run(before), tx).Ok? && tx.call.CallRegister? && tx.call.id == id then tx.call.address
      else if Apply(Run(before), tx).Ok? && tx.call.CallUpdate? && tx.call.id == id then tx.call.address
      else AddressOf(before, id)
  }

  predicate RecordedAs(s: State, id: Symbol, origin: Option<Tx>, address: Address) {
    && (id in s.registrations <==> origin.Some?)
    && (origin.Some? ==> origin.value.call.CallRegister?)
    && (origin.Some? && origin.value.call.CallRegister? && id in s.registrations ==>
          s.registrations[id] == ContractRecord(origin.value.call.caller, address, id, true))
  }

  /** In every run, a name is registered exactly if its last accepted registration was not followed by an
      accepted deregistration; its record names the caller of that registration and the address last given. */
  lemma {:induction false} RecordsAsCalled(txs: seq<Tx>, id: Symbol)
    ensures RecordedAs(Run(txs), id, RegisteredBy(txs, id), AddressOf(txs, id))
  {
    if txs != [] {
      hide Apply, RecordedAs;
      RecordsAsCalled(txs[..|txs| - 1], id);
      RecordStep(Run(txs[..|txs| - 1]), txs[|txs| - 1], id, RegisteredBy(txs[..|txs| - 1], id), AddressOf(txs[..|txs| - 1], id));
    }
  }

  lemma RecordStep(s: State, tx: Tx, id: Symbol, origin: Option<Tx>, address: Address)
    requires RecordedAs(s, id, origin, address)
    ensures var ok := Apply(s, tx).Ok?;
      RecordedAs(Next(s, tx), id,
                 if ok && tx.call.CallRegister? && tx.call.id == id then Some(tx)
                 else if ok && tx.call.CallDeregister? && tx.call.id == id then None else origin,
                 if ok && tx.call.CallRegister? && tx.call.id == id then tx.call.address
                 else if ok && tx.call.CallUpdate? && tx.call.id == id then tx.call.address else address)
  {
    hide Inserted, Removed;
  }

  /** The admin is the one who initialised, the pause the one last accepted. */
  ghost predicate GovernedBy(txs: seq<Tx>, s: State)
    decreases |txs|
  {
    if txs == [] then s.admin.None? && !s.paused
    else
      var before, tx := txs[..|txs| - 1], txs[|txs| - 1];
      var was := Run(before);
      GovernedBy(before, was)
      && (if Apply(was, tx).Ok? && tx.call.CallInitialize? then was.admin.None? && s.admin == Some(tx.call.admin) && !s.paused
          else if Apply(was, tx).Ok? && tx.call.CallSetPaused? then s.admin == was.admin && s.paused == tx.call.paused
          else s.admin == was.admin && s.paused == was.paused)
  }

  lemma {:induction false} RunIsGoverned(txs: seq<Tx>)
    ensures GovernedBy(txs, Run(txs))
  {
    if txs != [] {
      hide Inserted, Removed;
      RunIsGoverned(txs[..|txs| - 1]);
    }
  }

  /** When calls are accepted, in every run: registration, update and pause exactly from the signing admin,
      deregistration from the admin or the registrant; all but the pause only while not paused. */
  lemma AcceptedIff(txs: seq<Tx>, caller: Address, id: Symbol, address: Address, paused: bool, signers: set<Address>)
    ensures var s := Run(txs);
      && (Register(s, caller, id, address, signers).Ok?
          <==> !s.paused && s.admin == Some(caller) && caller in signers && id !in s.registrations && |s.names| < U32_MAX)
      && (Update(s, caller, id, address, signers).Ok? <==> !s.paused && s.admin == Some(caller) && caller in signers && id in s.registrations)
      && (Deregister(s, caller, id, signers).Ok?
          <==> !s.paused && id in s.registrations && caller in signers && (s.registrations[id].registrant == caller || s.admin == Some(caller)))
      && (SetPaused(s, paused, caller, signers).Ok? <==> s.admin == Some(caller) && caller in signers)
      && (Initialize(s, caller, signers).Ok? <==> s.admin.None? && caller in signers)
  {
    hide Run;
    RunAgrees(txs);
  }

  /** In every run an error tells the truth about the state, the caller or the arguments. */
  lemma ErrorsAreTruthful(txs: seq<Tx>, tx: Tx)
    ensures var s := Run(txs);
      Apply(s, tx).Err? ==>
        match Apply(s, tx).error
        case ContractPaused => s.paused && !tx.call.CallInitialize? && !tx.call.CallSetPaused?
        case AlreadyRegistered => tx.call.CallRegister? && tx.call.id in s.registrations
        case ContractNotFound => (tx.call.CallUpdate? || tx.call.CallDeregister?) && tx.call.id !in s.registrations
        case Overflow => tx.call.CallRegister? && s.count >= U32_MAX
        case Unauthorized =>
          (match tx.call
           case CallInitialize(_) => s.admin.Some?
           case CallDeregister(caller, id) =>
             id in s.registrations && s.registrations[id].registrant != caller && s.admin != Some(caller)
           case CallSetPaused(_, caller) => s.admin != Some(caller)
           case CallRegister(caller, _, _) => s.admin != Some(caller)
           case CallUpdate(caller, _, _) => s.admin != Some(caller))
        case Trap =>
          (match tx.call
           case CallInitialize(admin) => admin !in tx.signers
           case CallDeregister(caller, _) => caller !in tx.signers
           case CallSetPaused(_, caller) => caller !in tx.signers
           case CallRegister(caller, _, _) => caller !in tx.signers
           case CallUpdate(caller, _, _) => caller !in tx.signers)
        case InvalidRange => false
  {
    hide Run, Inserted, Removed;
  }

  // ---------------------------- paging ----------------------------

  /** A client that asks for `limit` names at a time and moves on by as many as it received. */
  function Walk(names: seq<Symbol>, limit: nat, pages: nat): seq<Symbol> {
    if pages == 0 then []
    else
      var before := Walk(names, limit, pages - 1);
      var page := Page(names, |before|, limit);
      before + (if page.Ok? then page.value else [])
  }

  /** Only a zero limit is refused; a page from the end on is empty. */
  lemma PageRefusedIff(names: seq<Symbol>, offset: nat, limit: nat)
    ensures Page(names, offset, limit) == Err(InvalidRange) <==> limit == 0
    ensures limit > 0 ==> Page(names, offset, limit).Ok? && (offset >= |names| ==> Page(names, offset, limit).value == [])
    ensures limit > 0 && offset < |names| <= U32_MAX ==>
      Page(names, offset, limit).value == names[offset..Min(|names|, offset + Min(limit, 50))]
  {
  }

  lemma PageFrom(names: seq<Symbol>, offset: nat, limit: nat)
    requires limit > 0 && offset <= |names| <= U32_MAX
    ensures Page(names, offset, limit) == Ok(names[offset..Min(|names|, offset + Min(limit, MAX_PAGE_SIZE))])
  {
  }

  /** At a fixed state the walk lists every registered name once and in order, whatever limit is asked for:
      after k pages it has the first k page sizes of the index. */
  lemma {:induction false} WalkListsAll(names: seq<Symbol>, limit: nat, pages: nat)
    requires limit > 0 && |names| <= U32_MAX
    ensures Walk(names, limit, pages) == names[..Min(|names|, pages * Min(limit, MAX_PAGE_SIZE))]
  {
    hide Walk;
    var cap := Min(limit, MAX_PAGE_SIZE);
    if pages > 0 {
      WalkListsAll(names, limit, pages - 1);
      WalkStep(names, limit, pages, Times(pages - 1, cap));
    } else {
      NoPages(names, limit);
    }
    TimesUnfolds(pages, cap);
  }

  lemma NoPages(names: seq<Symbol>, limit: nat)
    ensures Walk(names, limit, 0) == []
  {
  }

  function Times(a: nat, b: nat): nat {
    a * b
  }

  lemma TimesUnfolds(a: nat, b: nat)
    ensures a == 0 ==> a * b == 0
    ensures a > 0 ==> a * b == Times(a - 1, b) + b
  {
  }

  lemma WalkStep(names: seq<Symbol>, limit: nat, pages: nat, done: nat)
    requires limit > 0 && pages > 0 && |names| <= U32_MAX
    requires Walk(names, limit, pages - 1) == names[..Min(|names|, done)]
    ensures Walk(names, limit, pages) == names[..Min(|names|, done + Min(limit, MAX_PAGE_SIZE))]
  {
    hide Page;
    var have, next := Min(|names|, done), Min(|names|, done + Min(limit, MAX_PAGE_SIZE));
    PageFrom(names, have, limit);
    if done <= |names| {
      assert names[..have] + names[have..next] == names[..next];
    } else {
      assert names[..have] + names[have..have] == names;
    }
  }

  /** In every run, enough pages make up exactly the registered names. */
  lemma WalkFindsRegistered(txs: seq<Tx>, limit: nat, pages: nat)
    requires limit > 0 && pages * Min(limit, MAX_PAGE_SIZE) >= Run(txs).count
    ensures var w := Walk(Run(txs).names, limit, pages);
      && Ascending(w) && |w| == Run(txs).count
      && forall n :: n in w <==> n in Run(txs).registrations
  {
    hide Run, Walk, Ascending;
    RunAgrees(txs);
    WalkListsAll(Run(txs).names, limit, pages);
    assert Walk(Run(txs).names, limit, pages) == Run(txs).names;
  }
}
