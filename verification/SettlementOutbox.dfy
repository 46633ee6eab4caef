/** The durable settlement outbox: one record, one worker, split at every await, with a crash or an
    exception possible at each of them and arbitrary answers from the chain. */
module SettlementOutbox {
  import opened Types

  datatype RecordState = Active | Pending | Submitted | Confirmed | Quarantined
  datatype ChainStatus = SUCCESS | FAILED | NOT_FOUND

  /** A signed transaction. Its hash identifies it on chain. */
  datatype Envelope = Envelope(hash: int, bytes: int, expiresAt: int)

  datatype Record = Record(state: RecordState, submission: Option<int>, transaction: Option<Envelope>,
                           chainStatus: Option<ChainStatus>, failed: bool)

  /** Where the worker is suspended inside `advanceSettlement`. */
  datatype Point = Idle | Preparing | SavingPrepared | AskingStatus | SavingStatus | Sending | AskingAgain | SavingEnd

  /** `stored` survives crashes, `held` is the object in the worker's memory. `broadcast` and `reported`
      are what the chain has seen and said, in order. */
  datatype World = World(stored: Record, held: Option<Record>, at: Point,
                         broadcast: seq<Envelope>, reported: seq<(int, ChainStatus)>)

  predicate Final(s: RecordState) {
    s == Confirmed || s == Quarantined
  }

  // ---------------------------- the code between two awaits ----------------------------

  /** What the first status answer does to the record, and where the worker goes next. */
  function OnStatus(r: Record, status: ChainStatus, now: int): (Record, Point)
    requires r.transaction.Some?
  {
    var seen := r.(chainStatus := Some(status));
    match status
    case SUCCESS => (seen.(state := Confirmed, failed := false), SavingEnd)
    case FAILED => (seen.(state := Quarantined, failed := true), SavingEnd)
    case NOT_FOUND =>
      if now >= r.transaction.value.expiresAt then (seen.(state := Quarantined, failed := true), SavingEnd)
      else (seen, SavingStatus)
  }

  /** What the status answer after the broadcast does. */
  function OnStatusAgain(r: Record, status: ChainStatus): Record {
    var seen := r.(chainStatus := Some(status));
    match status
    case SUCCESS => seen.(state := Confirmed, failed := false)
    case FAILED => seen.(state := Quarantined, failed := true)
    case NOT_FOUND => seen
  }

  function AfterSave(p: Point): Point {
    match p
    case SavingPrepared => AskingStatus
    case SavingStatus => Sending
    case _ => Idle
  }

  predicate IsSave(p: Point) {
    p == SavingPrepared || p == SavingStatus || p == SavingEnd
  }

  // ---------------------------- steps ----------------------------

  datatype Step =
    | Ready(submission: int)                       // a verified result is written to a waiting record
    | Load                                         // the worker reads the record from the store
    | Begin                                        // advanceSettlement is called on the record in memory
    | Prepared(envelope: Envelope)                 // client.prepare returned
    | Answered(status: ChainStatus, now: int)      // client.status returned
    | Saved                                        // store.save returned
    | Sent                                         // client.send returned
    | Threw(effect: bool)                          // the awaited call threw; a save or send may have taken effect
    | Crash(effect: bool)                          // the process died; a save or send may have taken effect

  /** The durable and outside effect of the pending call, when it takes place. */
  function Effect(w: World): World {
    if w.held.None? then w
    else if IsSave(w.at) then w.(stored := w.held.value)
    else if w.at == Sending && w.held.value.transaction.Some? then w.(broadcast := w.broadcast + [w.held.value.transaction.value])
    else w
  }

  /** One step; a step that is not possible where the worker stands changes nothing. */
  function Next(w: World, step: Step): World {
    match step
    case Ready(submission) =>
      if w.held.None? && w.at == Idle && w.stored.state == Active && w.stored.transaction.None?
      then w.(stored := w.stored.(submission := Some(submission), state := Pending))
      else w
    case Load => if w.at == Idle then w.(held := Some(w.stored)) else w
    case Crash(effect) => (if effect then Effect(w) else w).(held := None, at := Idle)
    case _ => if w.held.None? then w else Work(w, w.held.value, step)
  }

  /** A step of `advanceSettlement` on the record in memory. */
  function Work(w: World, r: Record, step: Step): World
    requires w.held == Some(r)
  {
    match step
    case Begin =>
      if w.at != Idle || Final(r.state) || r.submission.None? then w
      else w.(at := if r.transaction.None? then Preparing else AskingStatus)
    case Prepared(envelope) =>
      if w.at != Preparing then w
      else w.(held := Some(r.(transaction := Some(envelope), state := Submitted)), at := SavingPrepared)
    case Answered(status, now) =>
      if r.transaction.None? then w
      else
        var said := w.(reported := w.reported + [(r.transaction.value.hash, status)]);
        if w.at == AskingStatus then said.(held := Some(OnStatus(r, status, now).0), at := OnStatus(r, status, now).1)
        else if w.at == AskingAgain then said.(held := Some(OnStatusAgain(r, status)), at := SavingEnd)
        else w
    case Saved => if IsSave(w.at) then Effect(w).(at := AfterSave(w.at)) else w
    case Sent => if w.at == Sending then Effect(w).(at := AskingAgain) else w
    case Threw(effect) => if w.at == Idle then w else (if effect then Effect(w) else w).(at := Idle)
    case _ => w
  }

  function Run(w: World, steps: seq<Step>): World {
    if steps == [] then w else Next(Run(w, steps[..|steps| - 1]), steps[|steps| - 1])
  }

  /** A record as `enqueue` writes it. */
  const ENQUEUED := World(Record(Active, None, None, None, false), None, Idle, [], [])

  // ---------------------------- safety ----------------------------

  predicate Confirmable(w: World, r: Record) {
    r.state == Confirmed ==> r.transaction.Some? && (r.transaction.value.hash, SUCCESS) in w.reported
  }

  predicate Inv(w: World) {
    && (forall e :: e in w.broadcast ==> w.stored.transaction == Some(e))
    && Confirmable(w, w.stored)
    && (w.stored.transaction.Some? ==> w.stored.submission.Some?)
    && (Final(w.stored.state) ==> w.stored.transaction.Some?)
    && (w.held.None? ==> w.at == Idle)
    && (w.held.Some? ==>
         var r := w.held.value;
         && Confirmable(w, r)
         && (w.stored.transaction.Some? ==> r.transaction == w.stored.transaction)
         && (Final(w.stored.state) ==> r.state == w.stored.state)
         && (Final(r.state) ==> r.transaction.Some?)
         && (w.at !in {Idle, SavingEnd} ==> !Final(r.state))
         && (w.at == Preparing ==> r.transaction.None?)
         && (w.at !in {Idle, Preparing} ==> r.transaction.Some?)
         && (w.at != Idle || r.transaction.Some? ==> r.submission.Some?)
         && (w.at in {Sending, AskingAgain} ==> w.stored.transaction == r.transaction))
  }

  lemma StepKeepsInv(w: World, step: Step)
    requires Inv(w)
    ensures Inv(Next(w, step))
  {
    ReportsGrow(w, step);
    if w.held.Some? && !step.Ready? && !step.Load? && !step.Crash? {
      hide Work, Inv;
      WorkKeepsInv(w, w.held.value, step);
    }
  }

  lemma WorkKeepsInv(w: World, r: Record, step: Step)
    requires Inv(w) && w.held == Some(r)
    ensures Inv(Work(w, r, step))
  {
  }

  lemma ReportsGrow(w: World, step: Step)
    ensures forall x :: x in w.reported ==> x in Next(w, step).reported
  {
  }

  lemma {:induction false} RunKeepsInv(w: World, steps: seq<Step>)
    requires Inv(w)
    ensures Inv(Run(w, steps))
  {
    if steps != [] {
      RunKeepsInv(w, steps[..|steps| - 1]);
      StepKeepsInv(Run(w, steps[..|steps| - 1]), steps[|steps| - 1]);
    }
  }

  /** However the worker is interrupted and whatever the chain answers, every envelope ever broadcast is
      the one in the store, so no two broadcasts differ. */
  lemma OneEnvelopeIsBroadcast(steps: seq<Step>, i: nat, j: nat)
    requires i < |Run(ENQUEUED, steps).broadcast| && j < |Run(ENQUEUED, steps).broadcast|
    ensures var w := Run(ENQUEUED, steps);
      && w.stored.transaction == Some(w.broadcast[i])
      && w.broadcast[i] == w.broadcast[j]
  {
    RunKeepsInv(ENQUEUED, steps);
    var w := Run(ENQUEUED, steps);
    assert w.broadcast[i] in w.broadcast && w.broadcast[j] in w.broadcast;
  }

  /** The envelope was already durable at the moment it went out. */
  lemma DurableBeforeBroadcast(steps: seq<Step>, step: Step)
    requires var w := Run(ENQUEUED, steps); Next(w, step).broadcast != w.broadcast
    ensures var w := Run(ENQUEUED, steps);
      && w.stored.transaction.Some? && !Final(w.stored.state)
      && Next(w, step).broadcast == w.broadcast + [w.stored.transaction.value]
  {
    RunKeepsInv(ENQUEUED, steps);
  }

  /** Confirmed is stored only after the chain reported SUCCESS for that very transaction. */
  lemma ConfirmedWasReported(steps: seq<Step>)
    requires Run(ENQUEUED, steps).stored.state == Confirmed
    ensures var w := Run(ENQUEUED, steps);
      w.stored.transaction.Some? && (w.stored.transaction.value.hash, SUCCESS) in w.reported
  {
    RunKeepsInv(ENQUEUED, steps);
  }

  lemma {:induction false} RunSplits(w: World, a: seq<Step>, b: seq<Step>)
    ensures Run(w, a + b) == Run(Run(w, a), b)
  {
    if b == [] {
      assert a + b == a;
    } else {
      assert (a + b)[..|a + b| - 1] == a + b[..|b| - 1];
      RunSplits(w, a, b[..|b| - 1]);
    }
  }

  lemma {:induction false} FinalIsForever(w: World, steps: seq<Step>)
    requires Inv(w) && Final(w.stored.state)
    ensures Run(w, steps).stored.state == w.stored.state && Run(w, steps).stored.transaction == w.stored.transaction
    ensures Run(w, steps).broadcast == w.broadcast
  {
    RunKeepsInv(w, steps);
    if steps != [] {
      FinalIsForever(w, steps[..|steps| - 1]);
      RunKeepsInv(w, steps[..|steps| - 1]);
      FinalStep(Run(w, steps[..|steps| - 1]), steps[|steps| - 1]);
    }
  }

  lemma FinalStep(w: World, step: Step)
    requires Inv(w) && Final(w.stored.state)
    ensures Next(w, step).stored.state == w.stored.state && Next(w, step).broadcast == w.broadcast
    ensures Next(w, step).stored.transaction == w.stored.transaction
  {
  }

  /** Once a terminal state is stored it stays, and nothing is broadcast any more. */
  lemma NothingAfterFinal(before: seq<Step>, after: seq<Step>)
    requires Final(Run(ENQUEUED, before).stored.state)
    ensures Run(ENQUEUED, before + after).stored.state == Run(ENQUEUED, before).stored.state
    ensures Run(ENQUEUED, before + after).broadcast == Run(ENQUEUED, before).broadcast
  {
    RunKeepsInv(ENQUEUED, before);
    RunSplits(ENQUEUED, before, after);
    FinalIsForever(Run(ENQUEUED, before), after);
  }

  // ---------------------------- the code as one call ----------------------------

  /** How an awaited call ends: with a value, with an exception, or with the process. */
  datatype Await<T> = Returned(value: T) | Raised(effect: bool) | Died(effect: bool)

  /** Everything the surroundings decide during one call. */
  datatype Environment = Environment(
    prepare: Await<Envelope>, savePrepared: Await<()>, status: Await<ChainStatus>, now: int,
    saveStatus: Await<()>, send: Await<()>, statusAgain: Await<ChainStatus>, saveEnd: Await<()>)

  function Ended<T>(a: Await<T>, step: Step): Step {
    match a
    case Returned(_) => step
    case Raised(effect) => Threw(effect)
    case Died(effect) => Crash(effect)
  }

  /** The step that the surroundings answer with at each await. */
  function Answer(env: Environment, at: Point): Step {
    match at
    case Idle => Load
    case Preparing => Ended(env.prepare, if env.prepare.Returned? then Prepared(env.prepare.value) else Load)
    case SavingPrepared => Ended(env.savePrepared, Saved)
    case AskingStatus => Ended(env.status, if env.status.Returned? then Answered(env.status.value, env.now) else Load)
    case SavingStatus => Ended(env.saveStatus, Saved)
    case Sending => Ended(env.send, Sent)
    case AskingAgain => Ended(env.statusAgain, if env.statusAgain.Returned? then Answered(env.statusAgain.value, env.now) else Load)
    case SavingEnd => Ended(env.saveEnd, Saved)
  }

  /** The call is played out until the worker is idle again. */
  function Play(w: World, env: Environment, n: nat): World
    decreases n
  {
    if n == 0 || w.at == Idle then w else Play(Next(w, Answer(env, w.at)), env, n - 1)
  }

  /** Playing out a call is a run of the step system, so everything proved of runs holds inside it. */
  lemma {:induction false} PlayIsARun(w: World, env: Environment, n: nat)
    ensures exists steps: seq<Step> :: Run(w, steps) == Play(w, env, n)
    decreases n
  {
    if n == 0 || w.at == Idle {
      assert Run(w, []) == w;
    } else {
      var step := Answer(env, w.at);
      PlayIsARun(Next(w, step), env, n - 1);
      var rest: seq<Step> :| Run(Next(w, step), rest) == Play(Next(w, step), env, n - 1);
      assert [step][..0] == [];
      assert Run(w, [step]) == Next(Run(w, []), step);
      RunSplits(w, [step], rest);
      assert Run(w, [step] + rest) == Play(w, env, n);
    }
  }

  // ---------------------------- what one call achieves ----------------------------

  /** Nothing the call awaits throws or dies. */
  predicate AllReturn(env: Environment) {
    && env.prepare.Returned? && env.savePrepared.Returned? && env.status.Returned? && env.saveStatus.Returned?
    && env.send.Returned? && env.statusAgain.Returned? && env.saveEnd.Returned?
  }

  /** The outcome of a call on record `r` in which everything returns, by the answers of the chain alone. */
  ghost predicate Settled(r: Record, env: Environment, before: World, after: World)
    requires AllReturn(env)
  {
    var envelope := if r.transaction.Some? then r.transaction.value else env.prepare.value;
    var unprepared := if r.transaction.Some? then r.state else Submitted;
    var first, again := env.status.value, env.statusAgain.value;
    var open := first == NOT_FOUND && env.now < envelope.expiresAt;
    && after.at == Idle && after.held == Some(after.stored)
    && after.stored.transaction == Some(envelope) && after.stored.submission == r.submission
    // only an open question is broadcast, once, and asked again
    && after.broadcast == before.broadcast + (if open then [envelope] else [])
    && after.reported == before.reported + [(envelope.hash, first)] + (if open then [(envelope.hash, again)] else [])
    && after.stored.chainStatus == Some(if open then again else first)
    && (first == SUCCESS || (open && again == SUCCESS) ==> after.stored.state == Confirmed && !after.stored.failed)
    && (first == FAILED || (open && again == FAILED) ==> after.stored.state == Quarantined && after.stored.failed)
    && (first == NOT_FOUND && env.now >= envelope.expiresAt ==> after.stored.state == Quarantined && after.stored.failed)
    && (open && again == NOT_FOUND ==> after.stored.state == unprepared && after.stored.failed == r.failed)
  }

  lemma Unfold(w: World, env: Environment, n: nat)
    ensures w.at == Idle ==> Play(w, env, n) == w
    ensures w.at != Idle && n > 0 ==> Play(w, env, n) == Play(Next(w, Answer(env, w.at)), env, n - 1)
  {
  }

  /** Where the call stands once the envelope is durable. */
  ghost predicate Asking(w: World, r: Record, env: Environment, before: World) {
    && w.at == AskingStatus && w.broadcast == before.broadcast && w.reported == before.reported
    && w.held.Some?
    && var h := w.held.value;
       && h.submission == r.submission && h.failed == r.failed
       && (r.transaction.Some? ==> h == r)
       && (r.transaction.None? && env.prepare.Returned? ==> h.transaction == Some(env.prepare.value) && h.state == Submitted)
  }

  lemma CallReachesStatus(w: World, env: Environment) returns (n: nat)
    requires w.at == Idle && w.held.Some? && AllReturn(env)
    requires !Final(w.held.value.state) && w.held.value.submission.Some?
    ensures n >= 5
    ensures exists asking :: Asking(asking, w.held.value, env, w) && Play(Next(w, Begin), env, 7) == Play(asking, env, n)
  {
    hide Play;
    var r := w.held.value;
    var begun := Next(w, Begin);
    if r.transaction.Some? {
      assert Asking(begun, r, env, w);
      n := 7;
    } else {
      Unfold(begun, env, 7);
      var prepared := Next(begun, Answer(env, begun.at));
      Unfold(prepared, env, 6);
      var saved := Next(prepared, Answer(env, prepared.at));
      assert Asking(saved, r, env, w);
      n := 5;
    }
  }

  lemma StatusSettles(w: World, r: Record, env: Environment, before: World, n: nat)
    requires AllReturn(env) && Asking(w, r, env, before) && n >= 5
    ensures Settled(r, env, before, Play(w, env, n))
  {
    hide Play, Settled;
    Unfold(w, env, n);
    var answered := Next(w, Answer(env, w.at));
    if answered.at == SavingEnd {
      ClosedSettles(w, r, env, before, n);
    } else {
      OpenSettles(w, r, env, before, n);
    }
  }

  lemma ClosedSettles(w: World, r: Record, env: Environment, before: World, n: nat)
    requires AllReturn(env) && Asking(w, r, env, before) && n >= 5 && Next(w, Answer(env, w.at)).at == SavingEnd
    ensures Settled(r, env, before, Play(Next(w, Answer(env, w.at)), env, n - 1))
  {
    hide Play;
    var answered := Next(w, Answer(env, w.at));
    Unfold(answered, env, n - 1);
    Unfold(Next(answered, Answer(env, answered.at)), env, n - 2);
  }

  /** The envelope is broadcast and the chain is asked again. */
  lemma OpenSettles(w: World, r: Record, env: Environment, before: World, n: nat)
    requires AllReturn(env) && Asking(w, r, env, before) && n >= 5 && Next(w, Answer(env, w.at)).at != SavingEnd
    ensures Settled(r, env, before, Play(Next(w, Answer(env, w.at)), env, n - 1))
  {
    hide Play, Settled;
    var answered := Next(w, Answer(env, w.at));
    Unfold(answered, env, n - 1);
    var saved := Next(answered, Answer(env, answered.at));
    Unfold(saved, env, n - 2);
    var sent := Next(saved, Answer(env, saved.at));
    Unfold(sent, env, n - 3);
    var again := Next(sent, Answer(env, sent.at));
    assert Again(w, r, env, before, again);
    AgainSettles(w, r, env, before, again, n - 4);
  }

  /** What the second answer leaves in memory, with the broadcast done. */
  ghost predicate Again(w: World, r: Record, env: Environment, before: World, again: World)
    requires AllReturn(env) && Asking(w, r, env, before)
  {
    && again.at == SavingEnd && again.held.Some?
    && w.held.value.transaction.Some? && env.status.value == NOT_FOUND && env.now < w.held.value.transaction.value.expiresAt
    && var h, envelope := again.held.value, w.held.value.transaction.value;
       && h.transaction == w.held.value.transaction && h.submission == r.submission && h.chainStatus == Some(env.statusAgain.value)
       && again.broadcast == before.broadcast + [envelope]
       && again.reported == before.reported + [(envelope.hash, NOT_FOUND)] + [(envelope.hash, env.statusAgain.value)]
       && match env.statusAgain.value
          case SUCCESS => h.state == Confirmed && !h.failed
          case FAILED => h.state == Quarantined && h.failed
          case NOT_FOUND => h.state == w.held.value.state && h.failed == r.failed
  }

  lemma AgainSettles(w: World, r: Record, env: Environment, before: World, again: World, n: nat)
    requires AllReturn(env) && Asking(w, r, env, before) && Again(w, r, env, before, again) && n >= 1
    ensures Settled(r, env, before, Play(again, env, n))
  {
    hide Play;
    Unfold(again, env, n);
    Unfold(Next(again, Answer(env, again.at)), env, n - 1);
  }

  /** Settlement: a call on an unsettled record with a submission, in which everything returns, confirms on
      SUCCESS, quarantines on FAILED and on an expired NOT_FOUND without broadcasting, and on an unexpired
      NOT_FOUND broadcasts the stored envelope once and stores the outcome of the second answer. */
  lemma CallSettles(w: World, env: Environment)
    requires w.at == Idle && w.held.Some? && AllReturn(env)
    requires !Final(w.held.value.state) && w.held.value.submission.Some?
    ensures Settled(w.held.value, env, w, Play(Next(w, Begin), env, 7))
  {
    hide Play, Next, Settled, Asking;
    var n := CallReachesStatus(w, env);
    var asking :| Asking(asking, w.held.value, env, w) && Play(Next(w, Begin), env, 7) == Play(asking, env, n);
    StatusSettles(asking, w.held.value, env, w, n);
  }

  /** A call on a settled record, or on one without a submission, does nothing at all. */
  lemma NothingToSettle(w: World, env: Environment)
    requires w.at == Idle && w.held.Some? && (w.held.value.state in {Confirmed, Quarantined} || w.held.value.submission.None?)
    ensures Play(Next(w, Begin), env, 7) == w
  {
  }

  /** A waiting record that becomes ready is stored as pending with its submission, and the first call on it,
      in which everything returns, prepares an envelope and settles. */
  lemma ReadySettles(submission: int, env: Environment)
    requires AllReturn(env)
    ensures var w := Run(ENQUEUED, [Ready(submission), Load]);
      && w.stored == Record(Pending, Some(submission), None, None, false)
      && w.held == Some(w.stored) && w.at == Idle
      && Settled(w.stored, env, w, Play(Next(w, Begin), env, 7))
  {
    hide Play, Settled;
    RunSteps([], Ready(submission));
    RunSteps([Ready(submission)], Load);
    assert [] + [Ready(submission)] == [Ready(submission)];
    assert [Ready(submission)] + [Load] == [Ready(submission), Load];
    CallSettles(Run(ENQUEUED, [Ready(submission), Load]), env);
  }

  /** Only a waiting record that nobody holds and that has no envelope can become ready. */
  lemma ReadyOnlyOnce(steps: seq<Step>, submission: int)
    ensures var w := Run(ENQUEUED, steps);
      Next(w, Ready(submission)) != w ==> w.held.None? && w.stored.state == Active && w.stored.transaction.None?
  {
  }

  /** Recovery: wherever the process dies, a save or send under way counts or not; nothing is kept in memory, and
      a call on the record read back from the store, in which everything returns, settles it. */
  lemma RecoverySettles(steps: seq<Step>, effect: bool, env: Environment)
    requires AllReturn(env)
    ensures var w := Run(ENQUEUED, steps + [Crash(effect), Load]);
      && w.held == Some(w.stored) && w.at == Idle
      && w.stored == Run(ENQUEUED, steps + [Crash(effect)]).stored
      && Run(ENQUEUED, steps + [Crash(effect)]).held == None
      && (!Final(w.stored.state) && w.stored.submission.Some? ==> Settled(w.stored, env, w, Play(Next(w, Begin), env, 7)))
  {
    hide Play, Settled, Run;
    var crashed := steps + [Crash(effect)];
    RunSteps(steps, Crash(effect));
    RunSteps(crashed, Load);
    assert crashed + [Load] == steps + [Crash(effect), Load];
    var w := Run(ENQUEUED, crashed + [Load]);
    if !Final(w.stored.state) && w.stored.submission.Some? {
      CallSettles(w, env);
    }
  }

  lemma RunSteps(steps: seq<Step>, step: Step)
    ensures Run(ENQUEUED, steps + [step]) == Next(Run(ENQUEUED, steps), step)
  {
    assert (steps + [step])[..|steps|] == steps;
  }

  /** After an exception the worker is idle with the same record in memory, and the next call, in which everything
      returns, settles what is in memory. */
  lemma RetrySettles(steps: seq<Step>, effect: bool, env: Environment)
    requires AllReturn(env) && Run(ENQUEUED, steps).held.Some?
    ensures var before, w := Run(ENQUEUED, steps), Run(ENQUEUED, steps + [Threw(effect)]);
      && w.held == before.held && w.at == Idle
      && (!Final(w.held.value.state) && w.held.value.submission.Some? ==> Settled(w.held.value, env, w, Play(Next(w, Begin), env, 7)))
  {
    hide Play, Settled, Run;
    RunSteps(steps, Threw(effect));
    var w := Run(ENQUEUED, steps + [Threw(effect)]);
    if !Final(w.held.value.state) && w.held.value.submission.Some? {
      CallSettles(w, env);
    }
  }

  class Worker {
    var stored: Record
    var held: Option<Record>
    var broadcast: seq<Envelope>
    var reported: seq<(int, ChainStatus)>

    constructor ()
      ensures Now() == ENQUEUED
    {
      stored, held, broadcast, reported := Record(Active, None, None, None, false), None, [], [];
    }

    function Now(): World
      reads this
    {
      At(Idle)
    }

    /** The world while the worker is suspended at `p`. */
    function At(p: Point): World
      reads this
    {
      World(stored, held, p, broadcast, reported)
    }

    /** `store.save(record)`, awaited at `p`. */
    method Save(p: Point, answer: Await<()>) returns (ok: bool)
      requires held.Some? && IsSave(p)
      modifies this`stored, this`held
      ensures ok ==> held == old(held)
      ensures At(if ok then AfterSave(p) else Idle) == Next(old(At(p)), Ended(answer, Saved))
    {
      if answer.Returned? || answer.effect {
        stored := held.value;
      }
      if answer.Died? {
        held := None;
      }
      return answer.Returned?;
    }

    /** `client.prepare(record.submission)` */
    method Prepare(answer: Await<Envelope>) returns (ok: bool)
      requires held.Some?
      modifies this`held
      ensures ok ==> held.Some? && held.value.transaction.Some?
      ensures At(if ok then SavingPrepared else Idle)
           == Next(old(At(Preparing)), Ended(answer, if answer.Returned? then Prepared(answer.value) else Load))
    {
      if answer.Died? {
        held := None;
      }
      if !answer.Returned? {
        return false;
      }
      held := Some(held.value.(transaction := Some(answer.value), state := Submitted));
      return true;
    }

    /** `client.status(hash)` and the branches on its answer. */
    method AskStatus(answer: Await<ChainStatus>, now: int) returns (ok: bool, next: Point)
      requires held.Some? && held.value.transaction.Some?
      modifies this`held, this`reported
      ensures ok ==> held.Some? && held.value.transaction.Some? && next in {SavingStatus, SavingEnd}
      ensures At(if ok then next else Idle)
           == Next(old(At(AskingStatus)), Ended(answer, if answer.Returned? then Answered(answer.value, now) else Load))
    {
      ok, next := false, Idle;
      if answer.Died? {
        held := None;
      }
      if !answer.Returned? {
        return;
      }
      var record := held.value.(chainStatus := Some(answer.value));
      var tx := record.transaction.value;
      reported := reported + [(tx.hash, answer.value)];
      ok, next := true, SavingEnd;
      if answer.value == SUCCESS {
        record := record.(state := Confirmed, failed := false);
      } else if answer.value == FAILED {
        record := record.(state := Quarantined, failed := true);
      } else if now >= tx.expiresAt {
        record := record.(state := Quarantined, failed := true);
      } else {
        next := SavingStatus;
      }
      held := Some(record);
    }

    /** `client.send(envelope)` */
    method Send(answer: Await<()>) returns (ok: bool)
      requires held.Some? && held.value.transaction.Some?
      modifies this`held, this`broadcast
      ensures ok ==> held == old(held)
      ensures At(if ok then AskingAgain else Idle) == Next(old(At(Sending)), Ended(answer, Sent))
    {
      if answer.Returned? || answer.effect {
        broadcast := broadcast + [held.value.transaction.value];
      }
      if answer.Died? {
        held := None;
      }
      return answer.Returned?;
    }

    /** The second `client.status(hash)`, after the broadcast. */
    method AskAgain(answer: Await<ChainStatus>, now: int) returns (ok: bool)
      requires held.Some? && held.value.transaction.Some?
      modifies this`held, this`reported
      ensures ok ==> held.Some?
      ensures At(if ok then SavingEnd else Idle)
           == Next(old(At(AskingAgain)), Ended(answer, if answer.Returned? then Answered(answer.value, now) else Load))
    {
      if answer.Died? {
        held := None;
      }
      if !answer.Returned? {
        return false;
      }
      var record := held.value.(chainStatus := Some(answer.value));
      reported := reported + [(record.transaction.value.hash, answer.value)];
      if answer.value == SUCCESS {
        record := record.(state := Confirmed, failed := false);
      }
      if answer.value == FAILED {
        record := record.(state := Quarantined, failed := true);
      }
      held := Some(record);
      return true;
    }

    method AdvanceSettlement(env: Environment)
      requires held.Some?
      modifies this
      ensures Now() == Play(Next(old(Now()), Begin), env, 7)
      ensures AllReturn(env) && old(held.value.submission).Some? && old(held.value.state) !in {Confirmed, Quarantined} ==>
        Settled(old(held.value), env, old(Now()), Now())
      ensures old(held.value.submission).None? || old(held.value.state) in {Confirmed, Quarantined} ==> Now() == old(Now())
    {
      hide Settled;
      if AllReturn(env) && held.value.submission.Some? && held.value.state !in {Confirmed, Quarantined} {
        CallSettles(Now(), env);
      }
      var record := held.value;
      if record.state == Confirmed || record.state == Quarantined || record.submission.None? {
        return;
      }
      ghost var n := 7;
      var ok: bool;
      if record.transaction.None? {
        Unfold(At(Preparing), env, 7);
        ok := Prepare(env.prepare);
        Unfold(At(if ok then SavingPrepared else Idle), env, 6);
        if !ok {
          return;
        }
        ok := Save(SavingPrepared, env.savePrepared);
        n := 5;
        if !ok {
          Unfold(At(Idle), env, 5);
          return;
        }
      }
      assert Play(At(AskingStatus), env, n) == Play(Next(old(Now()), Begin), env, 7);
      Finish(env, n);
    }

    /** The rest of the call, from the first status query on. */
    method Finish(env: Environment, ghost n: nat)
      requires held.Some? && held.value.transaction.Some? && n >= 5
      modifies this
      ensures Now() == Play(old(At(AskingStatus)), env, n)
    {
      hide Play, Next;
      Unfold(At(AskingStatus), env, n);
      var ok, next := AskStatus(env.status, env.now);
      Unfold(At(if ok then next else Idle), env, n - 1);
      if !ok {
        return;
      }
      ghost var left := n - 1;
      if next == SavingStatus {
        ok := Save(SavingStatus, env.saveStatus);
        Unfold(At(if ok then Sending else Idle), env, n - 2);
        if !ok {
          return;
        }
        ok := Send(env.send);
        Unfold(At(if ok then AskingAgain else Idle), env, n - 3);
        if !ok {
          return;
        }
        ok := AskAgain(env.statusAgain, env.now);
        Unfold(At(if ok then SavingEnd else Idle), env, n - 4);
        if !ok {
          return;
        }
        left := n - 4;
      }
      ok := Save(SavingEnd, env.saveEnd);
      Unfold(At(Idle), env, left - 1);
    }
  }
}
