/**
  The Agent's durable update receipt: its contract, its transition table and the store that
  rewrites one receipt file per task under a lock.
 */
module Receipts {
  import opened Common
  import opened Formats

  const SCHEMA_VERSION := 1

  datatype Phase = Prepared | MutationStarted | Succeeded | Failed | OutcomeUnknown {
    predicate Terminal() { Succeeded? || Failed? || OutcomeUnknown? }
  }

  datatype Receipt = Receipt(
    schemaVersion: int,
    taskId: string,
    targetVersion: string,
    phase: Phase,
    mutationStarted: bool,
    code: string,
    createdAt: int,
    updatedAt: int)

  predicate AllowedTransition(from: Phase, to: Phase) {
    match from
    case Prepared => to.MutationStarted? || to.Failed?
    case MutationStarted => to.Terminal()
    case _ => false
  }

  predicate Contract(r: Receipt, taskId: string) {
    && r.schemaVersion == SCHEMA_VERSION
    && r.taskId == taskId
    && ValidVersion(r.targetVersion)
    && 0 < r.createdAt <= r.updatedAt
    && match r.phase
       case Prepared => !r.mutationStarted && r.code == ""
       case MutationStarted => r.mutationStarted && r.code == ""
       case Succeeded => r.mutationStarted && r.code == ""
       case Failed => ReceiptCode(r.code)
       case OutcomeUnknown => r.mutationStarted && ReceiptCode(r.code)
  }

  /** The receipt a task starts with. */
  function Fresh(taskId: string, targetVersion: string, now: Instant): Receipt {
    Receipt(SCHEMA_VERSION, taskId, targetVersion, Prepared, false, "", now, now)
  }

  /** The record a transition is about to write, or the reason it refuses. */
  function Transit(r: Receipt, taskId: string, phase: Phase, started: bool, code: string, now: Instant): Result<Receipt> {
    if !AllowedTransition(r.phase, phase) then Err("invalid receipt transition")
    else if r.mutationStarted && !started then Err("mutation-started evidence cannot be cleared")
    else if phase.Failed? && started && !r.phase.MutationStarted? then Err("post-dispatch failure requires mutation_started")
    else if phase.Failed? && !started && !r.phase.Prepared? then Err("pre-dispatch failure requires prepared")
    else
      var next := r.(phase := phase, mutationStarted := started, code := code, updatedAt := now);
      if Contract(next, taskId) then Ok(next) else Err("receipt contract is invalid")
  }

  /** How a creating write ended: an error may leave the linked receipt or take it away again. */
  datatype CreateOutcome = Created | NoEffect | KeptWithError | UndoneWithError

  datatype Write = Write(stored: Option<Receipt>, reply: Result<Receipt>)

  /** One locked read-modify-write of the stored receipt. */
  function StoreTransit(stored: Option<Receipt>, taskId: string, phase: Phase, started: bool, code: string,
                        now: Instant, readFault: bool, io: WriteOutcome): (w: Write)
  {
    if readFault || stored.None? then Write(stored, Err("read receipt"))
    else
      match Transit(stored.value, taskId, phase, started, code, now)
      case Err(e) => Write(stored, Err(e))
      case Ok(next) =>
        match io
        case Durable => Write(Some(next), Ok(next))
        case LostBeforeRename => Write(stored, Err("write receipt"))
        case ErrorAfterRename => Write(Some(next), Err("sync receipt directory"))
  }

  /** Which requests a stored receipt accepts; the last conjunct is a clock that has not run backwards. */
  predicate Accepts(r: Receipt, phase: Phase, started: bool, code: string, now: Instant) {
    && r.createdAt <= now
    && match phase
       case Prepared => false
       case MutationStarted => r.phase.Prepared? && started && code == ""
       case Succeeded => r.phase.MutationStarted? && started && code == ""
       case Failed => ReceiptCode(code) && (if started then r.phase.MutationStarted? else r.phase.Prepared?)
       case OutcomeUnknown => r.phase.MutationStarted? && started && ReceiptCode(code)
  }

  /** The guards of the transition, taken together, are exactly the acceptance table. */
  lemma TransitExact(r: Receipt, taskId: string, phase: Phase, started: bool, code: string, now: Instant)
    requires Contract(r, taskId)
    ensures Transit(r, taskId, phase, started, code, now).Ok? <==> Accepts(r, phase, started, code, now)
  {
  }

  /** Every stored receipt is in contract, never loses its evidence and never leaves a terminal phase. */
  ghost predicate Monotone(before: Option<Receipt>, after: Option<Receipt>) {
    before.Some? ==>
      && after.Some?
      && after.value.taskId == before.value.taskId
      && after.value.targetVersion == before.value.targetVersion
      && after.value.createdAt == before.value.createdAt
      && (before.value.mutationStarted ==> after.value.mutationStarted)
      && (before.value.phase.Terminal() ==> after == before)
      && (after.value.phase.Prepared? ==> before.value.phase.Prepared?)
  }

  lemma StoreTransitMonotone(stored: Option<Receipt>, taskId: string, phase: Phase, started: bool, code: string,
                             now: Instant, readFault: bool, io: WriteOutcome)
    requires stored.Some? ==> Contract(stored.value, taskId)
    ensures var w := StoreTransit(stored, taskId, phase, started, code, now, readFault, io);
            && Monotone(stored, w.stored)
            && (w.stored.Some? ==> Contract(w.stored.value, taskId))
            && (w.stored.Some? <==> stored.Some?)
            && (w.reply.Ok? ==> w.stored == Some(w.reply.value) && w.reply.value.phase == phase
                                && w.reply.value.mutationStarted == started && w.reply.value.code == code
                                && Accepts(stored.value, phase, started, code, now))
  {
    if stored.Some? { TransitExact(stored.value, taskId, phase, started, code, now); }
  }

  /** The receipt after an accepted request. */
  function Advanced(r: Receipt, phase: Phase, started: bool, code: string, now: Instant): Receipt {
    Receipt(1, r.taskId, r.targetVersion, phase, started, code, r.createdAt, now)
  }

  /** A request is answered exactly if it is readable, acceptable and durable; the receipt moves on unless the write was lost. */
  ghost predicate Moved(stored: Option<Receipt>, phase: Phase, started: bool, code: string, now: Instant, readFault: bool, io: WriteOutcome, w: Write) {
    var accepted := !readFault && stored.Some? && Accepts(stored.value, phase, started, code, now);
    && (w.reply.Ok? <==> accepted && io.Durable?)
    && w.stored == (if accepted && !io.LostBeforeRename? then Some(Advanced(stored.value, phase, started, code, now)) else stored)
    && (w.reply.Ok? ==> Some(w.reply.value) == w.stored)
  }

  lemma TransitContract(stored: Option<Receipt>, taskId: string, phase: Phase, started: bool, code: string, now: Instant)
    ensures stored.Some? && Transit(stored.value, taskId, phase, started, code, now).Ok? ==>
              Contract(Transit(stored.value, taskId, phase, started, code, now).value, taskId)
  {
  }

  lemma OrphanedCode()
    ensures ReceiptCode(ORPHANED)
  {
  }

  lemma StoreTransitExact(stored: Option<Receipt>, taskId: string, phase: Phase, started: bool, code: string,
                          now: Instant, readFault: bool, io: WriteOutcome)
    requires stored.Some? ==> Contract(stored.value, taskId)
    ensures Moved(stored, phase, started, code, now, readFault, io, StoreTransit(stored, taskId, phase, started, code, now, readFault, io))
  {
    if stored.Some? { TransitExact(stored.value, taskId, phase, started, code, now); }
  }

  /** One request to the store, with the answers of the clock and the disk. */
  datatype Request = Request(phase: Phase, started: bool, code: string, now: Instant, readFault: bool, io: WriteOutcome)

  function StoreRun(stored: Option<Receipt>, taskId: string, requests: seq<Request>): (r: Option<Receipt>)
    decreases |requests|
  {
    if requests == [] then stored
    else
      var q := requests[0];
      StoreRun(StoreTransit(stored, taskId, q.phase, q.started, q.code, q.now, q.readFault, q.io).stored, taskId, requests[1..])
  }

  /** Over any run of requests, faulty writes included, the receipt only moves forward. */
  lemma {:induction false} StoreRunMonotone(stored: Option<Receipt>, taskId: string, requests: seq<Request>)
    requires stored.Some? ==> Contract(stored.value, taskId)
    ensures var r := StoreRun(stored, taskId, requests);
            Monotone(stored, r) && (r.Some? ==> Contract(r.value, taskId)) && (r.Some? <==> stored.Some?)
    decreases |requests|
  {
    if requests != [] {
      var q := requests[0];
      StoreTransitMonotone(stored, taskId, q.phase, q.started, q.code, q.now, q.readFault, q.io);
      StoreRunMonotone(StoreTransit(stored, taskId, q.phase, q.started, q.code, q.now, q.readFault, q.io).stored, taskId, requests[1..]);
    }
  }

  /** The directory of receipt files, one per task id. */
  class ReceiptStore {
    var files: map<string, Receipt>

    ghost predicate Valid() reads this { forall id :: id in files ==> Contract(files[id], id) }

    constructor ()
      ensures Valid() && files == map[]
    {
      files := map[];
    }

    /** No-replace creation: an existing receipt is never overwritten. */
    method CreatePrepared(taskId: string, targetVersion: string, now: Instant, outcome: CreateOutcome)
      returns (r: Result<Receipt>)
      requires Valid()
      modifies this
      ensures Valid()
      ensures forall id :: id != taskId ==> Lookup(files, id) == old(Lookup(files, id))
      ensures taskId in old(files) ==> r.Err? && files == old(files)
      ensures r.Ok? <==> taskId !in old(files) && CanonicalTaskId(taskId) && ValidVersion(targetVersion) && outcome.Created?
      ensures r.Ok? ==> r.value == Fresh(taskId, targetVersion, now)
      ensures taskId !in old(files) ==>
                Lookup(files, taskId) ==
                  (if CanonicalTaskId(taskId) && ValidVersion(targetVersion) && (outcome.Created? || outcome.KeptWithError?)
                   then Some(Fresh(taskId, targetVersion, now)) else None)
    {
      if !CanonicalTaskId(taskId) { return Err("task id must be canonical UUIDv4"); }
      if !ValidVersion(targetVersion) { return Err("invalid target release version"); }
      if taskId in files { return Err("receipt already exists"); }
      if outcome.NoEffect? { return Err("write receipt"); }
      var receipt := Fresh(taskId, targetVersion, now);
      files := files[taskId := receipt];
      if outcome.UndoneWithError? {
        files := files - {taskId};
        return Err("remove temporary receipt");
      }
      if outcome.KeptWithError? { return Err("sync receipt directory"); }
      return Ok(receipt);
    }

    /** One transition under the directory lock. */
    method Transition(taskId: string, phase: Phase, started: bool, code: string, now: Instant, readFault: bool, io: WriteOutcome)
      returns (r: Result<Receipt>)
      requires Valid()
      modifies this
      ensures Valid()
      ensures forall id :: id != taskId ==> Lookup(files, id) == old(Lookup(files, id))
      ensures Moved(old(Lookup(files, taskId)), phase, started, code, now, readFault, io, Write(Lookup(files, taskId), r))
      ensures Write(Lookup(files, taskId), r) ==
              StoreTransit(old(Lookup(files, taskId)), taskId, phase, started, code, now, readFault, io)
    {
      StoreTransitExact(Lookup(files, taskId), taskId, phase, started, code, now, readFault, io);
      TransitContract(Lookup(files, taskId), taskId, phase, started, code, now);
      if readFault || taskId !in files { return Err("read receipt"); }
      var stored := files[taskId];
      var next := Transit(stored, taskId, phase, started, code, now);
      if next.Err? { return Err(next.error); }
      if io.LostBeforeRename? { return Err("write receipt"); }
      files := files[taskId := next.value];
      if io.ErrorAfterRename? { return Err("sync receipt directory"); }
      return Ok(next.value);
    }

    /** Closes an interrupted mutation as unknown and leaves every other receipt alone. */
    method ReconcileInterrupted(taskId: string, now: Instant, readFault: bool, io: WriteOutcome) returns (r: Result<Receipt>)
      requires Valid()
      modifies this
      ensures Valid()
      ensures forall id :: id != taskId ==> Lookup(files, id) == old(Lookup(files, id))
      ensures Monotone(old(Lookup(files, taskId)), Lookup(files, taskId))
      ensures r.Ok? ==> Lookup(files, taskId) == Some(r.value) && !r.value.phase.MutationStarted?
      ensures !(taskId in old(files) && old(files)[taskId].phase.MutationStarted?) ==> files == old(files) && (r.Ok? <==> !readFault && taskId in files)
      ensures taskId in old(files) && old(files)[taskId].phase.MutationStarted? && old(files)[taskId].createdAt <= now && !readFault ==>
                && (r.Ok? <==> io.Durable?)
                && (!io.LostBeforeRename? ==>
                      Lookup(files, taskId) == Some(Advanced(old(files)[taskId], OutcomeUnknown, true, "agent_restart_after_mutation_started", now)))
    {
      if readFault || taskId !in files { return Err("read receipt"); }
      if !files[taskId].phase.MutationStarted? { return Ok(files[taskId]); }
      OrphanedCode();
      r := Transition(taskId, OutcomeUnknown, true, ORPHANED, now, readFault, io);
    }
  }

  const ORPHANED := "agent_restart_after_mutation_started"
}
