/**
  The remote platform update as a system of processes for one task id. Dispatchers, detached workers
  and reconcilers of the Agent share a receipt file and a staging directory, and exchange tasks and
  completions with the Manager's job row over a channel that may lose, delay and repeat messages.

  A run is a sequence of events. An event that is not enabled leaves the system as it is, so a theorem
  about every sequence of events is a theorem about every interleaving. Each event performs at most one
  atomic action of the source; the answers of the clock, the disk, systemd and the updater are carried
  by the event.
 */
module UpdateProtocol {
  import opened Common
  import opened Formats
  import opened Receipts
  import J = UpdateJobs

  /** How the verified updater ended, as its worker saw it. */
  datatype UpdaterExit = ExitZero | ExitFailed | ExitUnknown(rollbackIncomplete: bool)

  datatype DispatchPc =
    | DStart                                    // a dispatch task has arrived
    | DInspect                                  // no receipt was found
    | DChecked                                  // no staging directory was found either
    | DLinked                                   // the receipt is linked, CreatePrepared has not returned
    | DCreated                                  // CreatePrepared returned without error
    | DReady                                    // the runtime is ready
    | DAccepted                                 // the receipt is runnable before staging
    | DStaging                                  // a partial directory is being filled
    | DStaged                                   // the candidate is in place
    | DReaccepted                               // the receipt is runnable before the launch
    | DLaunched                                 // the systemd-run process has started
    | DFailing(code: string, reportAnyway: bool) // a deterministic failure is about to be recorded
    | DOrphan                                   // the receipt said mutation_started
    | DReport(dispatched: bool)                 // a completion is about to be sent

  datatype WorkerPc =
    | WStart
    | WStaged(version: string)                  // the staged candidate is valid
    | WAccepted                                 // the receipt is runnable
    | WNotReady                                 // the runtime is not ready any more
    | WOrphan                                   // the receipt said mutation_started
    | WMark                                     // mutation_started is about to be recorded
    | WMarked                                   // mutation_started is recorded for this worker
    | WStartFailed                              // the updater did not start
    | WRunning                                  // the updater runs
    | WExited(exit: UpdaterExit)                // the updater has ended

  datatype ReconcilePc =
    | RStart
    | RProbe(started: bool)                     // a pending receipt was read
    | RMark(started: bool)                      // the worker unit is absent
    | RReport(completion: J.Completion)

  datatype Proc =
    | Dispatcher(dpc: DispatchPc, version: string)
    | Worker(wpc: WorkerPc)
    | Reconciler(rpc: ReconcilePc, managerStatus: J.JobStatus, version: string)

  datatype StageOutcome = StageOk | StageError | StageMismatch

  /** The answers of the environment to one atomic action; an action uses the ones it needs. */
  datatype Choice = Choice(
    now: Instant,
    ok: bool,              // readiness, process start, wait
    fault: bool,           // a read or a probe failed
    active: bool,          // the worker unit is reported active
    leftover: bool,        // a partial staging directory stays behind
    io: WriteOutcome,
    create: CreateOutcome,
    stage: StageOutcome,
    exit: UpdaterExit)

  /**
    What the node holds for one update. The last three fields are bookkeeping of the model: which process
    is inside its creation window, whether a creation was confirmed, and which worker owns the mutation.
   */
  datatype Host = Host(
    taskId: string,
    receipt: Option<Receipt>,
    staged: Option<string>,           // release version of the staged candidate
    partial: bool,
    launched: bool,                   // systemd may have accepted the worker unit
    invocations: nat,                 // starts of the verified updater
    exit: Option<UpdaterExit>,
    creator: Option<nat>,
    confirmed: bool,
    mutator: Option<nat>)

  /**
    Everything the processes share. The last two fields are bookkeeping: which process is the only
    dispatcher, and whether that dispatcher has given up before a launch.
   */
  datatype Shared = Shared(
    replay: bool,                     // dispatch, workers and reconcilers may be started by anybody, any number of times
    h: Host,
    job: J.Job,
    handouts: nat,                    // dispatch tasks handed out so far
    tokens: nat,                      // handed out and not yet taken up
    reconciles: set<J.JobStatus>,     // job statuses that reconciliation tasks were handed out with
    sent: set<J.Completion>,          // completions ever sent; any of them may arrive at any time
    dispatcher: Option<nat>,
    doomed: bool)

  datatype System = System(sh: Shared, procs: map<nat, Proc>, next: nat)

  /** What one action does: the new node, where its process goes, what it sends, and whether it gives the launch up. */
  datatype Effect = Effect(h: Host, next: Option<Proc>, send: Option<J.Completion> := None, giveUp: bool := false)

  const RUNTIME_NOT_READY := "runtime_not_ready"
  const STAGING_FAILED := "staging_failed"
  const IDENTITY_MISMATCH := "staged_identity_mismatch"
  const LAUNCH_FAILED := "detached_launch_failed"
  const NOT_READY_BEFORE_MUTATION := "runtime_not_ready_before_mutation"
  const UPDATER_START_FAILED := "updater_start_failed"
  const UPDATER_FAILED := "verified_updater_failed"
  const UPDATER_SIGNALED := "verified_updater_signaled"
  const ROLLBACK_INCOMPLETE := "rollback_incomplete"
  const WORKER_MISSING := "detached_worker_missing"
  const PRE_DISPATCH_FAILED := "pre_dispatch_failed"

  function StoreOp(h: Host, phase: Phase, started: bool, code: string, c: Choice): Write {
    StoreTransit(h.receipt, h.taskId, phase, started, code, c.now, c.fault, c.io)
  }

  function Written(h: Host, phase: Phase, started: bool, code: string, c: Choice): Host {
    h.(receipt := StoreOp(h, phase, started, code, c).stored)
  }

  datatype Acceptance = Runnable | Orphaned | Refused

  /** What a process that needs a prepared receipt makes of the stored one. */
  function Accept(h: Host, version: string, fault: bool): Acceptance {
    if fault || h.receipt.None? || h.receipt.value.targetVersion != version then Refused
    else match h.receipt.value.phase
      case MutationStarted => Orphaned
      case Prepared => if h.receipt.value.mutationStarted then Refused else Runnable
      case _ => Refused
  }

  function DispatchReport(taskId: string, version: string, dispatched: bool): J.Completion {
    if dispatched
    then J.Completion(J.EnvelopeSucceeded, "", Some(J.Evidence(taskId, version, J.RMutationDispatched, "")))
    else J.Completion(J.EnvelopeFailed, "", Some(J.Evidence(taskId, version, J.RFailed, PRE_DISPATCH_FAILED)))
  }

  function Project(phase: Phase): J.ReportStatus {
    match phase
    case Succeeded => J.RSucceeded
    case Failed => J.RFailed
    case OutcomeUnknown => J.ROutcomeUnknown
    case _ => J.RPending
  }

  /** The completion a reconciler sends for a receipt it has read or written. */
  function ReconcileReport(r: Receipt, managerStatus: J.JobStatus): J.Completion {
    var failure := managerStatus.InProgress? && r.phase.Failed? && !r.mutationStarted;
    J.Completion(if failure then J.EnvelopeFailed else J.EnvelopeSucceeded, "",
                 Some(J.Evidence(r.taskId, r.targetVersion, Project(r.phase), r.code)))
  }

  // ---------------------------------------------------------------- dispatcher

  /** The inspection of prior state and the creation of the receipt, which an error may undo. */
  function CreateStep(h: Host, pid: nat, pc: DispatchPc, v: string, c: Choice): Effect
    requires pc.DStart? || pc.DInspect? || pc.DChecked? || pc.DLinked?
  {
    match pc
    case DStart =>
      if c.fault || !CanonicalTaskId(h.taskId) || !ValidVersion(v)
      then Effect(h, Some(Dispatcher(DReport(false), v)), giveUp := true)
      else if h.receipt.Some? then Effect(h, None)
      else Effect(h, Some(Dispatcher(DInspect, v)))
    case DInspect =>
      if c.fault then Effect(h, Some(Dispatcher(DReport(false), v)), giveUp := true)
      else if h.staged.Some? || h.partial then Effect(h, None)
      else Effect(h, Some(Dispatcher(DChecked, v)))
    case DChecked =>
      if h.receipt.Some? || c.create.NoEffect? then Effect(h, None)
      else Effect(h.(receipt := Some(Fresh(h.taskId, v, c.now)), creator := Some(pid)), Some(Dispatcher(DLinked, v)))
    case DLinked =>
      match c.create
      case Created => Effect(h.(creator := None, confirmed := true), Some(Dispatcher(DCreated, v)))
      case UndoneWithError => Effect(h.(creator := None, receipt := None), None, giveUp := true)
      case _ => Effect(h.(creator := None), None)
  }

  function Failing(code: string, reportAnyway: bool, v: string): Option<Proc> {
    Some(Dispatcher(DFailing(code, reportAnyway), v))
  }

  /** Readiness, the first receipt check, and the download into a partial directory. */
  function StageStep(h: Host, pc: DispatchPc, v: string, c: Choice): Effect
    requires pc.DCreated? || pc.DReady? || pc.DAccepted? || pc.DStaging?
  {
    match pc
    case DCreated =>
      if c.ok then Effect(h, Some(Dispatcher(DReady, v)))
      else Effect(h, Failing(RUNTIME_NOT_READY, false, v), giveUp := true)
    case DReady =>
      (match Accept(h, v, c.fault)
       case Runnable => Effect(h, Some(Dispatcher(DAccepted, v)))
       case Orphaned => Effect(h, Some(Dispatcher(DOrphan, v)))
       case Refused => Effect(h, None))
    case DAccepted => Effect(h.(partial := true), Some(Dispatcher(DStaging, v)))
    case DStaging =>
      if c.stage.StageError? || h.staged.Some?
      then Effect(h.(partial := c.leftover), Failing(STAGING_FAILED, false, v), giveUp := true)
      else if c.stage.StageMismatch?
      then Effect(h.(partial := c.leftover, staged := Some(v)), Failing(IDENTITY_MISMATCH, false, v), giveUp := true)
      else Effect(h.(partial := c.leftover, staged := Some(v)), Some(Dispatcher(DStaged, v)))
  }

  /** The second receipt check and the detached launch. */
  function LaunchStep(h: Host, pc: DispatchPc, v: string, c: Choice): Effect
    requires pc.DStaged? || pc.DReaccepted? || pc.DLaunched?
  {
    match pc
    case DStaged =>
      (match Accept(h, v, c.fault)
       case Runnable => Effect(h, Some(Dispatcher(DReaccepted, v)))
       case Orphaned => Effect(h, Some(Dispatcher(DOrphan, v)))
       case Refused => Effect(h, None))
    case DReaccepted =>
      if c.ok then Effect(h.(launched := true), Some(Dispatcher(DLaunched, v)))
      else Effect(h, Failing(LAUNCH_FAILED, true, v), giveUp := true)
    case DLaunched => Effect(h, if c.ok then Some(Dispatcher(DReport(true), v)) else None)
  }

  /** Recording a failure, closing an orphan, and the completion message. */
  function FinishStep(h: Host, pc: DispatchPc, v: string, c: Choice): Effect
    requires pc.DFailing? || pc.DOrphan? || pc.DReport?
  {
    match pc
    case DFailing(code, reportAnyway) =>
      var w := StoreOp(h, Phase.Failed, false, code, c);
      Effect(h.(receipt := w.stored), if w.reply.Ok? || reportAnyway then Some(Dispatcher(DReport(false), v)) else None)
    case DOrphan => Effect(Written(h, Phase.OutcomeUnknown, true, ORPHANED, c), None)
    case DReport(dispatched) => Effect(h, None, send := Some(DispatchReport(h.taskId, v, dispatched)))
  }

  function DispatchStep(h: Host, pid: nat, pc: DispatchPc, v: string, c: Choice): Effect {
    if pc.DStart? || pc.DInspect? || pc.DChecked? || pc.DLinked? then CreateStep(h, pid, pc, v, c)
    else if pc.DCreated? || pc.DReady? || pc.DAccepted? || pc.DStaging? then StageStep(h, pc, v, c)
    else if pc.DStaged? || pc.DReaccepted? || pc.DLaunched? then LaunchStep(h, pc, v, c)
    else FinishStep(h, pc, v, c)
  }

  // ---------------------------------------------------------------- worker

  function WorkerStep(h: Host, pid: nat, pc: WorkerPc, c: Choice): Effect {
    match pc
    case WStart => Effect(h, if c.fault || h.staged.None? then None else Some(Worker(WStaged(h.staged.value))))
    case WStaged(v) =>
      Effect(h, match Accept(h, v, c.fault)
                case Runnable => Some(Worker(WAccepted))
                case Orphaned => Some(Worker(WOrphan))
                case Refused => None)
    case WAccepted => Effect(h, Some(Worker(if c.ok then WMark else WNotReady)))
    case WNotReady => Effect(Written(h, Phase.Failed, false, NOT_READY_BEFORE_MUTATION, c), None)
    case WOrphan => Effect(Written(h, Phase.OutcomeUnknown, true, ORPHANED, c), None)
    case WMark =>
      var w := StoreOp(h, Phase.MutationStarted, true, "", c);
      if w.reply.Ok? then Effect(h.(receipt := w.stored, mutator := Some(pid)), Some(Worker(WMarked)))
      else Effect(h.(receipt := w.stored), None)
    case WMarked =>
      if c.ok then Effect(h.(invocations := h.invocations + 1), Some(Worker(WRunning)))
      else Effect(h, Some(Worker(WStartFailed)))
    case WStartFailed => Effect(Written(h, Phase.Failed, true, UPDATER_START_FAILED, c), None)
    case WRunning => Effect(h.(exit := Some(c.exit)), Some(Worker(WExited(c.exit))))
    case WExited(exit) =>
      match exit
      case ExitZero => Effect(Written(h, Phase.Succeeded, true, "", c), None)
      case ExitFailed => Effect(Written(h, Phase.Failed, true, UPDATER_FAILED, c), None)
      case ExitUnknown(incomplete) =>
        Effect(Written(h, Phase.OutcomeUnknown, true, if incomplete then ROLLBACK_INCOMPLETE else UPDATER_SIGNALED, c), None)
  }

  // ---------------------------------------------------------------- reconciler

  function PendingReport(taskId: string, v: string): J.Completion {
    J.Completion(J.EnvelopeSucceeded, "", Some(J.Evidence(taskId, v, J.RPending, "")))
  }

  /** The unit is reported active only if it may have been accepted; an absent answer may be stale. */
  function ReconcileStep(h: Host, pc: ReconcilePc, status: J.JobStatus, v: string, c: Choice): Effect {
    match pc
    case RStart =>
      if c.fault || h.receipt.None? || h.receipt.value.targetVersion != v then Effect(h, None)
      else if h.receipt.value.phase.Terminal()
      then Effect(h, Some(Reconciler(RReport(ReconcileReport(h.receipt.value, status)), status, v)))
      else Effect(h, Some(Reconciler(RProbe(h.receipt.value.mutationStarted), status, v)))
    case RProbe(started) =>
      if c.fault then Effect(h, None)
      else if c.active && h.launched
      then Effect(h, Some(Reconciler(RReport(PendingReport(h.taskId, v)), status, v)))
      else Effect(h, Some(Reconciler(RMark(started), status, v)))
    case RMark(started) =>
      var w := StoreOp(h, if started then Phase.OutcomeUnknown else Phase.Failed, started, WORKER_MISSING, c);
      Effect(h.(receipt := w.stored),
             if w.reply.Ok? then Some(Reconciler(RReport(ReconcileReport(w.reply.value, status)), status, v)) else None)
    case RReport(m) => Effect(h, None, send := Some(m))
  }

  function ProcStep(h: Host, pid: nat, p: Proc, c: Choice): Effect {
    match p
    case Dispatcher(pc, v) => DispatchStep(h, pid, pc, v, c)
    case Worker(pc) => WorkerStep(h, pid, pc, c)
    case Reconciler(pc, status, v) => ReconcileStep(h, pc, status, v, c)
  }

  // ---------------------------------------------------------------- runs

  datatype Event =
    | HandOutDispatch(at: Instant)
    | HandOutReconcile(at: Instant)
    | BeginDispatch(version: string)
    | BeginWorker
    | BeginReconcile(status: J.JobStatus, version: string)
    | Act(pid: nat, choice: Choice)
    | Crash(pid: nat)
    | Deliver(completion: J.Completion, observed: J.JobStatus, at: Instant)

  function Spawn(s: System, p: Proc): System { System(s.sh, s.procs[s.next := p], s.next + 1) }

  function Performed(sh: Shared, e: Effect): Shared {
    sh.(h := e.h, sent := if e.send.Some? then sh.sent + {e.send.value} else sh.sent, doomed := sh.doomed || e.giveUp)
  }

  function ActStep(s: System, pid: nat, c: Choice): System {
    if pid !in s.procs then s
    else
      var e := ProcStep(s.sh.h, pid, s.procs[pid], c);
      System(Performed(s.sh, e), if e.next.Some? then s.procs[pid := e.next.value] else s.procs - {pid}, s.next)
  }

  function Step(s: System, e: Event): System {
    match e
    case HandOutDispatch(at) =>
      var claimed := J.ClaimedForDispatch(s.sh.job, at);
      if claimed.None? then s
      else s.(sh := s.sh.(job := claimed.value, handouts := s.sh.handouts + 1, tokens := s.sh.tokens + 1))
    case HandOutReconcile(at) =>
      var claimed := J.ClaimedForReconcile(s.sh.job, at);
      if claimed.None? then s
      else s.(sh := s.sh.(job := claimed.value, reconciles := s.sh.reconciles + {claimed.value.status}))
    case BeginDispatch(v) =>
      if s.sh.replay then Spawn(s, Dispatcher(DStart, v))
      else if s.sh.tokens == 0 then s
      else Spawn(s.(sh := s.sh.(tokens := s.sh.tokens - 1, dispatcher := Some(s.next))),
                 Dispatcher(DStart, s.sh.job.targetVersion))
    case BeginWorker => if s.sh.replay || s.sh.h.launched then Spawn(s, Worker(WStart)) else s
    case BeginReconcile(status, v) =>
      if s.sh.replay then Spawn(s, Reconciler(RStart, status, v))
      else if status in s.sh.reconciles then Spawn(s, Reconciler(RStart, status, s.sh.job.targetVersion))
      else s
    case Act(pid, c) => ActStep(s, pid, c)
    case Crash(pid) => s.(procs := s.procs - {pid})
    case Deliver(m, observed, at) =>
      if m !in s.sh.sent then s
      else
        var r := J.Complete(s.sh.job, observed, m, at);
        if r.Err? then s else s.(sh := s.sh.(job := r.value))
  }

  function Run(s: System, events: seq<Event>): System
    decreases |events|
  {
    if events == [] then s else Run(Step(s, events[0]), events[1..])
  }

  /** A job that nobody has claimed and a node that has never heard of it. */
  ghost predicate Initial(s: System) {
    && s.procs == map[] && s.next == 0
    && s.sh.h == Host(s.sh.job.id, None, None, false, false, 0, None, None, false, None)
    && s.sh.job.status.Pending? && J.RowChecks(s.sh.job)
    && s.sh.handouts == s.sh.tokens == 0
    && s.sh.reconciles == {} && s.sh.sent == {}
    && s.sh.dispatcher.None? && !s.sh.doomed
  }
}
