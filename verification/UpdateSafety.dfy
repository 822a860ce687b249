/**
  Safety of the update protocol in every run: the verified updater is invoked at most once and receipt
  evidence only grows, whoever starts dispatchers, workers and reconcilers and however often.

  The proof is by rely and guarantee. Base is an invariant of the node, ProcBase says what one process
  knows, and Guarantees says what one action of one process may do to the others.
 */
module UpdateSafety {
  import opened Common
  import opened Formats
  import opened Receipts
  import opened UpdateProtocol
  import J = UpdateJobs

  predicate Started(h: Host) { h.receipt.Some? && h.receipt.value.mutationStarted }

  predicate InPhase(h: Host, phase: Phase) { h.receipt.Some? && h.receipt.value.phase == phase }

  /** The mutation has begun and its own worker has not closed it yet. */
  predicate Open(h: Host) { InPhase(h, Phase.MutationStarted) || InPhase(h, Phase.OutcomeUnknown) }

  /** No code at all, or one that the Manager's stricter pattern accepts as well. */
  predicate SharedCode(code: string) { code == "" || code[0] != '_' }

  ghost predicate Base(h: Host) {
    && (h.receipt.Some? ==> Contract(h.receipt.value, h.taskId) && SharedCode(h.receipt.value.code))
    && (h.confirmed ==> h.receipt.Some? && h.creator.None?)
    && (h.creator.Some? ==> h.receipt.Some? && !Started(h) && !h.confirmed)
    && (h.staged.Some? || h.launched ==> h.confirmed)
    && (Started(h) ==> h.confirmed)
    && (h.mutator.Some? ==> Started(h))
    && h.invocations <= 1
    && (h.invocations == 1 ==> h.mutator.Some?)
    && (h.exit.Some? ==> h.invocations == 1)
    && (InPhase(h, Phase.Succeeded) ==> h.exit == Some(ExitZero))
    && (InPhase(h, Phase.Failed) ==> h.invocations == 0 || h.exit == Some(ExitFailed))
  }

  ghost predicate Owns(h: Host, pid: nat, invocations: nat, exit: Option<UpdaterExit>) {
    h.mutator == Some(pid) && h.invocations == invocations && h.exit == exit && Open(h)
  }

  ghost predicate ProcBase(h: Host, pid: nat, p: Proc) {
    (h.creator == Some(pid) <==> p.Dispatcher? && p.dpc.DLinked?) &&
    match p
    case Dispatcher(pc, v) =>
      (match pc
       case DStart => true
       case DInspect => ValidVersion(v)
       case DChecked => ValidVersion(v)
       case DLinked => true
       case DReport(dispatched) => dispatched ==> h.confirmed
       case DFailing(code, _) => h.confirmed && SharedCode(code)
       case _ => h.confirmed)
    case Worker(pc) =>
      (match pc
       case WStart => true
       case WMarked => Owns(h, pid, 0, None)
       case WStartFailed => Owns(h, pid, 0, None)
       case WRunning => Owns(h, pid, 1, None)
       case WExited(exit) => Owns(h, pid, 1, Some(exit))
       case _ => h.staged.Some?)
    case Reconciler(pc, _, _) => true
  }

  /** What an action of process `actor` may do to the node. */
  ghost predicate Guarantees(actor: nat, h: Host, h': Host) {
    && h'.taskId == h.taskId
    && (h.confirmed ==> h'.confirmed)
    && (h.launched ==> h'.launched)
    && (h.staged.Some? ==> h'.staged == h.staged)
    && (h.creator.Some? && h.creator != Some(actor) ==> h'.creator == h.creator)
    && (h'.creator.Some? ==> h'.creator == h.creator || h'.creator == Some(actor))
    && (h.mutator.Some? && h.mutator != Some(actor) ==>
          h'.mutator == h.mutator && h'.invocations == h.invocations && h'.exit == h.exit && (Open(h) ==> Open(h')))
    && (Started(h) ==> Started(h'))
    && (h.receipt.Some? && h.receipt.value.phase.Terminal() && h'.receipt != h.receipt ==>
          h.creator == Some(actor) && h'.receipt.None? && InPhase(h, Phase.Failed) && !Started(h))
  }

  ghost predicate Inv(s: System) {
    && Base(s.sh.h)
    && (s.sh.h.creator.Some? ==> s.sh.h.creator.value < s.next)
    && (forall pid :: pid in s.procs ==> pid < s.next && ProcBase(s.sh.h, pid, s.procs[pid]))
  }

  /** One action of process pid leaves the invariants in place and keeps its promises to the others. */
  ghost predicate Safe(h: Host, pid: nat, e: Effect) {
    && Base(e.h)
    && Guarantees(pid, h, e.h)
    && (e.next.Some? ==> ProcBase(e.h, pid, e.next.value))
  }

  /** What one locked write does to the receipt, in the terms of the invariants. */
  lemma StoreOpFacts(h: Host, phase: Phase, started: bool, code: string, c: Choice)
    requires Base(h)
    ensures var w := StoreOp(h, phase, started, code, c);
            && Monotone(h.receipt, w.stored)
            && (w.stored.Some? <==> h.receipt.Some?)
            && (w.stored.Some? ==> Contract(w.stored.value, h.taskId))
            && (w.stored == h.receipt ||
                (h.receipt.Some? && w.stored.value.phase == phase && w.stored.value.mutationStarted == started
                 && w.stored.value.code == code && AllowedTransition(h.receipt.value.phase, phase)
                 && (phase.Failed? ==> (if started then InPhase(h, Phase.MutationStarted) else InPhase(h, Phase.Prepared)))))
            && (w.reply.Ok? ==> w.stored == Some(w.reply.value) && w.stored != h.receipt
                                && w.reply.value.phase == phase && w.reply.value.mutationStarted == started
                                && w.reply.value.code == code && w.reply.value.targetVersion == h.receipt.value.targetVersion)
  {
    StoreTransitMonotone(h.receipt, h.taskId, phase, started, code, c.now, c.fault, c.io);
  }

  /** A locked write is safe for whoever makes it, provided a closing write comes from the owner. */
  lemma WriteSafe(h: Host, pid: nat, phase: Phase, started: bool, code: string, c: Choice)
    requires Base(h) && SharedCode(code)
    requires phase.MutationStarted? ==> h.confirmed
    requires phase.Succeeded? ==> Owns(h, pid, 1, Some(ExitZero))
    requires phase.Failed? && started ==> Owns(h, pid, 0, None) || Owns(h, pid, 1, Some(ExitFailed))
    ensures Base(Written(h, phase, started, code, c)) && Guarantees(pid, h, Written(h, phase, started, code, c))
  {
    StoreOpFacts(h, phase, started, code, c);
  }

  /** The link: a fresh receipt appears inside the window of its creator. */
  lemma LinkSafe(h: Host, pid: nat, v: string, c: Choice)
    requires Base(h) && ProcBase(h, pid, Dispatcher(DChecked, v))
    ensures Safe(h, pid, CreateStep(h, pid, DChecked, v, c))
  {
  }

  /** The end of the window: confirmed, kept in doubt, or undone. */
  lemma ReturnSafe(h: Host, pid: nat, v: string, c: Choice)
    requires Base(h) && ProcBase(h, pid, Dispatcher(DLinked, v))
    ensures Safe(h, pid, CreateStep(h, pid, DLinked, v, c))
  {
  }

  lemma CreateStepSafe(h: Host, pid: nat, pc: DispatchPc, v: string, c: Choice)
    requires pc.DStart? || pc.DInspect? || pc.DChecked? || pc.DLinked?
    requires Base(h) && ProcBase(h, pid, Dispatcher(pc, v))
    ensures Safe(h, pid, CreateStep(h, pid, pc, v, c))
  {
    if pc.DChecked? { LinkSafe(h, pid, v, c); } else if pc.DLinked? { ReturnSafe(h, pid, v, c); }
  }

  lemma PlacedSafe(h: Host, pid: nat, v: string, leftover: bool)
    requires Base(h) && h.confirmed && h.staged.None?
    ensures var h' := h.(partial := leftover, staged := Some(v)); Base(h') && Guarantees(pid, h, h')
  {
  }

  lemma PartialSafe(h: Host, pid: nat, leftover: bool)
    requires Base(h)
    ensures Base(h.(partial := leftover)) && Guarantees(pid, h, h.(partial := leftover))
  {
  }

  /** The end of the download: the candidate is placed, or not. */
  lemma DownloadSafe(h: Host, pid: nat, v: string, c: Choice)
    requires Base(h) && h.confirmed
    ensures Safe(h, pid, StageStep(h, DStaging, v, c))
  {
    if c.stage.StageError? || h.staged.Some? { PartialSafe(h, pid, c.leftover); } else { PlacedSafe(h, pid, v, c.leftover); }
  }

  lemma StageStepSafe(h: Host, pid: nat, pc: DispatchPc, v: string, c: Choice)
    requires pc.DCreated? || pc.DReady? || pc.DAccepted? || pc.DStaging?
    requires Base(h) && h.confirmed
    ensures Safe(h, pid, StageStep(h, pc, v, c))
  {
    if pc.DAccepted? { PartialSafe(h, pid, true); }
    else if pc.DStaging? { DownloadSafe(h, pid, v, c); }
  }

  lemma LaunchStepSafe(h: Host, pid: nat, pc: DispatchPc, v: string, c: Choice)
    requires pc.DStaged? || pc.DReaccepted? || pc.DLaunched?
    requires Base(h) && h.confirmed
    ensures Safe(h, pid, LaunchStep(h, pc, v, c))
  {
  }

  lemma FinishStepSafe(h: Host, pid: nat, pc: DispatchPc, v: string, c: Choice)
    requires pc.DFailing? || pc.DOrphan? || pc.DReport?
    requires Base(h) && ProcBase(h, pid, Dispatcher(pc, v))
    ensures Safe(h, pid, FinishStep(h, pc, v, c))
  {
    match pc
    case DFailing(code, _) => WriteSafe(h, pid, Phase.Failed, false, code, c);
    case DOrphan => WriteSafe(h, pid, Phase.OutcomeUnknown, true, ORPHANED, c);
    case DReport(_) =>
  }

  lemma DispatchSafe(h: Host, pid: nat, pc: DispatchPc, v: string, c: Choice)
    requires Base(h) && ProcBase(h, pid, Dispatcher(pc, v))
    ensures Safe(h, pid, DispatchStep(h, pid, pc, v, c))
  {
    if pc.DStart? || pc.DInspect? || pc.DChecked? || pc.DLinked? { CreateStepSafe(h, pid, pc, v, c); }
    else if pc.DCreated? || pc.DReady? || pc.DAccepted? || pc.DStaging? { StageStepSafe(h, pid, pc, v, c); }
    else if pc.DStaged? || pc.DReaccepted? || pc.DLaunched? { LaunchStepSafe(h, pid, pc, v, c); }
    else { FinishStepSafe(h, pid, pc, v, c); }
  }

  lemma MarkSafe(h: Host, pid: nat, c: Choice)
    requires Base(h) && h.staged.Some?
    ensures Safe(h, pid, WorkerStep(h, pid, WMark, c))
  {
    WriteSafe(h, pid, Phase.MutationStarted, true, "", c);
    StoreOpFacts(h, Phase.MutationStarted, true, "", c);
  }

  lemma CloseSafe(h: Host, pid: nat, pc: WorkerPc, c: Choice)
    requires pc.WNotReady? || pc.WOrphan? || pc.WStartFailed? || pc.WExited?
    requires Base(h) && ProcBase(h, pid, Worker(pc))
    ensures Safe(h, pid, WorkerStep(h, pid, pc, c))
  {
    match pc
    case WNotReady => WriteSafe(h, pid, Phase.Failed, false, NOT_READY_BEFORE_MUTATION, c);
    case WOrphan => WriteSafe(h, pid, Phase.OutcomeUnknown, true, ORPHANED, c);
    case WStartFailed => WriteSafe(h, pid, Phase.Failed, true, UPDATER_START_FAILED, c);
    case WExited(exit) =>
      match exit
      case ExitZero => WriteSafe(h, pid, Phase.Succeeded, true, "", c);
      case ExitFailed => WriteSafe(h, pid, Phase.Failed, true, UPDATER_FAILED, c);
      case ExitUnknown(b) => WriteSafe(h, pid, Phase.OutcomeUnknown, true, if b then ROLLBACK_INCOMPLETE else UPDATER_SIGNALED, c);
  }

  lemma WorkerSafe(h: Host, pid: nat, pc: WorkerPc, c: Choice)
    requires Base(h) && ProcBase(h, pid, Worker(pc))
    ensures Safe(h, pid, WorkerStep(h, pid, pc, c))
  {
    if pc.WMark? { MarkSafe(h, pid, c); }
    else if pc.WNotReady? || pc.WOrphan? || pc.WStartFailed? || pc.WExited? { CloseSafe(h, pid, pc, c); }
  }

  lemma ReconcileSafe(h: Host, pid: nat, pc: ReconcilePc, status: J.JobStatus, v: string, c: Choice)
    requires Base(h) && ProcBase(h, pid, Reconciler(pc, status, v))
    ensures Safe(h, pid, ReconcileStep(h, pc, status, v, c))
  {
    if pc.RMark? { ReconcileMarkSafe(h, pid, pc.started, status, v, c); }
  }

  lemma ReconcileMarkSafe(h: Host, pid: nat, started: bool, status: J.JobStatus, v: string, c: Choice)
    requires Base(h) && ProcBase(h, pid, Reconciler(RMark(started), status, v))
    ensures Safe(h, pid, ReconcileStep(h, RMark(started), status, v, c))
  {
    var phase := if started then Phase.OutcomeUnknown else Phase.Failed;
    WriteSafe(h, pid, phase, started, WORKER_MISSING, c);
  }

  lemma ProcSafe(h: Host, pid: nat, p: Proc, c: Choice)
    requires Base(h) && ProcBase(h, pid, p)
    ensures Safe(h, pid, ProcStep(h, pid, p, c))
  {
    match p
    case Dispatcher(pc, v) => DispatchSafe(h, pid, pc, v, c);
    case Worker(pc) => WorkerSafe(h, pid, pc, c);
    case Reconciler(pc, status, v) => ReconcileSafe(h, pid, pc, status, v, c);
  }

  /** What a process knows survives the actions of every other process. */
  lemma Stable(h: Host, h': Host, actor: nat, pid: nat, p: Proc)
    requires Guarantees(actor, h, h') && actor != pid && ProcBase(h, pid, p)
    ensures ProcBase(h', pid, p)
  {
  }

  lemma ActKeeps(s: System, pid: nat, c: Choice)
    requires Inv(s) && pid in s.procs
    ensures Inv(ActStep(s, pid, c)) && Guarantees(pid, s.sh.h, ActStep(s, pid, c).sh.h)
  {
    ProcSafe(s.sh.h, pid, s.procs[pid], c);
    var s' := ActStep(s, pid, c);
    forall q | q in s'.procs ensures q < s'.next && ProcBase(s'.sh.h, q, s'.procs[q]) {
      if q != pid { Stable(s.sh.h, s'.sh.h, pid, q, s.procs[q]); }
    }
  }

  lemma StepKeeps(s: System, e: Event)
    requires Inv(s)
    ensures Inv(Step(s, e))
  {
    if e.Act? && e.pid in s.procs { ActKeeps(s, e.pid, e.choice); }
    else if !e.Act? { QuietKeeps(s, e); }
  }

  /** Starting or losing a process, and everything outside the node, leaves the node as it is. */
  lemma QuietKeeps(s: System, e: Event)
    requires Inv(s) && !e.Act?
    ensures Inv(Step(s, e))
  {
    match e
    case BeginDispatch(v) =>
      SpawnKeeps(s, Dispatcher(DStart, v));
      SpawnKeeps(s.(sh := Step(s, e).sh), Dispatcher(DStart, s.sh.job.targetVersion));
    case BeginWorker => SpawnKeeps(s, Worker(WStart));
    case BeginReconcile(status, v) =>
      SpawnKeeps(s, Reconciler(RStart, status, v));
      SpawnKeeps(s, Reconciler(RStart, status, s.sh.job.targetVersion));
    case _ =>
  }

  /** A new process has a number of its own and knows nothing yet. */
  lemma SpawnKeeps(s: System, p: Proc)
    requires Inv(s) && (p == Worker(WStart) || (p.Dispatcher? && p.dpc.DStart?) || (p.Reconciler? && p.rpc.RStart?))
    ensures Inv(Spawn(s, p))
  {
  }

  lemma {:induction false} RunKeeps(s: System, events: seq<Event>)
    requires Inv(s)
    ensures Inv(Run(s, events))
    decreases |events|
  {
    if events != [] {
      StepKeeps(s, events[0]);
      RunKeeps(Step(s, events[0]), events[1..]);
    }
  }

  /** In every run, replayed dispatches and repeated workers included, the updater is invoked at most once. */
  lemma AtMostOneInvocation(s: System, events: seq<Event>)
    requires Initial(s)
    ensures Run(s, events).sh.h.invocations <= 1
  {
    RunKeeps(s, events);
  }

  /** A receipt in every reachable state is in contract, and its verdict is the updater's own. */
  lemma ReachableReceipt(s: System, events: seq<Event>)
    requires Initial(s)
    ensures var h := Run(s, events).sh.h;
            h.receipt.Some? ==>
              && Contract(h.receipt.value, h.taskId) && SharedCode(h.receipt.value.code)
              && (h.receipt.value.phase.Succeeded? ==> h.invocations == 1 && h.exit == Some(ExitZero))
              && (h.receipt.value.phase.Failed? ==> h.invocations == 0 || h.exit == Some(ExitFailed))
              && (h.invocations == 1 ==> h.receipt.value.mutationStarted)
  {
    RunKeeps(s, events);
  }

  lemma EvidenceKeptOnce(s: System, e: Event)
    requires Inv(s) && Started(s.sh.h)
    ensures Inv(Step(s, e)) && Started(Step(s, e).sh.h)
    ensures s.sh.h.receipt.value.phase.Terminal() ==> Step(s, e).sh.h.receipt == s.sh.h.receipt
  {
    StepKeeps(s, e);
    if e.Act? && e.pid in s.procs { ActKeeps(s, e.pid, e.choice); }
  }

  /** Evidence that the mutation has started is never cleared, and a started receipt is never closed twice. */
  lemma {:induction false} EvidenceKept(s: System, events: seq<Event>)
    requires Inv(s) && Started(s.sh.h)
    ensures Started(Run(s, events).sh.h)
    ensures s.sh.h.receipt.value.phase.Terminal() ==> Run(s, events).sh.h.receipt == s.sh.h.receipt
    decreases |events|
  {
    if events != [] {
      EvidenceKeptOnce(s, events[0]);
      EvidenceKept(Step(s, events[0]), events[1..]);
    }
  }

  /** The undo of a creation that could not remove its temporary file. */
  ghost predicate UndoesCreation(s: System, e: Event) {
    && e.Act? && e.pid in s.procs
    && s.procs[e.pid].Dispatcher? && s.procs[e.pid].dpc.DLinked?
    && e.choice.create.UndoneWithError?
  }

  /** A terminal receipt changes in exactly one way: its creator, still inside CreatePrepared, takes it away again. */
  lemma TerminalReceiptChangesIff(s: System, e: Event)
    requires Inv(s) && s.sh.h.receipt.Some? && s.sh.h.receipt.value.phase.Terminal()
    ensures Step(s, e).sh.h.receipt != s.sh.h.receipt <==> UndoesCreation(s, e)
    ensures UndoesCreation(s, e) ==> !s.sh.h.receipt.value.mutationStarted && Step(s, e).sh.h.receipt.None?
  {
    if e.Act? && e.pid in s.procs { ActKeeps(s, e.pid, e.choice); }
  }
}
