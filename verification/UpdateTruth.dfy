/**
  Truth of the Manager's verdicts when the dispatch task is handed out once and nobody replays it:
  every verdict agrees with the durable receipt and with what the updater did, and a failure without a
  dispatch time means that the updater never ran and never will.
 */
module UpdateTruth {
  import opened Common
  import opened Formats
  import opened Receipts
  import opened UpdateProtocol
  import opened UpdateSafety
  import J = UpdateJobs

  /** The only dispatch is over and no updater can be started any more. */
  ghost predicate NeverRuns(sh: Shared) {
    && sh.handouts == 1 && sh.tokens == 0
    && sh.h.invocations == 0 && sh.h.mutator.None?
    && ((InPhase(sh.h, Phase.Failed) && !Started(sh.h)) || (sh.doomed && !sh.h.launched))
  }

  /** What the arrival of a completion would make the Manager believe is so. */
  ghost predicate Honest(sh: Shared, m: J.Completion) {
    m.evidence.Some? &&
    match m.envelope
    case EnvelopeOther => false
    case EnvelopeFailed => m.evidence.value.status.RFailed? && NeverRuns(sh)
    case EnvelopeSucceeded =>
      match m.evidence.value.status
      case RPending => sh.h.confirmed
      case RMutationDispatched => sh.h.confirmed
      case RSucceeded => InPhase(sh.h, Phase.Succeeded)
      case RFailed => InPhase(sh.h, Phase.Failed) && sh.h.confirmed
      case ROutcomeUnknown => InPhase(sh.h, Phase.OutcomeUnknown)
      case RUnsupported => false
  }

  /** The verdict on the job row is so. */
  ghost predicate TrueVerdict(sh: Shared) {
    match sh.job.status
    case Pending => true
    case InProgress => true
    case MutationDispatched => sh.h.confirmed
    case Succeeded => InPhase(sh.h, Phase.Succeeded)
    case OutcomeUnknown => InPhase(sh.h, Phase.OutcomeUnknown)
    case Failed => if sh.job.dispatchedAt.None? then NeverRuns(sh) else InPhase(sh.h, Phase.Failed) && sh.h.confirmed
  }

  /** A reconciliation task was handed out with this status. */
  ghost predicate Reconcilable(sh: Shared, status: J.JobStatus) {
    sh.handouts == 1 && (status.InProgress? || (status.MutationDispatched? && sh.h.confirmed))
  }

  /** The part of the invariant that speaks of the single dispatch. */
  ghost predicate SingleDispatch(sh: Shared) {
    && !sh.replay
    && sh.job.id == sh.h.taskId && J.RowChecks(sh.job)
    && sh.handouts <= 1 && sh.tokens <= sh.handouts
    && (sh.job.status.Pending? <==> sh.handouts == 0)
    && (sh.dispatcher.Some? ==> sh.handouts == 1 && sh.tokens == 0)
    && (sh.h.receipt.Some? ==> sh.dispatcher.Some?)
    && (Started(sh.h) ==> sh.h.launched)
    && (sh.doomed ==> !sh.h.launched && sh.dispatcher.Some?)
    && (forall st :: st in sh.reconciles ==> Reconcilable(sh, st))
  }

  ghost predicate Truth(sh: Shared) {
    && SingleDispatch(sh)
    && (forall m :: m in sh.sent ==> Honest(sh, m))
    && TrueVerdict(sh)
  }

  ghost predicate ProcTruth(sh: Shared, pid: nat, p: Proc) {
    match p
    case Dispatcher(pc, v) =>
      sh.dispatcher == Some(pid) &&
      (match pc
       case DFailing(_, _) => sh.doomed
       case DReport(dispatched) => dispatched || sh.doomed
       case DLaunched => true
       case DOrphan => true
       case _ => !sh.doomed && !sh.h.launched)
    case Worker(_) => sh.h.launched
    case Reconciler(pc, status, _) =>
      Reconcilable(sh, status) && (pc.RReport? ==> Honest(sh, pc.completion))
  }

  /** What an action of process `actor` may do to the facts the others rely on. */
  ghost predicate Respects(actor: nat, sh: Shared, sh': Shared) {
    && sh'.replay == sh.replay && sh'.job == sh.job && sh'.handouts == sh.handouts && sh'.tokens == sh.tokens
    && sh'.reconciles == sh.reconciles && sh'.dispatcher == sh.dispatcher
    && (sh.dispatcher.Some? && sh.dispatcher != Some(actor) ==> sh'.doomed == sh.doomed && sh'.h.launched == sh.h.launched)
    && (sh.doomed ==> sh'.doomed)
    && (NeverRuns(sh) ==> NeverRuns(sh'))
    && Guarantees(actor, sh.h, sh'.h)
  }

  /** A completion stays true whatever other processes do. */
  lemma HonestStable(actor: nat, sh: Shared, sh': Shared, m: J.Completion)
    requires Base(sh.h) && Respects(actor, sh, sh') && Honest(sh, m)
    ensures Honest(sh', m)
  {
  }

  lemma VerdictStable(actor: nat, sh: Shared, sh': Shared)
    requires Base(sh.h) && Respects(actor, sh, sh') && TrueVerdict(sh)
    ensures TrueVerdict(sh')
  {
  }

  lemma ProcTruthStable(actor: nat, sh: Shared, sh': Shared, pid: nat, p: Proc)
    requires Base(sh.h) && Respects(actor, sh, sh') && actor != pid && ProcTruth(sh, pid, p)
    ensures ProcTruth(sh', pid, p)
  {
    if p.Reconciler? && p.rpc.RReport? { HonestStable(actor, sh, sh', p.rpc.completion); }
  }

  /** An action of one process, apart from the messages it sends. */
  ghost predicate Sound(sh: Shared, pid: nat, e: Effect) {
    && SingleDispatch(Performed(sh, e))
    && Respects(pid, sh, Performed(sh, e))
    && (e.next.Some? ==> ProcTruth(Performed(sh, e), pid, e.next.value))
    && (e.send.Some? ==> Honest(Performed(sh, e), e.send.value))
  }

  ghost predicate Ready(sh: Shared, pid: nat, p: Proc) {
    Base(sh.h) && SingleDispatch(sh) && ProcBase(sh.h, pid, p) && ProcTruth(sh, pid, p)
  }

  lemma CreateStepSound(sh: Shared, pid: nat, pc: DispatchPc, v: string, c: Choice)
    requires pc.DStart? || pc.DInspect? || pc.DChecked? || pc.DLinked?
    requires Ready(sh, pid, Dispatcher(pc, v))
    ensures Sound(sh, pid, CreateStep(sh.h, pid, pc, v, c))
  {
    CreateStepSafe(sh.h, pid, pc, v, c);
  }

  lemma StageStepSound(sh: Shared, pid: nat, pc: DispatchPc, v: string, c: Choice)
    requires pc.DCreated? || pc.DReady? || pc.DAccepted? || pc.DStaging?
    requires Ready(sh, pid, Dispatcher(pc, v))
    ensures Sound(sh, pid, StageStep(sh.h, pc, v, c))
  {
    if pc.DStaging? { DownloadSound(sh, pid, v, c); } else { StageStepSafe(sh.h, pid, pc, v, c); }
  }

  lemma DownloadSound(sh: Shared, pid: nat, v: string, c: Choice)
    requires Ready(sh, pid, Dispatcher(DStaging, v))
    ensures Sound(sh, pid, StageStep(sh.h, DStaging, v, c))
  {
    DownloadSafe(sh.h, pid, v, c);
  }

  lemma LaunchStepSound(sh: Shared, pid: nat, pc: DispatchPc, v: string, c: Choice)
    requires pc.DStaged? || pc.DReaccepted? || pc.DLaunched?
    requires Ready(sh, pid, Dispatcher(pc, v))
    ensures Sound(sh, pid, LaunchStep(sh.h, pc, v, c))
  {
    LaunchStepSafe(sh.h, pid, pc, v, c);
  }

  lemma FailingSound(sh: Shared, pid: nat, code: string, reportAnyway: bool, v: string, c: Choice)
    requires Ready(sh, pid, Dispatcher(DFailing(code, reportAnyway), v))
    ensures Sound(sh, pid, FinishStep(sh.h, DFailing(code, reportAnyway), v, c))
  {
    FinishStepSafe(sh.h, pid, DFailing(code, reportAnyway), v, c);
    StoreOpFacts(sh.h, Phase.Failed, false, code, c);
  }

  lemma FinishStepSound(sh: Shared, pid: nat, pc: DispatchPc, v: string, c: Choice)
    requires pc.DFailing? || pc.DOrphan? || pc.DReport?
    requires Ready(sh, pid, Dispatcher(pc, v))
    ensures Sound(sh, pid, FinishStep(sh.h, pc, v, c))
  {
    match pc
    case DFailing(code, reportAnyway) => FailingSound(sh, pid, code, reportAnyway, v, c);
    case DOrphan =>
      FinishStepSafe(sh.h, pid, pc, v, c);
      StoreOpFacts(sh.h, Phase.OutcomeUnknown, true, ORPHANED, c);
    case DReport(_) => FinishStepSafe(sh.h, pid, pc, v, c);
  }

  lemma WorkerSound(sh: Shared, pid: nat, pc: WorkerPc, c: Choice)
    requires Ready(sh, pid, Worker(pc))
    ensures Sound(sh, pid, WorkerStep(sh.h, pid, pc, c))
  {
    if pc.WMark? { MarkSound(sh, pid, c); } else { WorkerSafe(sh.h, pid, pc, c); }
  }

  lemma MarkSound(sh: Shared, pid: nat, c: Choice)
    requires Ready(sh, pid, Worker(WMark))
    ensures Sound(sh, pid, WorkerStep(sh.h, pid, WMark, c))
  {
    WorkerSafe(sh.h, pid, WMark, c);
    StoreOpFacts(sh.h, Phase.MutationStarted, true, "", c);
  }

  /** A terminal receipt is reported honestly whichever envelope the reconciler picks. */
  lemma ReportHonest(sh: Shared, status: J.JobStatus)
    requires Base(sh.h) && SingleDispatch(sh) && Reconcilable(sh, status)
    requires sh.h.receipt.Some? && sh.h.receipt.value.phase.Terminal()
    ensures Honest(sh, ReconcileReport(sh.h.receipt.value, status))
  {
  }

  lemma ReconcileMarkSound(sh: Shared, pid: nat, started: bool, status: J.JobStatus, v: string, c: Choice)
    requires Ready(sh, pid, Reconciler(RMark(started), status, v))
    ensures Sound(sh, pid, ReconcileStep(sh.h, RMark(started), status, v, c))
  {
    ReconcileMarkSafe(sh.h, pid, started, status, v, c);
    var phase := if started then Phase.OutcomeUnknown else Phase.Failed;
    StoreOpFacts(sh.h, phase, started, WORKER_MISSING, c);
    var e := ReconcileStep(sh.h, RMark(started), status, v, c);
    assert SingleDispatch(Performed(sh, e)) && Respects(pid, sh, Performed(sh, e));
    if e.next.Some? { ReportHonest(Performed(sh, e), status); }
  }

  lemma ReconcileSound(sh: Shared, pid: nat, pc: ReconcilePc, status: J.JobStatus, v: string, c: Choice)
    requires Ready(sh, pid, Reconciler(pc, status, v))
    ensures Sound(sh, pid, ReconcileStep(sh.h, pc, status, v, c))
  {
    if pc.RMark? { ReconcileMarkSound(sh, pid, pc.started, status, v, c); }
    else {
      ReconcileSafe(sh.h, pid, pc, status, v, c);
      if pc.RStart? && sh.h.receipt.Some? && sh.h.receipt.value.phase.Terminal() { ReportHonest(sh, status); }
    }
  }

  lemma ProcSound(sh: Shared, pid: nat, p: Proc, c: Choice)
    requires Ready(sh, pid, p)
    ensures Sound(sh, pid, ProcStep(sh.h, pid, p, c))
  {
    match p
    case Dispatcher(pc, v) =>
      if pc.DStart? || pc.DInspect? || pc.DChecked? || pc.DLinked? { CreateStepSound(sh, pid, pc, v, c); }
      else if pc.DCreated? || pc.DReady? || pc.DAccepted? || pc.DStaging? { StageStepSound(sh, pid, pc, v, c); }
      else if pc.DStaged? || pc.DReaccepted? || pc.DLaunched? { LaunchStepSound(sh, pid, pc, v, c); }
      else { FinishStepSound(sh, pid, pc, v, c); }
    case Worker(pc) => WorkerSound(sh, pid, pc, c);
    case Reconciler(pc, status, v) => ReconcileSound(sh, pid, pc, status, v, c);
  }

  ghost predicate InvTruth(s: System) {
    && Inv(s)
    && Truth(s.sh)
    && (s.sh.dispatcher.Some? ==> s.sh.dispatcher.value < s.next)
    && (forall pid :: pid in s.procs ==> ProcTruth(s.sh, pid, s.procs[pid]))
  }

  lemma ActKeepsTruth(s: System, pid: nat, c: Choice)
    requires InvTruth(s) && pid in s.procs
    ensures InvTruth(ActStep(s, pid, c))
  {
    ActKeeps(s, pid, c);
    ProcSound(s.sh, pid, s.procs[pid], c);
    var s' := ActStep(s, pid, c);
    forall m | m in s'.sh.sent ensures Honest(s'.sh, m) {
      if m in s.sh.sent { HonestStable(pid, s.sh, s'.sh, m); }
    }
    VerdictStable(pid, s.sh, s'.sh);
    forall q | q in s'.procs ensures ProcTruth(s'.sh, q, s'.procs[q]) {
      if q != pid { ProcTruthStable(pid, s.sh, s'.sh, q, s.procs[q]); }
    }
  }

  /** Nothing but the verdict depends on the job row. */
  lemma JobIsApart(sh: Shared, job: J.Job)
    ensures forall m :: Honest(sh, m) ==> Honest(sh.(job := job), m)
    ensures forall pid, p :: ProcTruth(sh, pid, p) ==> ProcTruth(sh.(job := job), pid, p)
  {
  }

  /** A completion that the Manager accepts turns its message into the verdict. */
  lemma DeliverKeepsTruth(s: System, m: J.Completion, observed: J.JobStatus, at: Instant)
    requires InvTruth(s)
    ensures InvTruth(Step(s, Deliver(m, observed, at)))
  {
    var r := J.Complete(s.sh.job, observed, m, at);
    if m in s.sh.sent && r.Ok? {
      J.CompleteFollowsLifecycle(s.sh.job, observed, m, at);
      assert Honest(s.sh, m);
      VerdictFromMessage(s.sh, m, observed, at);
      JobIsApart(s.sh, r.value);
    }
  }

  lemma VerdictFromMessage(sh: Shared, m: J.Completion, observed: J.JobStatus, at: Instant)
    requires Honest(sh, m) && J.RowChecks(sh.job) && J.Complete(sh.job, observed, m, at).Ok?
    ensures TrueVerdict(sh.(job := J.Complete(sh.job, observed, m, at).value))
  {
  }

  lemma StepKeepsTruth(s: System, e: Event)
    requires InvTruth(s)
    ensures InvTruth(Step(s, e))
  {
    match e
    case Act(pid, c) => if pid in s.procs { ActKeepsTruth(s, pid, c); }
    case Deliver(m, observed, at) => DeliverKeepsTruth(s, m, observed, at);
    case BeginDispatch(_) => BeginKeepsTruth(s, e);
    case BeginWorker => BeginKeepsTruth(s, e);
    case BeginReconcile(_, _) => BeginKeepsTruth(s, e);
    case _ => QuietKeepsTruth(s, e);
  }

  /** Hand-outs and crashes. */
  lemma QuietKeepsTruth(s: System, e: Event)
    requires InvTruth(s) && !e.Act? && !e.Deliver? && !e.BeginDispatch? && !e.BeginWorker? && !e.BeginReconcile?
    ensures InvTruth(Step(s, e))
  {
    QuietKeeps(s, e);
  }

  lemma BeginKeepsTruth(s: System, e: Event)
    requires InvTruth(s) && (e.BeginDispatch? || e.BeginWorker? || e.BeginReconcile?)
    ensures InvTruth(Step(s, e))
  {
    QuietKeeps(s, e);
  }

  lemma {:induction false} RunKeepsTruth(s: System, events: seq<Event>)
    requires InvTruth(s)
    ensures InvTruth(Run(s, events))
    decreases |events|
  {
    if events != [] {
      StepKeepsTruth(s, events[0]);
      RunKeepsTruth(Step(s, events[0]), events[1..]);
    }
  }

  /** Every verdict of the Manager agrees with the receipt and with what the updater did. */
  lemma VerdictsAreTrue(s: System, events: seq<Event>)
    requires Initial(s) && !s.sh.replay
    ensures var sh := Run(s, events).sh;
            && sh.handouts <= 1
            && (sh.job.status.MutationDispatched? ==> sh.h.receipt.Some?)
            && (sh.job.status.Succeeded? ==> InPhase(sh.h, Phase.Succeeded) && sh.h.invocations == 1 && sh.h.exit == Some(ExitZero))
            && (sh.job.status.OutcomeUnknown? ==> InPhase(sh.h, Phase.OutcomeUnknown) && Started(sh.h))
            && (sh.job.status.Failed? && sh.job.dispatchedAt.None? ==> sh.h.invocations == 0)
            && (sh.job.status.Failed? && sh.job.dispatchedAt.Some? ==>
                  InPhase(sh.h, Phase.Failed) && (sh.h.invocations == 0 || sh.h.exit == Some(ExitFailed)))
  {
    RunKeepsTruth(s, events);
  }

  lemma {:induction false} RunAppend(s: System, a: seq<Event>, b: seq<Event>)
    ensures Run(s, a + b) == Run(Run(s, a), b)
    decreases |a|
  {
    if a == [] { assert a + b == b; }
    else {
      assert (a + b)[1..] == a[1..] + b;
      RunAppend(Step(s, a[0]), a[1..], b);
    }
  }

  /** A verdict is never revised. */
  lemma {:induction false} VerdictIsFinal(s: System, events: seq<Event>)
    requires s.sh.job.status.Terminal()
    ensures Run(s, events).sh.job == s.sh.job
    decreases |events|
  {
    if events != [] {
      VerdictStays(s, events[0]);
      VerdictIsFinal(Step(s, events[0]), events[1..]);
    }
  }

  lemma VerdictStays(s: System, e: Event)
    requires s.sh.job.status.Terminal()
    ensures Step(s, e).sh.job == s.sh.job
  {
  }

  /** A failure without a dispatch time: the updater has not run, and does not run in any continuation. */
  lemma FailedBeforeDispatchNeverRuns(s: System, events: seq<Event>, more: seq<Event>)
    requires Initial(s) && !s.sh.replay
    requires Run(s, events).sh.job.status.Failed? && Run(s, events).sh.job.dispatchedAt.None?
    ensures Run(s, events + more).sh.h.invocations == 0
    ensures Run(s, events + more).sh.job == Run(s, events).sh.job
  {
    RunAppend(s, events, more);
    VerdictIsFinal(Run(s, events), more);
    RunKeepsTruth(s, events + more);
  }

  /** The job status that a receipt phase stands for. */
  function StandsFor(phase: Phase): J.JobStatus {
    match phase
    case Prepared => J.MutationDispatched
    case MutationStarted => J.MutationDispatched
    case Succeeded => J.Succeeded
    case Failed => J.Failed
    case OutcomeUnknown => J.OutcomeUnknown
  }

  /** Every receipt of every run, sent as evidence, is accepted by the Manager as the matching status. */
  lemma ReceiptsAreAcceptedEvidence(s: System, events: seq<Event>)
    requires Initial(s) && CanonicalTaskId(s.sh.job.id)
    ensures var h := Run(s, events).sh.h;
            h.receipt.Some? ==>
              var r := h.receipt.value;
              J.ReconcileEvidence(r.taskId, r.targetVersion, ReconcileReport(r, J.MutationDispatched).evidence.value)
                == Ok(StandsFor(r.phase))
  {
    ReachableReceipt(s, events);
    TaskIdKept(s, events);
  }

  lemma {:induction false} TaskIdKept(s: System, events: seq<Event>)
    requires Inv(s)
    ensures Run(s, events).sh.h.taskId == s.sh.h.taskId
    decreases |events|
  {
    if events != [] {
      StepKeeps(s, events[0]);
      if events[0].Act? && events[0].pid in s.procs { ActKeeps(s, events[0].pid, events[0].choice); }
      TaskIdKept(Step(s, events[0]), events[1..]);
    }
  }
}
