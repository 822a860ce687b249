/**
  What an update comes to: every way in which a launched worker can end is recorded as it happened, and is
  brought to the Manager's row by a run of every system that starts with a well-formed job.
 */
module UpdateOutcomes {
  import opened Common
  import opened Formats
  import opened Receipts
  import opened UpdateProtocol
  import opened UpdateSafety
  import opened UpdateWitnesses
  import J = UpdateJobs

  /** How the work of a launched worker ends. */
  datatype Ending = NotReady | NotStarted | Ended(exit: UpdaterExit)

  /** The receipt phase that stands for an ending. */
  function PhaseOf(e: Ending): Phase {
    match e
    case NotReady => Phase.Failed
    case NotStarted => Phase.Failed
    case Ended(exit) =>
      match exit
      case ExitZero => Phase.Succeeded
      case ExitFailed => Phase.Failed
      case ExitUnknown(_) => Phase.OutcomeUnknown
  }

  function CodeOf(e: Ending): string {
    match e
    case NotReady => "runtime_not_ready_before_mutation"
    case NotStarted => "updater_start_failed"
    case Ended(exit) =>
      match exit
      case ExitZero => ""
      case ExitFailed => "verified_updater_failed"
      case ExitUnknown(incomplete) => if incomplete then "rollback_incomplete" else "verified_updater_signaled"
  }

  lemma PlainCode(code: string)
    requires code in {"runtime_not_ready_before_mutation", "updater_start_failed"}
    ensures EvidenceCode(code)
  {
  }

  lemma ExitCode(code: string)
    requires code in {"verified_updater_failed", "rollback_incomplete", "verified_updater_signaled"}
    ensures EvidenceCode(code)
  {
  }

  lemma CodesAreReceiptCodes(e: Ending)
    ensures if PhaseOf(e).Succeeded? then CodeOf(e) == "" else EvidenceCode(CodeOf(e))
  {
    if e.Ended? { if !e.exit.ExitZero? { ExitCode(CodeOf(e)); } } else { PlainCode(CodeOf(e)); }
  }

  /** The environment neither hides the receipt nor loses the write, and its clock has not run backwards. */
  predicate Undisturbed(h: Host, c: Choice) {
    h.receipt.Some? && h.receipt.value.createdAt <= c.now && !c.fault && c.io.Durable?
  }

  /** The receipt that closes an open one. */
  function Closed(r: Receipt, e: Ending, now: Instant): Receipt {
    r.(phase := PhaseOf(e), mutationStarted := !e.NotReady?, code := CodeOf(e), updatedAt := now)
  }

  /** In every reachable state, what the worker saw of its updater is what it records, and nothing else. */
  lemma ExitIsRecorded(s: System, events: seq<Event>, pid: nat, exit: UpdaterExit, c: Choice)
    requires Initial(s)
    requires var t := Run(s, events);
             && pid in t.procs && t.procs[pid] == Worker(WExited(exit))
             && InPhase(t.sh.h, Phase.MutationStarted) && Undisturbed(t.sh.h, c)
    ensures var before := Run(s, events).sh.h.receipt.value;
            var after := Step(Run(s, events), Act(pid, c)).sh.h.receipt;
            && after == Some(Closed(before, Ended(exit), c.now))
            && (after.value.phase.Succeeded? <==> exit.ExitZero?)
            && (after.value.phase == Phase.Failed <==> exit.ExitFailed?)
            && (after.value.phase == Phase.OutcomeUnknown <==> exit.ExitUnknown?)
  {
    RunKeeps(s, events);
    CodesAreReceiptCodes(Ended(exit));
    var t := Run(s, events);
    var r := t.sh.h.receipt.value;
    TransitExact(r, t.sh.h.taskId, PhaseOf(Ended(exit)), true, CodeOf(Ended(exit)), c.now);
  }

  /** What the next action of process pid leaves of the receipt, in a reachable state. */
  ghost predicate Records(t: System, pid: nat, c: Choice, phase: Phase, started: bool, code: string) {
    t.sh.h.receipt.Some? && Step(t, Act(pid, c)).sh.h.receipt == Some(Advanced(t.sh.h.receipt.value, phase, started, code, c.now))
  }

  /** Whoever finds a mutation that it did not start closes it as interrupted. */
  lemma OrphanIsClosed(s: System, events: seq<Event>, pid: nat, c: Choice)
    requires Initial(s)
    requires var t := Run(s, events);
             && pid in t.procs && (t.procs[pid] == Worker(WOrphan) || (t.procs[pid].Dispatcher? && t.procs[pid].dpc == DOrphan))
             && InPhase(t.sh.h, Phase.MutationStarted) && Undisturbed(t.sh.h, c)
    ensures Records(Run(s, events), pid, c, Phase.OutcomeUnknown, true, "agent_restart_after_mutation_started")
  {
    RunKeeps(s, events);
    OrphanedCode();
    var h := Run(s, events).sh.h;
    StoreTransitExact(h.receipt, h.taskId, Phase.OutcomeUnknown, true, ORPHANED, c.now, c.fault, c.io);
  }

  lemma MissingCode()
    ensures ReceiptCode("detached_worker_missing")
  {
  }

  /** A reconciler that finds the worker missing closes a started mutation as unknown and an unstarted one as failed, and reports it. */
  lemma MissingWorkerIsClosed(s: System, events: seq<Event>, pid: nat, started: bool, c: Choice)
    requires Initial(s)
    requires var t := Run(s, events);
             && pid in t.procs && t.procs[pid].Reconciler? && t.procs[pid].rpc == RMark(started)
             && InPhase(t.sh.h, if started then Phase.MutationStarted else Phase.Prepared) && Undisturbed(t.sh.h, c)
    ensures Records(Run(s, events), pid, c, if started then Phase.OutcomeUnknown else Phase.Failed, started, "detached_worker_missing")
    ensures var t, t' := Run(s, events), Step(Run(s, events), Act(pid, c));
            && pid in t'.procs && t'.procs[pid].Reconciler? && t'.sh.h.receipt.Some?
            && t'.procs[pid].rpc == RReport(ReconcileReport(t'.sh.h.receipt.value, t.procs[pid].managerStatus))
  {
    RunKeeps(s, events);
    MissingCode();
    var h := Run(s, events).sh.h;
    StoreTransitExact(h.receipt, h.taskId, if started then Phase.OutcomeUnknown else Phase.Failed, started, WORKER_MISSING, c.now, c.fault, c.io);
  }

  // ---------------------------------------------------------------- what a process makes of what it finds

  /** The process is now here, and the node is as it was. */
  ghost predicate MovesTo(t: System, pid: nat, c: Choice, p: Proc) {
    var t' := Step(t, Act(pid, c));
    pid in t'.procs && t'.procs[pid] == p && t'.sh.h == t.sh.h && t'.sh.sent == t.sh.sent
  }

  /** The process has ended without a trace. */
  ghost predicate GivesUp(t: System, pid: nat, c: Choice) {
    var t' := Step(t, Act(pid, c));
    pid !in t'.procs && t'.sh.h == t.sh.h && t'.sh.sent == t.sh.sent
  }

  /** Any earlier state of the task, a receipt or a staging directory, whole or partial, ends a dispatch without a trace. */
  lemma PriorStateStops(t: System, pid: nat, v: string, c: Choice)
    requires pid in t.procs && !c.fault && CanonicalTaskId(t.sh.h.taskId) && ValidVersion(v)
    ensures t.procs[pid] == Dispatcher(DStart, v) ==>
              if t.sh.h.receipt.Some? then GivesUp(t, pid, c) else MovesTo(t, pid, c, Dispatcher(DInspect, v))
    ensures t.procs[pid] == Dispatcher(DInspect, v) ==>
              if t.sh.h.staged.Some? || t.sh.h.partial then GivesUp(t, pid, c) else MovesTo(t, pid, c, Dispatcher(DChecked, v))
  {
  }

  /** A process that needs a prepared receipt goes on exactly with one, takes a started one for an orphan, and gives up otherwise. */
  lemma OnlyPreparedGoesOn(t: System, pid: nat, v: string, c: Choice, go: Proc, orphan: Proc)
    requires pid in t.procs && !c.fault && t.sh.h.receipt.Some? && Contract(t.sh.h.receipt.value, t.sh.h.taskId)
    requires || (t.procs[pid] == Dispatcher(DReady, v) && go == Dispatcher(DAccepted, v) && orphan == Dispatcher(DOrphan, v))
             || (t.procs[pid] == Dispatcher(DStaged, v) && go == Dispatcher(DReaccepted, v) && orphan == Dispatcher(DOrphan, v))
             || (t.procs[pid] == Worker(WStaged(v)) && go == Worker(WAccepted) && orphan == Worker(WOrphan))
    ensures var r := t.sh.h.receipt.value;
            if r.targetVersion != v || r.phase.Terminal() then GivesUp(t, pid, c)
            else if r.phase.Prepared? then MovesTo(t, pid, c, go)
            else MovesTo(t, pid, c, orphan)
  {
  }

  /** Only a launch that returned without an error is reported; after any other nothing is said about the outcome. */
  lemma LaunchIsReported(t: System, pid: nat, v: string, c: Choice)
    requires pid in t.procs && t.procs[pid] == Dispatcher(DLaunched, v)
    ensures if c.ok then MovesTo(t, pid, c, Dispatcher(DReport(true), v)) else GivesUp(t, pid, c)
  {
  }

  /** A reconciler reports a closed receipt, leaves an active worker alone, and takes an absent one for missing. */
  lemma ReconcilerDecides(t: System, pid: nat, started: bool, status: J.JobStatus, v: string, c: Choice)
    requires pid in t.procs && !c.fault && t.sh.h.receipt.Some? && t.sh.h.receipt.value.targetVersion == v
    ensures t.procs[pid] == Reconciler(RStart, status, v) ==>
              var r := t.sh.h.receipt.value;
              MovesTo(t, pid, c, Reconciler(if r.phase.Terminal() then RReport(ReconcileReport(r, status)) else RProbe(r.mutationStarted), status, v))
    ensures t.procs[pid] == Reconciler(RProbe(started), status, v) ==>
              MovesTo(t, pid, c, Reconciler(if c.active && t.sh.h.launched then RReport(PendingReport(t.sh.h.taskId, v)) else RMark(started), status, v))
  {
  }

  // ---------------------------------------------------------------- from the hand-out to the verdict

  /** An action of the only process. */
  lemma ActAlone(t: System, pid: nat, p: Proc, c: Choice)
    requires t.procs == map[pid := p]
    ensures var e := ProcStep(t.sh.h, pid, p, c);
            Step(t, Act(pid, c)) == System(Performed(t.sh, e), if e.next.Some? then map[pid := e.next.value] else map[], t.next)
  {
    assert t.procs - {pid} == map[];
    assert forall q: Proc :: t.procs[pid := q] == map[pid := q];
  }

  /** The launch is accepted. */
  lemma Launches(s: System, now: Instant) returns (events: seq<Event>, t: System)
    requires Initial(s) && CanonicalTaskId(s.sh.job.id) && ValidVersion(s.sh.job.targetVersion)
    ensures t == Run(s, events) && t.next == 1 && t.procs == map[0 := Dispatcher(DLaunched, s.sh.job.targetVersion)]
    ensures t.sh.job == J.ClaimedForDispatch(s.sh.job, now).value && t.sh.replay == s.sh.replay
    ensures t.sh.h == s.sh.h.(receipt := Some(Fresh(s.sh.job.id, s.sh.job.targetVersion, now)), confirmed := true,
                              staged := Some(s.sh.job.targetVersion), launched := true)
  {
    var v := s.sh.job.targetVersion;
    events, t := Linked(s, now);
    events, t := DispatchAccepts(s, events, t, now);
    events, t := DispatchStages(s, events, t, now);
    ActAlone(t, 0, Dispatcher(DStaged, v), Smooth(now));
    events, t := Then(s, events, t, Act(0, Smooth(now)));
    ActAlone(t, 0, Dispatcher(DReaccepted, v), Smooth(now));
    events, t := Then(s, events, t, Act(0, Smooth(now)));
  }

  /** The dispatch acknowledgement is sent. */
  lemma Acknowledges(s: System, now: Instant) returns (events: seq<Event>, t: System)
    requires Initial(s) && CanonicalTaskId(s.sh.job.id) && ValidVersion(s.sh.job.targetVersion)
    ensures t == Run(s, events) && t.next == 1 && t.procs == map[]
    ensures t.sh.job == J.ClaimedForDispatch(s.sh.job, now).value && t.sh.replay == s.sh.replay
    ensures DispatchReport(s.sh.job.id, s.sh.job.targetVersion, true) in t.sh.sent
    ensures t.sh.h == s.sh.h.(receipt := Some(Fresh(s.sh.job.id, s.sh.job.targetVersion, now)), confirmed := true,
                              staged := Some(s.sh.job.targetVersion), launched := true)
  {
    var v := s.sh.job.targetVersion;
    events, t := Launches(s, now);
    ActAlone(t, 0, Dispatcher(DLaunched, v), Smooth(now));
    events, t := Then(s, events, t, Act(0, Smooth(now)));
    ActAlone(t, 0, Dispatcher(DReport(true), v), Smooth(now));
    events, t := Then(s, events, t, Act(0, Smooth(now)));
  }

  /** The Manager has recorded the dispatch. */
  lemma Dispatched(s: System, now: Instant) returns (events: seq<Event>, t: System)
    requires Initial(s) && CanonicalTaskId(s.sh.job.id) && ValidVersion(s.sh.job.targetVersion)
    ensures t == Run(s, events) && t.next == 1 && t.procs == map[]
    ensures t.sh.job.status.MutationDispatched? && t.sh.job.updatedAt == now && J.SameIdentity(s.sh.job, t.sh.job) && J.RowChecks(t.sh.job)
    ensures t.sh.h == s.sh.h.(receipt := Some(Fresh(s.sh.job.id, s.sh.job.targetVersion, now)), confirmed := true,
                              staged := Some(s.sh.job.targetVersion), launched := true)
  {
    events, t := Acknowledges(s, now);
    var m := DispatchReport(s.sh.job.id, s.sh.job.targetVersion, true);
    J.CompleteExact(t.sh.job, J.InProgress, m, now);
    J.CompleteFollowsLifecycle(t.sh.job, J.InProgress, m, now);
    events, t := Then(s, events, t, Deliver(m, J.InProgress, now));
  }

  /** The launched worker has accepted the receipt. */
  lemma WorkerAccepts(s: System, now: Instant) returns (events: seq<Event>, t: System)
    requires Initial(s) && CanonicalTaskId(s.sh.job.id) && ValidVersion(s.sh.job.targetVersion)
    ensures t == Run(s, events) && WorkerAlone(s, t, WAccepted, now) && t.sh.h.invocations == 0
    ensures t.sh.h.receipt == Some(Fresh(s.sh.job.id, s.sh.job.targetVersion, now))
  {
    var v := s.sh.job.targetVersion;
    events, t := Dispatched(s, now);
    events, t := Then(s, events, t, BeginWorker);
    assert t.procs == map[1 := Worker(WStart)];
    ActAlone(t, 1, Worker(WStart), Smooth(now));
    events, t := Then(s, events, t, Act(1, Smooth(now)));
    ActAlone(t, 1, Worker(WStaged(v)), Smooth(now));
    events, t := Then(s, events, t, Act(1, Smooth(now)));
  }

  /** The row of a dispatched job. */
  ghost predicate RowDispatched(s: System, t: System, now: Instant) {
    && t.next == 2 && t.sh.h.taskId == s.sh.job.id
    && t.sh.job.status.MutationDispatched? && t.sh.job.updatedAt == now && J.SameIdentity(s.sh.job, t.sh.job) && J.RowChecks(t.sh.job)
  }

  /** The worker is the only process, and its job is dispatched. */
  ghost predicate WorkerAlone(s: System, t: System, pc: WorkerPc, now: Instant) {
    t.procs == map[1 := Worker(pc)] && RowDispatched(s, t, now)
  }

  lemma WorkerActs(s: System, events0: seq<Event>, t0: System, pc: WorkerPc, now: Instant, c: Choice) returns (events: seq<Event>, t: System)
    requires t0 == Run(s, events0) && WorkerAlone(s, t0, pc, now)
    ensures t == Run(s, events) && RowDispatched(s, t, now) && t.sh.h == WorkerStep(t0.sh.h, 1, pc, c).h
    ensures var next := WorkerStep(t0.sh.h, 1, pc, c).next; t.procs == if next.Some? then map[1 := next.value] else map[]
  {
    ActAlone(t0, 1, Worker(pc), c);
    events, t := Then(s, events0, t0, Act(1, c));
  }

  /** The worker has marked the mutation. */
  lemma WorkerMarks(s: System, now: Instant) returns (events: seq<Event>, t: System)
    requires Initial(s) && CanonicalTaskId(s.sh.job.id) && ValidVersion(s.sh.job.targetVersion)
    ensures t == Run(s, events) && WorkerAlone(s, t, WMarked, now) && t.sh.h.invocations == 0
    ensures t.sh.h.receipt == Some(Marked(s, now))
  {
    events, t := WorkerAccepts(s, now);
    events, t := WorkerActs(s, events, t, WAccepted, now, Smooth(now));
    FreshIsMarked(t.sh.h, s.sh.job.targetVersion, now);
    events, t := WorkerActs(s, events, t, WMark, now, Smooth(now));
  }

  function Marked(s: System, now: Instant): Receipt {
    Fresh(s.sh.job.id, s.sh.job.targetVersion, now).(phase := Phase.MutationStarted, mutationStarted := true)
  }

  /** The updater has run and exited. */
  lemma WorkerExits(s: System, exit: UpdaterExit, now: Instant) returns (events: seq<Event>, t: System)
    requires Initial(s) && CanonicalTaskId(s.sh.job.id) && ValidVersion(s.sh.job.targetVersion)
    ensures t == Run(s, events) && WorkerAlone(s, t, WExited(exit), now)
    ensures t.sh.h.receipt == Some(Marked(s, now)) && t.sh.h.invocations == 1
  {
    events, t := WorkerMarks(s, now);
    events, t := WorkerActs(s, events, t, WMarked, now, Smooth(now));
    events, t := WorkerActs(s, events, t, WRunning, now, Smooth(now).(exit := exit));
  }

  /** How often an ending has started the updater. */
  function InvocationsOf(e: Ending): nat { if e.Ended? then 1 else 0 }

  /** The receipt before it is closed. */
  function OpenReceipt(s: System, e: Ending, now: Instant): Receipt {
    if e.NotReady? then Fresh(s.sh.job.id, s.sh.job.targetVersion, now) else Marked(s, now)
  }

  /** The worker is about to close the receipt. */
  lemma WorkerFinishes(s: System, e: Ending, now: Instant) returns (events: seq<Event>, t: System)
    requires Initial(s) && CanonicalTaskId(s.sh.job.id) && ValidVersion(s.sh.job.targetVersion)
    ensures t == Run(s, events) && WorkerAlone(s, t, LastPc(e), now)
    ensures t.sh.h.receipt == Some(OpenReceipt(s, e, now)) && t.sh.h.invocations == InvocationsOf(e)
  {
    match e
    case NotReady =>
      events, t := WorkerAccepts(s, now);
      events, t := WorkerActs(s, events, t, WAccepted, now, Smooth(now).(ok := false));
    case NotStarted =>
      events, t := WorkerMarks(s, now);
      events, t := WorkerActs(s, events, t, WMarked, now, Smooth(now).(ok := false));
    case Ended(exit) =>
      events, t := WorkerExits(s, exit, now);
  }

  /** Closing the receipt is acceptable. */
  lemma CloseIsAccepted(s: System, e: Ending, now: Instant)
    requires ValidVersion(s.sh.job.targetVersion)
    ensures Contract(OpenReceipt(s, e, now), s.sh.job.id)
    ensures Accepts(OpenReceipt(s, e, now), PhaseOf(e), !e.NotReady?, CodeOf(e), now)
  {
    CodesAreReceiptCodes(e);
  }

  function LastPc(e: Ending): WorkerPc {
    match e
    case NotReady => WNotReady
    case NotStarted => WStartFailed
    case Ended(exit) => WExited(exit)
  }

  lemma CloseStep(h: Host, s: System, e: Ending, now: Instant)
    requires ValidVersion(s.sh.job.targetVersion) && h.taskId == s.sh.job.id && h.receipt == Some(OpenReceipt(s, e, now))
    ensures WorkerStep(h, 1, LastPc(e), Smooth(now)) == Effect(h.(receipt := Some(Closed(OpenReceipt(s, e, now), e, now))), None)
  {
    CloseIsAccepted(s, e, now);
    StoreTransitExact(h.receipt, h.taskId, PhaseOf(e), !e.NotReady?, CodeOf(e), now, false, Durable);
  }

  lemma WorkerCloses(s: System, e: Ending, now: Instant) returns (events: seq<Event>, t: System)
    requires Initial(s) && CanonicalTaskId(s.sh.job.id) && ValidVersion(s.sh.job.targetVersion)
    ensures t == Run(s, events) && RowDispatched(s, t, now) && t.procs == map[]
    ensures t.sh.h.receipt == Some(Closed(OpenReceipt(s, e, now), e, now)) && t.sh.h.invocations == InvocationsOf(e)
  {
    events, t := WorkerFinishes(s, e, now);
    CloseStep(t.sh.h, s, e, now);
    events, t := WorkerActs(s, events, t, LastPc(e), now, Smooth(now));
  }

  /** The job status that stands for an ending. */
  function StatusOf(e: Ending): J.JobStatus {
    match PhaseOf(e)
    case Succeeded => J.Succeeded
    case OutcomeUnknown => J.OutcomeUnknown
    case _ => J.Failed
  }

  /** A reconciliation of the dispatched job has read the closed receipt. */
  lemma Reconciles(s: System, e: Ending, now: Instant) returns (events: seq<Event>, t: System)
    requires Initial(s) && CanonicalTaskId(s.sh.job.id) && ValidVersion(s.sh.job.targetVersion)
    ensures t == Run(s, events) && t.sh.h.invocations == InvocationsOf(e)
    ensures t.sh.job.status.MutationDispatched? && J.SameIdentity(s.sh.job, t.sh.job) && J.RowChecks(t.sh.job)
    ensures t.sh.h.receipt == Some(Closed(OpenReceipt(s, e, now), e, now))
    ensures t.procs == map[2 := Reconciler(RReport(ReconcileReport(t.sh.h.receipt.value, J.MutationDispatched)), J.MutationDispatched, s.sh.job.targetVersion)]
  {
    var v := s.sh.job.targetVersion;
    events, t := WorkerCloses(s, e, now);
    events, t := Then(s, events, t, HandOutReconcile(now + SECOND));
    events, t := Then(s, events, t, BeginReconcile(J.MutationDispatched, v));
    assert t.procs == map[2 := Reconciler(RStart, J.MutationDispatched, v)];
    ActAlone(t, 2, Reconciler(RStart, J.MutationDispatched, v), Smooth(now));
    events, t := Then(s, events, t, Act(2, Smooth(now)));
  }

  /** The row after the report on a closed receipt has arrived. */
  lemma ReportArrives(j: J.Job, s: System, e: Ending, now: Instant)
    requires j.status.MutationDispatched? && J.SameIdentity(s.sh.job, j) && J.RowChecks(j)
    requires CanonicalTaskId(s.sh.job.id) && ValidVersion(s.sh.job.targetVersion)
    ensures var r := J.Complete(j, J.MutationDispatched, ReconcileReport(Closed(OpenReceipt(s, e, now), e, now), J.MutationDispatched), now);
            && r.Ok? && r.value.status == StatusOf(e)
            && r.value.errorCode == (if CodeOf(e) == "" then None else Some(CodeOf(e)))
            && r.value.dispatchedAt == j.dispatchedAt && r.value.completedAt == Some(now)
  {
    CodesAreReceiptCodes(e);
    J.CompleteExact(j, J.MutationDispatched, ReconcileReport(Closed(OpenReceipt(s, e, now), e, now), J.MutationDispatched), now);
  }

  /** However the worker ends, there is a run after which the Manager's row says so, with its code and all its times. */
  lemma VerdictReached(s: System, e: Ending, now: Instant) returns (events: seq<Event>)
    requires Initial(s) && CanonicalTaskId(s.sh.job.id) && ValidVersion(s.sh.job.targetVersion)
    ensures var t := Run(s, events);
            && t.sh.job.status == StatusOf(e)
            && t.sh.job.errorCode == (if CodeOf(e) == "" then None else Some(CodeOf(e)))
            && t.sh.job.dispatchedAt.Some? && t.sh.job.completedAt == Some(now)
            && t.sh.h.receipt == Some(Closed(OpenReceipt(s, e, now), e, now))
            && t.sh.h.invocations == InvocationsOf(e)
  {
    var t: System;
    events, t := Reconciles(s, e, now);
    var m := ReconcileReport(t.sh.h.receipt.value, J.MutationDispatched);
    var v := s.sh.job.targetVersion;
    ActAlone(t, 2, Reconciler(RReport(m), J.MutationDispatched, v), Smooth(now));
    events, t := Then(s, events, t, Act(2, Smooth(now)));
    ReportArrives(t.sh.job, s, e, now);
    events, t := Then(s, events, t, Deliver(m, J.MutationDispatched, now));
  }

  // ---------------------------------------------------------------- failures before the launch

  /** What can stop a dispatch between its receipt and its launch. */
  datatype Obstacle = RuntimeNotReady | DownloadFails | WrongCandidate | LaunchRefused

  function ObstacleCode(o: Obstacle): string {
    match o
    case RuntimeNotReady => "runtime_not_ready"
    case DownloadFails => "staging_failed"
    case WrongCandidate => "staged_identity_mismatch"
    case LaunchRefused => "detached_launch_failed"
  }

  lemma ObstacleCodeOk(o: Obstacle)
    ensures ReceiptCode(ObstacleCode(o))
  {
  }

  /** The dispatcher is the only process; the receipt is fresh and nothing has been launched. */
  ghost predicate DispatcherAlone(s: System, t: System, pc: DispatchPc, now: Instant) {
    && t.procs == map[0 := Dispatcher(pc, s.sh.job.targetVersion)]
    && Some(t.sh.job) == J.ClaimedForDispatch(s.sh.job, now)
    && t.sh.h.taskId == s.sh.job.id && t.sh.h.invocations == 0 && !t.sh.h.launched
    && t.sh.h.receipt == Some(Fresh(s.sh.job.id, s.sh.job.targetVersion, now))
  }

  lemma DispatcherActs(s: System, events0: seq<Event>, t0: System, pc: DispatchPc, now: Instant, c: Choice) returns (events: seq<Event>, t: System)
    requires t0 == Run(s, events0) && DispatcherAlone(s, t0, pc, now)
    ensures t == Run(s, events) && t.sh.job == t0.sh.job
    ensures var e := DispatchStep(t0.sh.h, 0, pc, s.sh.job.targetVersion, c);
            && t.sh.h == e.h && t.procs == (if e.next.Some? then map[0 := e.next.value] else map[])
            && (e.send.Some? ==> e.send.value in t.sh.sent)
  {
    ActAlone(t0, 0, Dispatcher(pc, s.sh.job.targetVersion), c);
    events, t := Then(s, events0, t0, Act(0, c));
  }

  lemma MeetsReadiness(s: System, now: Instant) returns (events: seq<Event>, t: System)
    requires Initial(s) && CanonicalTaskId(s.sh.job.id) && ValidVersion(s.sh.job.targetVersion)
    ensures t == Run(s, events) && DispatcherAlone(s, t, DFailing("runtime_not_ready", false), now)
  {
    events, t := Linked(s, now);
    events, t := DispatcherActs(s, events, t, DLinked, now, Smooth(now));
    events, t := DispatcherActs(s, events, t, DCreated, now, Smooth(now).(ok := false));
  }

  lemma MeetsStaging(s: System, mismatch: bool, now: Instant) returns (events: seq<Event>, t: System)
    requires Initial(s) && CanonicalTaskId(s.sh.job.id) && ValidVersion(s.sh.job.targetVersion)
    ensures t == Run(s, events)
    ensures DispatcherAlone(s, t, DFailing(if mismatch then "staged_identity_mismatch" else "staging_failed", false), now)
  {
    events, t := Linked(s, now);
    events, t := DispatchAccepts(s, events, t, now);
    events, t := DispatcherActs(s, events, t, DAccepted, now, Smooth(now));
    events, t := DispatcherActs(s, events, t, DStaging, now, Smooth(now).(stage := if mismatch then StageMismatch else StageError));
  }

  lemma MeetsLaunch(s: System, now: Instant) returns (events: seq<Event>, t: System)
    requires Initial(s) && CanonicalTaskId(s.sh.job.id) && ValidVersion(s.sh.job.targetVersion)
    ensures t == Run(s, events) && DispatcherAlone(s, t, DFailing("detached_launch_failed", true), now)
  {
    events, t := Linked(s, now);
    events, t := DispatchAccepts(s, events, t, now);
    events, t := DispatchStages(s, events, t, now);
    events, t := DispatcherActs(s, events, t, DStaged, now, Smooth(now));
    events, t := DispatcherActs(s, events, t, DReaccepted, now, Smooth(now).(ok := false));
  }

  /** The dispatcher has met the obstacle and is about to record it. */
  lemma Meets(s: System, o: Obstacle, now: Instant) returns (events: seq<Event>, t: System)
    requires Initial(s) && CanonicalTaskId(s.sh.job.id) && ValidVersion(s.sh.job.targetVersion)
    ensures t == Run(s, events) && DispatcherAlone(s, t, DFailing(ObstacleCode(o), o.LaunchRefused?), now)
  {
    match o
    case RuntimeNotReady => events, t := MeetsReadiness(s, now);
    case DownloadFails => events, t := MeetsStaging(s, false, now);
    case WrongCandidate => events, t := MeetsStaging(s, true, now);
    case LaunchRefused => events, t := MeetsLaunch(s, now);
  }

  /** The receipt of a dispatch that has failed before its launch. */
  function Refused(s: System, o: Obstacle, now: Instant): Receipt {
    Fresh(s.sh.job.id, s.sh.job.targetVersion, now).(phase := Phase.Failed, code := ObstacleCode(o))
  }

  lemma FailureStep(h: Host, s: System, o: Obstacle, anyway: bool, now: Instant)
    requires ValidVersion(s.sh.job.targetVersion) && h.taskId == s.sh.job.id
    requires h.receipt == Some(Fresh(s.sh.job.id, s.sh.job.targetVersion, now))
    ensures FinishStep(h, DFailing(ObstacleCode(o), anyway), s.sh.job.targetVersion, Smooth(now)) ==
            Effect(h.(receipt := Some(Refused(s, o, now))), Some(Dispatcher(DReport(false), s.sh.job.targetVersion)))
  {
    ObstacleCodeOk(o);
  }

  lemma FailureRecorded(s: System, o: Obstacle, now: Instant) returns (events: seq<Event>, t: System)
    requires Initial(s) && CanonicalTaskId(s.sh.job.id) && ValidVersion(s.sh.job.targetVersion)
    ensures t == Run(s, events) && Some(t.sh.job) == J.ClaimedForDispatch(s.sh.job, now)
    ensures t.sh.h.receipt == Some(Refused(s, o, now)) && t.sh.h.taskId == s.sh.job.id && t.sh.h.invocations == 0
    ensures t.procs == map[0 := Dispatcher(DReport(false), s.sh.job.targetVersion)]
  {
    events, t := Meets(s, o, now);
    FailureStep(t.sh.h, s, o, o.LaunchRefused?, now);
    events, t := DispatcherActs(s, events, t, DFailing(ObstacleCode(o), o.LaunchRefused?), now, Smooth(now));
  }

  /** The row after a failure before dispatch has arrived. */
  lemma FailureArrives(j: J.Job, now: Instant)
    requires j.status.InProgress? && J.RowChecks(j) && CanonicalTaskId(j.id) && ValidVersion(j.targetVersion)
    ensures var r := J.Complete(j, J.InProgress, DispatchReport(j.id, j.targetVersion, false), now);
            && r.Ok? && r.value.status.Failed? && r.value.errorCode == Some("pre_dispatch_failed")
            && r.value.dispatchedAt.None? && r.value.completedAt == Some(now)
  {
    assert EvidenceCode(PRE_DISPATCH_FAILED);
    J.CompleteExact(j, J.InProgress, DispatchReport(j.id, j.targetVersion, false), now);
  }

  /** Whatever stops a dispatch, there is a run that leaves its code on the node and a failure before dispatch in the row. */
  lemma ObstacleReported(s: System, o: Obstacle, now: Instant) returns (events: seq<Event>)
    requires Initial(s) && CanonicalTaskId(s.sh.job.id) && ValidVersion(s.sh.job.targetVersion)
    ensures var t := Run(s, events);
            && t.sh.h.receipt == Some(Refused(s, o, now)) && t.sh.h.invocations == 0
            && t.sh.job.status.Failed? && t.sh.job.errorCode == Some("pre_dispatch_failed")
            && t.sh.job.dispatchedAt.None? && t.sh.job.completedAt == Some(now)
  {
    var t: System;
    var v := s.sh.job.targetVersion;
    events, t := FailureRecorded(s, o, now);
    ActAlone(t, 0, Dispatcher(DReport(false), v), Smooth(now));
    events, t := Then(s, events, t, Act(0, Smooth(now)));
    FailureArrives(t.sh.job, now);
    events, t := Then(s, events, t, Deliver(DispatchReport(s.sh.job.id, v, false), J.InProgress, now));
  }
}
