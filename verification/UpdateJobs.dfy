/**
  The Manager's update-job row: the declared lifecycle, the evidence check, and the claims and
  completions that rewrite the row.
 */
module UpdateJobs {
  import opened Common
  import opened Formats

  datatype JobStatus = Pending | InProgress | MutationDispatched | Succeeded | Failed | OutcomeUnknown {
    predicate Terminal() { Succeeded? || Failed? || OutcomeUnknown? }
    predicate Active() { Pending? || InProgress? || MutationDispatched? }
    /** What the one-job-per-server unique index and the planner's interlock test look for. */
    predicate Unresolved() { Active() || OutcomeUnknown? }
  }

  datatype Job = Job(
    id: string,
    serverId: string,
    agentId: string,
    targetVersion: string,
    status: JobStatus,
    errorCode: Option<string>,
    updatedAt: int,
    startedAt: Option<int>,
    dispatchedAt: Option<int>,
    completedAt: Option<int>)

  /** The declared lifecycle relation. */
  predicate DeclaredTransition(from: JobStatus, to: JobStatus) {
    match from
    case Pending => to.InProgress?
    case InProgress => to.MutationDispatched? || to.Failed?
    case MutationDispatched => to.Terminal()
    case _ => false
  }

  /** The status changes that the database trigger lets through. */
  predicate TriggerTransition(from: JobStatus, to: JobStatus) {
    match from
    case Pending => to.InProgress? || to.OutcomeUnknown?
    case InProgress => to.MutationDispatched? || to.Terminal()
    case MutationDispatched => to.Terminal()
    case _ => false
  }

  /** The timestamp checks declared on the table. */
  predicate RowChecks(j: Job) {
    && (j.status.MutationDispatched? || j.status.Succeeded? || j.status.OutcomeUnknown? ==> j.dispatchedAt.Some?)
    && (j.status.Pending? || j.status.InProgress? ==> j.dispatchedAt.None?)
    && (j.completedAt.Some? <==> j.status.Terminal())
  }

  datatype ReportStatus = RPending | RMutationDispatched | RSucceeded | RFailed | ROutcomeUnknown | RUnsupported

  datatype Evidence = Evidence(taskId: string, targetVersion: string, status: ReportStatus, code: string)

  datatype Envelope = EnvelopeSucceeded | EnvelopeFailed | EnvelopeOther

  /** A completion request; the evidence is absent when the payload does not decode. */
  datatype Completion = Completion(envelope: Envelope, errorMessage: string, evidence: Option<Evidence>)

  /** The lifecycle status that receipt evidence stands for. */
  function ReconcileEvidence(taskId: string, version: string, ev: Evidence): Result<JobStatus> {
    if !CanonicalTaskId(taskId) || !ValidVersion(version) then Err("expected identity is not canonical")
    else if ev.taskId != taskId || ev.targetVersion != version then Err("identity mismatch")
    else match ev.status
      case RPending => if ev.code != "" then Err("pending evidence with a code") else Ok(MutationDispatched)
      case RSucceeded => if ev.code != "" then Err("successful evidence with a code") else Ok(Succeeded)
      case RFailed => if EvidenceCode(ev.code) then Ok(Failed) else Err("invalid code")
      case ROutcomeUnknown => if EvidenceCode(ev.code) then Ok(OutcomeUnknown) else Err("invalid code")
      case _ => Err("unsupported status")
  }

  function Coalesce(previous: Option<int>, now: Instant): Option<int> {
    if previous.Some? then previous else Some(now)
  }

  /** NULLIF(code, '') */
  function CodeOrNull(code: string): Option<string> { if code == "" then None else Some(code) }

  /** The row after the dispatch claim: only a pending job can be taken. */
  function ClaimedForDispatch(j: Job, now: Instant): Option<Job> {
    if j.status.Pending?
    then Some(j.(status := InProgress, startedAt := Coalesce(j.startedAt, now), updatedAt := now))
    else None
  }

  /** The row after a reconciliation claim, at most once per second. */
  function ClaimedForReconcile(j: Job, now: Instant): Option<Job> {
    if (j.status.InProgress? || j.status.MutationDispatched?) && j.updatedAt <= now - SECOND
    then Some(j.(updatedAt := now))
    else None
  }

  function MarkDispatched(j: Job, now: Instant): Job {
    j.(status := MutationDispatched, dispatchedAt := Coalesce(j.dispatchedAt, now), updatedAt := now)
  }

  /** Completion of a row that was seen in_progress; every update is guarded by the row still being so. */
  function CompleteInProgress(j: Job, c: Completion, now: Instant): Result<Job>
    requires !c.envelope.EnvelopeOther?
  {
    if c.evidence.None? then Err("decode evidence")
    else
      var ev := c.evidence.value;
      if ev.taskId != j.id || ev.targetVersion != j.targetVersion then Err("dispatch identity mismatch")
      else if c.errorMessage != "" then Err("raw error text")
      else if c.envelope.EnvelopeFailed? then
        match ReconcileEvidence(j.id, j.targetVersion, ev)
        case Err(e) => Err(e)
        case Ok(next) =>
          if !next.Failed? then Err("failed envelope requires failed evidence")
          else if !j.status.InProgress? || j.dispatchedAt.Some? then Err("no rows")
          else Ok(j.(status := Failed, errorCode := Some(ev.code), completedAt := Some(now), updatedAt := now))
      else if ev.status.RMutationDispatched? then
        if ev.code != "" then Err("dispatch evidence with a code")
        else if !j.status.InProgress? then Err("no rows")
        else Ok(MarkDispatched(j, now))
      else
        match ReconcileEvidence(j.id, j.targetVersion, ev)
        case Err(e) => Err(e)
        case Ok(next) =>
          if !j.status.InProgress? then Err("no rows")
          else if next.MutationDispatched? then Ok(MarkDispatched(j, now))
          else Ok(j.(status := next, dispatchedAt := Coalesce(j.dispatchedAt, now),
                     errorCode := CodeOrNull(if next.Succeeded? then "" else ev.code),
                     completedAt := Some(now), updatedAt := now))
  }

  /** Completion of a row that was seen mutation_dispatched. */
  function CompleteDispatched(j: Job, c: Completion, now: Instant): Result<Job>
    requires !c.envelope.EnvelopeOther?
  {
    if !c.envelope.EnvelopeSucceeded? || c.errorMessage != "" then Err("transport must succeed")
    else if c.evidence.None? then Err("decode evidence")
    else
      var ev := c.evidence.value;
      match ReconcileEvidence(j.id, j.targetVersion, ev)
      case Err(e) => Err(e)
      case Ok(next) =>
        if !j.status.MutationDispatched? then Err("no rows")
        else if next.MutationDispatched? then Ok(j.(updatedAt := now))
        else if !DeclaredTransition(MutationDispatched, next) then Err("invalid transition")
        else Ok(j.(status := next, errorCode := CodeOrNull(if next.Succeeded? then "" else ev.code),
                   completedAt := Some(now), updatedAt := now))
  }

  /**
    One completion request. The status that selects the branch is read before, and outside, the guarded
    update, so it may be stale by the time the update runs.
   */
  function Complete(j: Job, observed: JobStatus, c: Completion, now: Instant): Result<Job> {
    if c.envelope.EnvelopeOther? then Err("invalid completion status")
    else if observed.InProgress? then CompleteInProgress(j, c, now)
    else if observed.MutationDispatched? then CompleteDispatched(j, c, now)
    else Err("no update job to complete")
  }

  ghost predicate SameIdentity(j: Job, k: Job) {
    j.id == k.id && j.serverId == k.serverId && j.agentId == k.agentId && j.targetVersion == k.targetVersion
  }

  /** One declared edge, none, or the two edges through mutation_dispatched with the dispatch time stamped. */
  ghost predicate DeclaredPath(j: Job, k: Job) {
    || k.status == j.status
    || DeclaredTransition(j.status, k.status)
    || (&& DeclaredTransition(j.status, MutationDispatched) && DeclaredTransition(MutationDispatched, k.status)
        && k.dispatchedAt.Some?)
  }

  /** What a successful completion of j into k may do. */
  ghost predicate Completed(j: Job, k: Job) {
    && SameIdentity(j, k)
    && RowChecks(k)
    && DeclaredPath(j, k)
    && (k.status != j.status ==> TriggerTransition(j.status, k.status))
    && (j.dispatchedAt.Some? ==> k.dispatchedAt == j.dispatchedAt)
    && !j.status.Terminal() && !j.status.Pending?
  }

  lemma InProgressFollowsLifecycle(j: Job, c: Completion, now: Instant)
    requires RowChecks(j) && !c.envelope.EnvelopeOther?
    ensures var r := CompleteInProgress(j, c, now); r.Ok? ==> j.status.InProgress? && Completed(j, r.value)
  {
  }

  /** Every completion, stale or not, follows the declared lifecycle and keeps the table checks. */
  lemma CompleteFollowsLifecycle(j: Job, observed: JobStatus, c: Completion, now: Instant)
    requires RowChecks(j)
    ensures var r := Complete(j, observed, c, now); r.Ok? ==> j.status == observed && Completed(j, r.value)
  {
    if !c.envelope.EnvelopeOther? && observed.InProgress? { InProgressFollowsLifecycle(j, c, now); }
  }

  // ---------------------------------------------------------------- what is accepted, and what it writes

  /** The job status that a report announces. */
  function Announced(report: ReportStatus): Option<JobStatus> {
    match report
    case RPending => Some(MutationDispatched)
    case RMutationDispatched => Some(MutationDispatched)
    case RSucceeded => Some(Succeeded)
    case RFailed => Some(Failed)
    case ROutcomeUnknown => Some(OutcomeUnknown)
    case RUnsupported => None
  }

  /**
    Which completions a row accepts. A dispatch acknowledgement counts only while the job is in progress,
    and so does the failure envelope, which must carry a failed report.
   */
  predicate AcceptsReport(status: JobStatus, envelope: Envelope, report: ReportStatus, code: string) {
    match envelope
    case EnvelopeOther => false
    case EnvelopeFailed => status.InProgress? && report.RFailed? && EvidenceCode(code)
    case EnvelopeSucceeded =>
      && (status.InProgress? || status.MutationDispatched?)
      && match report
         case RMutationDispatched => status.InProgress? && code == ""
         case RPending => code == ""
         case RSucceeded => code == ""
         case RFailed => EvidenceCode(code)
         case ROutcomeUnknown => EvidenceCode(code)
         case RUnsupported => false
  }

  /** The whole condition: the row is still as it was seen, the evidence names the job, and no raw error text comes with it. */
  predicate AcceptsCompletion(j: Job, observed: JobStatus, c: Completion) {
    && j.status == observed && c.errorMessage == "" && c.evidence.Some?
    && var ev := c.evidence.value;
       && ev.taskId == j.id && ev.targetVersion == j.targetVersion
       && (ev.status.RMutationDispatched? || (CanonicalTaskId(j.id) && ValidVersion(j.targetVersion)))
       && AcceptsReport(j.status, c.envelope, ev.status, ev.code)
  }

  /** The row that an accepted completion leaves, field by field. */
  ghost predicate RowAfter(j: Job, c: Completion, now: Instant, k: Job)
    requires c.evidence.Some?
  {
    var ev := c.evidence.value;
    && SameIdentity(j, k) && k.startedAt == j.startedAt && k.updatedAt == now
    && Some(k.status) == Announced(ev.status)
    && k.errorCode == (if k.status.Succeeded? then None else if k.status.Terminal() then Some(ev.code) else j.errorCode)
    && k.completedAt == (if k.status.Terminal() then Some(now) else None)
    && k.dispatchedAt == (if j.dispatchedAt.Some? then j.dispatchedAt else if c.envelope.EnvelopeFailed? then None else Some(now))
  }

  /** A completion is accepted exactly by the table, and writes exactly that row. */
  lemma CompleteExact(j: Job, observed: JobStatus, c: Completion, now: Instant)
    requires RowChecks(j)
    ensures var r := Complete(j, observed, c, now);
            && (r.Ok? <==> AcceptsCompletion(j, observed, c))
            && (r.Ok? ==> RowAfter(j, c, now, r.value))
  {
    if !c.envelope.EnvelopeOther? && observed.InProgress? { InProgressExact(j, c, now); }
    else if !c.envelope.EnvelopeOther? && observed.MutationDispatched? { DispatchedExact(j, c, now); }
  }

  lemma InProgressExact(j: Job, c: Completion, now: Instant)
    requires RowChecks(j) && !c.envelope.EnvelopeOther?
    ensures var r := CompleteInProgress(j, c, now);
            && (r.Ok? <==> AcceptsCompletion(j, InProgress, c))
            && (r.Ok? ==> RowAfter(j, c, now, r.value))
  {
  }

  lemma DispatchedExact(j: Job, c: Completion, now: Instant)
    requires RowChecks(j) && !c.envelope.EnvelopeOther?
    ensures var r := CompleteDispatched(j, c, now);
            && (r.Ok? <==> AcceptsCompletion(j, MutationDispatched, c))
            && (r.Ok? ==> RowAfter(j, c, now, r.value))
  {
  }

  /** A poll can take the row: a pending job at once, one under way a second after it was last touched. */
  predicate Claimable(j: Job, now: Instant) {
    j.status.Pending? || ((j.status.InProgress? || j.status.MutationDispatched?) && j.updatedAt <= now - SECOND)
  }

  /** The row that a claim leaves: only a pending job changes its status, and its start is stamped once. */
  ghost predicate ClaimedRow(j: Job, now: Instant, k: Job) {
    && SameIdentity(j, k) && k.updatedAt == now
    && k.status == (if j.status.Pending? then InProgress else j.status)
    && k.startedAt == (if j.status.Pending? && j.startedAt.None? then Some(now) else j.startedAt)
    && k.errorCode == j.errorCode && k.dispatchedAt == j.dispatchedAt && k.completedAt == j.completedAt
  }

  /** A Manager operation on one job row. */
  datatype Operation =
    | ClaimDispatch(now: Instant)
    | ClaimReconcile(now: Instant)
    | CompleteWith(observed: JobStatus, completion: Completion, at: Instant)

  function ApplyOperation(j: Job, op: Operation): Job {
    match op
    case ClaimDispatch(now) => var r := ClaimedForDispatch(j, now); if r.Some? then r.value else j
    case ClaimReconcile(now) => var r := ClaimedForReconcile(j, now); if r.Some? then r.value else j
    case CompleteWith(observed, c, at) => var r := Complete(j, observed, c, at); if r.Ok? then r.value else j
  }

  function ApplyOperations(j: Job, ops: seq<Operation>): Job
    decreases |ops|
  {
    if ops == [] then j else ApplyOperations(ApplyOperation(j, ops[0]), ops[1..])
  }

  /** How many times a run hands the dispatch task out. */
  function Handouts(j: Job, ops: seq<Operation>): nat
    decreases |ops|
  {
    if ops == [] then 0
    else (if ops[0].ClaimDispatch? && ClaimedForDispatch(j, ops[0].now).Some? then 1 else 0)
         + Handouts(ApplyOperation(j, ops[0]), ops[1..])
  }

  /** Over any run of operations dispatch is handed out at most once and a verdict never changes. */
  lemma {:induction false} JobRun(j: Job, ops: seq<Operation>)
    requires RowChecks(j)
    ensures var k := ApplyOperations(j, ops);
            && RowChecks(k) && SameIdentity(j, k)
            && (j.status.Terminal() ==> k == j)
            && (j.dispatchedAt.Some? ==> k.dispatchedAt == j.dispatchedAt)
            && (k.status.Pending? ==> j.status.Pending?)
            && Handouts(j, ops) == (if j.status.Pending? && !k.status.Pending? then 1 else 0)
    decreases |ops|
  {
    if ops != [] {
      var mid := ApplyOperation(j, ops[0]);
      if ops[0].CompleteWith? { CompleteFollowsLifecycle(j, ops[0].observed, ops[0].completion, ops[0].at); }
      JobRun(mid, ops[1..]);
    }
  }

  /** A task handed to an Agent. */
  datatype Task = Task(jobId: string, dispatch: bool, status: JobStatus, targetVersion: string)

  /** The table of update jobs. */
  class JobTable {
    var jobs: map<string, Job>

    /** Table checks, and the unique index: at most one unresolved job per server. */
    ghost predicate Valid() reads this {
      && (forall id :: id in jobs ==> jobs[id].id == id && RowChecks(jobs[id]))
      && (forall a, b | a in jobs && b in jobs && jobs[a].serverId == jobs[b].serverId ::
            jobs[a].status.Unresolved() && jobs[b].status.Unresolved() ==> a == b)
    }

    constructor ()
      ensures Valid() && jobs == map[]
    {
      jobs := map[];
    }

    function Candidates(serverId: string, agentId: string): set<string>
      reads this
    {
      set id | id in jobs && jobs[id].serverId == serverId && jobs[id].agentId == agentId && jobs[id].status.Active()
    }

    /**
      The claim made by a polling Agent. A row that is locked by another transaction is skipped. Because
      at most one job of a server is unresolved, the ordering of the two queries never has a tie to break.
     */
    method ClaimNext(serverId: string, agentId: string, now: Instant, locked: set<string>) returns (t: Option<Task>)
      requires Valid()
      modifies this
      ensures Valid()
      ensures jobs.Keys == old(jobs.Keys)
      ensures t.None? ==> jobs == old(jobs)
      ensures t.Some? ==>
                var id := t.value.jobId;
                && id in old(Candidates(serverId, agentId)) && id !in locked
                && jobs == old(jobs)[id := jobs[id]]
                && t.value.targetVersion == jobs[id].targetVersion && t.value.status == jobs[id].status
                && (t.value.dispatch <==> old(jobs)[id].status.Pending?)
                && ClaimedRow(old(jobs)[id], now, jobs[id])
      ensures t.None? <==> forall id :: id in old(Candidates(serverId, agentId)) && id !in locked ==> !Claimable(old(jobs)[id], now)
    {
      var open := Candidates(serverId, agentId) - locked;
      if open == {} {
        assert forall id :: id in Candidates(serverId, agentId) && id !in locked ==> id in open;
        return None;
      }
      var id :| id in open;
      assert forall other :: other in Candidates(serverId, agentId) ==> other == id;
      var job := jobs[id];
      var next := ClaimedForReconcile(job, now);
      var dispatch := false;
      if next.None? {
        next := ClaimedForDispatch(job, now);
        dispatch := true;
      }
      if next.None? { return None; }
      jobs := jobs[id := next.value];
      return Some(Task(id, dispatch, next.value.status, next.value.targetVersion));
    }

    /** A completion request authenticated as the Agent the job is bound to. */
    method CompleteTask(id: string, agentId: string, observed: JobStatus, c: Completion, now: Instant)
      returns (r: Result<()>)
      requires Valid()
      modifies this
      ensures Valid()
      ensures jobs.Keys == old(jobs.Keys)
      ensures r.Err? ==> jobs == old(jobs)
      ensures r.Ok? <==> id in old(jobs) && old(jobs)[id].agentId == agentId && AcceptsCompletion(old(jobs)[id], observed, c)
      ensures r.Ok? ==> id in jobs && jobs == old(jobs)[id := jobs[id]] && RowAfter(old(jobs)[id], c, now, jobs[id])
    {
      if id !in jobs || jobs[id].agentId != agentId { return Err("no rows"); }
      CompleteFollowsLifecycle(jobs[id], observed, c, now);
      CompleteExact(jobs[id], observed, c, now);
      var next := Complete(jobs[id], observed, c, now);
      if next.Err? { return Err(next.error); }
      jobs := jobs[id := next.value];
      return Ok(());
    }
  }
}
