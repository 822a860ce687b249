/**
  The durable rollout orchestrator: one ordered rollout, its entries, the append-only history of update
  jobs and the Agents that run them. Every transaction of the source takes the global admission mutex,
  so a transaction is one function from database state to database state.
 */
module Rollout {
  import opened Common
  import J = UpdateJobs

  datatype RolloutStatus = Pending | Running | Succeeded | Failed | OutcomeUnknown {
    predicate Terminal() { Succeeded? || Failed? || OutcomeUnknown? }
  }

  datatype EntryStatus = Queued | Waiting | Updating | Healthy | Failed | OutcomeUnknown | Skipped {
    /** The rollout may advance past such an entry. */
    predicate Finished() { Healthy? || Skipped? }
    /** The rollout stops at such an entry. */
    predicate Stops() { Failed? || OutcomeUnknown? }
    /** An update job is bound to such an entry. */
    predicate Started() { Updating? || Healthy? || Stops() }
    predicate Open() { Queued? || Waiting? }
  }

  predicate DeclaredRollout(from: RolloutStatus, to: RolloutStatus) {
    match from
    case Pending => to.Running? || to.Failed?
    case Running => to.Terminal()
    case _ => false
  }

  predicate DeclaredEntry(from: EntryStatus, to: EntryStatus) {
    match from
    case Queued => to.Waiting? || to.Updating? || to.Skipped?
    case Waiting => to.Updating? || to.Skipped?
    case Updating => to.Healthy? || to.Stops()
    case _ => false
  }

  /** What a healthy verdict was based on; kept by the model, not by the database. */
  datatype Proof = Proof(history: nat, at: Instant, heartbeatAt: int, generation: nat)

  datatype Entry = Entry(
    server: string,
    status: EntryStatus,
    observed: Option<nat>,       // update jobs of the server when the snapshot was taken
    job: Option<nat>,            // index of the bound job in the history
    blocker: string,
    proof: Option<Proof>)

  datatype UpdateJob = UpdateJob(server: string, target: string, status: J.JobStatus, completedAt: Option<int>)

  datatype AgentStatus = Registered | Online | Offline | Disabled | Erroneous

  datatype Agent = Agent(
    status: AgentStatus,
    version: string,
    protocol: Option<int>,
    updatable: bool,             // the exact software-update capability is present
    generation: nat,
    heartbeatAt: Option<int>,
    heartbeatGeneration: Option<nat>)

  datatype ServerStatus = Pending | Active | Offline | Disabled | Erroneous

  datatype Server = Server(vpn: bool, status: ServerStatus)

  /** An authenticated heartbeat that was accepted; kept by the model to speak about the past. */
  datatype Heartbeat = Heartbeat(server: string, generation: nat, at: int)

  datatype World = World(
    target: string,
    status: RolloutStatus,
    errorCode: string,
    entries: seq<Entry>,         // in position order
    jobs: seq<UpdateJob>,        // in creation order; rows are never deleted
    agents: map<string, Agent>,  // at most one per server
    servers: map<string, Server>,
    managerVersion: string,
    reserved: set<string>,       // nodes that an account transfer holds
    heartbeats: set<Heartbeat>)

  const MANAGER_MISMATCH := "manager_version_mismatch"
  const ADMISSION_REJECTED := "admission_rejected"
  const NODE_FAILED := "node_update_failed"
  const NODE_UNKNOWN := "node_update_outcome_unknown"
  const INTERVENING := "intervening_update_history"
  const WAITING_JOB := "job_not_terminal"
  const WAITING_HEARTBEAT := "heartbeat_not_proven"
  const WAITING_AGENT := "agent_not_currently_healthy"

  const FRESHNESS := 120 * SECOND
  const TRANSFER_FRESHNESS := 90 * SECOND
  const MINIMUM_PROTOCOL := 1
  const MANAGER_PROTOCOL := 1

  predicate Compatible(protocol: Option<int>) {
    protocol.Some? && MINIMUM_PROTOCOL <= protocol.value <= MANAGER_PROTOCOL
  }

  /** How many of the jobs numbered lo up to hi belong to the server. */
  function CountOn(jobs: seq<UpdateJob>, server: string, lo: nat, hi: nat): nat
    requires hi <= |jobs|
  {
    if hi <= lo then 0
    else CountOn(jobs, server, lo, hi - 1) + (if jobs[hi - 1].server == server then 1 else 0)
  }

  /** The one-active-or-unresolved-job-per-server interlock. */
  predicate Interlocked(jobs: seq<UpdateJob>, server: string) {
    exists k :: 0 <= k < |jobs| && jobs[k].server == server && jobs[k].status.Unresolved()
  }

  /** The row conditions of the single-node admission, apart from the interlock. */
  predicate Installable(w: World, server: string) {
    && server in w.servers && !w.servers[server].status.Disabled? && w.servers[server].vpn
    && server in w.agents && !w.agents[server].status.Disabled? && w.agents[server].updatable
  }

  /** A row is selected, the reservation trigger lets it through, and the unique index has room for it. */
  predicate CanCreate(w: World, server: string) {
    Installable(w, server) && server !in w.reserved && !Interlocked(w.jobs, server)
  }

  predicate AllFinished(entries: seq<Entry>) {
    forall i :: 0 <= i < |entries| ==> entries[i].status.Finished()
  }

  predicate AnyStops(entries: seq<Entry>) {
    exists i :: 0 <= i < |entries| && entries[i].status.Stops()
  }

  /** The first position from i on whose entry is not finished, or the number of entries. */
  function FirstUnfinished(entries: seq<Entry>, i: nat): (n: nat)
    requires i <= |entries|
    ensures i <= n <= |entries|
    ensures forall k :: i <= k < n ==> entries[k].status.Finished()
    ensures n < |entries| ==> !entries[n].status.Finished()
    decreases |entries| - i
  {
    if i == |entries| || !entries[i].status.Finished() then i else FirstUnfinished(entries, i + 1)
  }

  /** The first position from i on whose entry is updating, or the number of entries. */
  function FirstUpdating(entries: seq<Entry>, i: nat): (n: nat)
    requires i <= |entries|
    ensures i <= n <= |entries|
    ensures forall k :: i <= k < n ==> !entries[k].status.Updating?
    ensures n < |entries| ==> entries[n].status.Updating?
    decreases |entries| - i
  {
    if i == |entries| || entries[i].status.Updating? then i else FirstUpdating(entries, i + 1)
  }

  /** The rows that the admission query selects: open, unbound, and with every earlier entry finished. */
  predicate Admissible(entries: seq<Entry>, n: nat) {
    && n < |entries| && entries[n].status.Open() && entries[n].job.None?
    && forall k :: 0 <= k < n ==> entries[k].status.Finished()
  }

  function NextAdmissible(entries: seq<Entry>): Option<nat> {
    var n := FirstUnfinished(entries, 0);
    if n < |entries| && entries[n].status.Open() && entries[n].job.None? then Some(n) else None
  }

  /** At most one row is ever selected, and the scan finds it. */
  lemma NextAdmissibleExact(entries: seq<Entry>, n: nat)
    ensures Admissible(entries, n) <==> NextAdmissible(entries) == Some(n)
  {
    if Admissible(entries, n) { assert !entries[n].status.Finished(); }
  }

  function CompleteIfFinished(w: World): World {
    if AllFinished(w.entries) && w.status.Running? then w.(status := RolloutStatus.Succeeded, errorCode := "") else w
  }

  function FailRollout(w: World, code: string): World {
    if w.status.Pending? || w.status.Running? then w.(status := RolloutStatus.Failed, errorCode := code) else w
  }

  datatype AdmitError = CompletedWithoutMutation | NotRunnable | AdmissionFailed | TerminalStopEntry | NoNextEntry | NodeReserved

  datatype AdmitReply = Admitted(job: nat, replayed: bool) | Refused(error: AdmitError)

  datatype Admission = Admission(w: World, reply: AdmitReply)

  /** Creating and binding the job of entry n. */
  function Bind(w: World, n: nat): World
    requires n < |w.entries|
  {
    w.(jobs := w.jobs + [UpdateJob(w.entries[n].server, w.target, J.Pending, None)],
       entries := w.entries[n := w.entries[n].(status := Updating, job := Some(|w.jobs|))])
  }

  /** The history of the entry's server is the one the snapshot counted. */
  predicate HistoryUnchanged(w: World, n: nat)
    requires n < |w.entries|
  {
    w.entries[n].observed == Some(CountOn(w.jobs, w.entries[n].server, 0, |w.jobs|))
  }

  /** The insert reaches the reservation trigger, and the trigger raises. */
  predicate HeldBack(w: World, n: nat)
    requires n < |w.entries|
  {
    HistoryUnchanged(w, n) && Installable(w, w.entries[n].server) && w.entries[n].server in w.reserved
  }

  /** The admission of entry n, whose predecessors are finished, in a running rollout whose server is not held. */
  function AdmitEntry(w: World, n: nat): Admission
    requires n < |w.entries|
  {
    if !HistoryUnchanged(w, n) || !CanCreate(w, w.entries[n].server)
    then Admission(FailRollout(w, ADMISSION_REJECTED), Refused(AdmissionFailed))
    else Admission(Bind(w, n), Admitted(|w.jobs|, false))
  }

  /** The admission transaction. An error other than a recorded failure rolls everything back. */
  function Admit(w: World): Admission {
    var u := FirstUpdating(w.entries, 0);
    if !w.status.Pending? && !w.status.Running? then Admission(w, Refused(NotRunnable))
    else if w.status.Running? && u < |w.entries| && w.entries[u].job.Some?
    then Admission(w, Admitted(w.entries[u].job.value, true))
    else if AllFinished(w.entries)
    then Admission(CompleteIfFinished(w.(status := Running)), Refused(CompletedWithoutMutation))
    else if w.managerVersion != w.target then Admission(FailRollout(w, MANAGER_MISMATCH), Refused(AdmissionFailed))
    else if AnyStops(w.entries) then Admission(w, Refused(TerminalStopEntry))
    else
      match NextAdmissible(w.entries)
      case None => Admission(w, Refused(NoNextEntry))
      case Some(n) => if HeldBack(w, n) then Admission(w, Refused(NodeReserved)) else AdmitEntry(w.(status := Running), n)
  }

  datatype HealthReply = HealthReply(
    rollout: RolloutStatus,
    entry: Option<EntryStatus>,
    waiting: string,
    server: string,
    job: Option<nat>,
    errorCode: string,
    blocker: string)

  datatype Health = Health(w: World, reply: Result<HealthReply>)

  /** The blocker recorded on the first entry that stopped the rollout. */
  function StopBlocker(entries: seq<Entry>): string
    decreases |entries|
  {
    if entries == [] then ""
    else if entries[0].status.Stops() then entries[0].blocker
    else StopBlocker(entries[1..])
  }

  function Wait(w: World, u: nat, reason: string): Health
    requires u < |w.entries|
  {
    Health(w, Ok(HealthReply(Running, Some(Updating), reason, w.entries[u].server, w.entries[u].job, "", "")))
  }

  /** Closing entry u, and the rollout with it, as failed or unknown. */
  function Terminalize(w: World, u: nat, unknown: bool, code: string): Health
    requires u < |w.entries|
  {
    var e := w.entries[u].(status := if unknown then EntryStatus.OutcomeUnknown else EntryStatus.Failed, blocker := code);
    var status := if unknown then RolloutStatus.OutcomeUnknown else RolloutStatus.Failed;
    Health(w.(entries := w.entries[u := e], status := status, errorCode := code),
           Ok(HealthReply(status, Some(e.status), "", e.server, e.job, code, code)))
  }

  /** The recorded heartbeat is at most two minutes old. */
  predicate FreshAt(a: Agent, now: Instant) {
    a.heartbeatAt.Some? && a.heartbeatAt.value <= now && now - a.heartbeatAt.value <= FRESHNESS
  }

  /** The heartbeat is authenticated by the current credential, follows the completion, and is fresh. */
  predicate HeartbeatProves(a: Agent, completedAt: int, now: Instant) {
    FreshAt(a, now) && a.heartbeatGeneration == Some(a.generation) && completedAt < a.heartbeatAt.value
  }

  predicate AgentHealthy(a: Agent, target: string) {
    a.status.Online? && a.version == target && Compatible(a.protocol)
  }

  /** The healthy update; the trigger on the entry table stamps it with its own reading of the clock. */
  function MarkHealthy(w: World, u: nat, a: Agent, proofNow: Instant): Health
    requires u < |w.entries| && a.heartbeatAt.Some?
  {
    var e := w.entries[u].(status := Healthy, blocker := "",
                           proof := Some(Proof(|w.jobs|, proofNow, a.heartbeatAt.value, a.generation)));
    var w' := CompleteIfFinished(w.(entries := w.entries[u := e]));
    Health(w', Ok(HealthReply(w'.status, Some(Healthy), "", e.server, e.job, "", "")))
  }

  /**
    What the health check makes of a succeeded job. The Manager judges the heartbeat by one reading of the
    clock; the trigger that guards the healthy update reads the clock again and raises if the proof has lapsed.
   */
  function ProveHealthy(w: World, u: nat, j: nat, now: Instant, proofNow: Instant): Health
    requires u < |w.entries| && j < |w.jobs| && w.jobs[j].completedAt.Some? && w.entries[u].server in w.agents
  {
    var e, a := w.entries[u], w.agents[w.entries[u].server];
    if e.observed.None? || CountOn(w.jobs, e.server, 0, |w.jobs|) != e.observed.value + 1
    then Terminalize(w, u, false, INTERVENING)
    else if Interlocked(w.jobs, e.server) then Wait(w, u, WAITING_JOB)
    else if !HeartbeatProves(a, w.jobs[j].completedAt.value, now) then Wait(w, u, WAITING_HEARTBEAT)
    else if !AgentHealthy(a, w.target) then Wait(w, u, WAITING_AGENT)
    else if !FreshAt(a, proofNow) then Health(w, Err("healthy proof requires fresh post-completion authenticated heartbeat"))
    else MarkHealthy(w, u, a, proofNow)
  }

  /** The health check of the updating entry u. */
  function CheckEntry(w: World, u: nat, now: Instant, proofNow: Instant): Health
    requires u < |w.entries|
  {
    var e := w.entries[u];
    if e.job.None? || e.job.value >= |w.jobs| || w.jobs[e.job.value].server != e.server || w.jobs[e.job.value].target != w.target
    then Health(w, Err("read bound rollout job identity"))
    else if e.server !in w.agents then Health(w, Err("lock current rollout Agent"))
    else
      var job := w.jobs[e.job.value];
      if job.status.Active() then Wait(w, u, WAITING_JOB)
      else if job.status.Failed? then Terminalize(w, u, false, NODE_FAILED)
      else if job.status.OutcomeUnknown? then Terminalize(w, u, true, NODE_UNKNOWN)
      else if job.completedAt.None? then Health(w, Err("succeeded rollout job has no completion timestamp"))
      else ProveHealthy(w, u, e.job.value, now, proofNow)
  }

  /** The health transaction. */
  function ReconcileHealth(w: World, now: Instant, proofNow: Instant): Health {
    var u := FirstUpdating(w.entries, 0);
    if !w.status.Running?
    then Health(w, Ok(HealthReply(w.status, None, "", "", None, w.errorCode, StopBlocker(w.entries))))
    else if u == |w.entries|
    then var w' := CompleteIfFinished(w); Health(w', Ok(HealthReply(w'.status, None, "", "", None, "", "")))
    else CheckEntry(w, u, now, proofNow)
  }

  // ---------------------------------------------------------------- everything else that writes these tables

  /** A completion, claim or interruption of a job, as far as the trigger on the job table lets it through. */
  function MoveJob(w: World, k: nat, to: J.JobStatus, now: Instant): World {
    if k >= |w.jobs| || !J.TriggerTransition(w.jobs[k].status, to) then w
    else w.(jobs := w.jobs[k := w.jobs[k].(status := to, completedAt := if to.Terminal() then Some(now) else None)])
  }

  /** A single-node update requested directly, or by another rollout. */
  function CreateDirectJob(w: World, server: string, target: string): World {
    if CanCreate(w, server) then w.(jobs := w.jobs + [UpdateJob(server, target, J.Pending, None)]) else w
  }

  datatype Report = Report(version: string, protocol: Option<int>, updatable: Option<bool>)

  /** A heartbeat marks its server active, which the trigger on a reserved server allows only if nothing changes. */
  predicate BeatBarred(w: World, server: string) {
    server in w.reserved && server in w.servers && !w.servers[server].status.Active?
  }

  /** What a heartbeat makes of its Agent. */
  function Heard(a: Agent, authenticated: bool, report: Report, now: Instant): Agent {
    var seen := a.(status := Online,
                   version := if report.version == "" then a.version else report.version,
                   protocol := if report.protocol.None? then a.protocol else report.protocol,
                   updatable := if report.updatable.None? then a.updatable else report.updatable.value);
    if authenticated then seen.(heartbeatAt := Some(now), heartbeatGeneration := Some(a.generation)) else seen
  }

  /** A heartbeat: with a bearer credential it is provenance, without one it is only liveness. */
  function Beat(w: World, server: string, authenticated: bool, report: Report, now: Instant): World {
    if server !in w.agents || BeatBarred(w, server) then w
    else
      var a := w.agents[server];
      w.(agents := w.agents[server := Heard(a, authenticated, report, now)],
         servers := if server in w.servers then w.servers[server := w.servers[server].(status := Active)] else w.servers,
         heartbeats := if authenticated then w.heartbeats + {Heartbeat(server, a.generation, now)} else w.heartbeats)
  }

  /** Registration: a new Agent, or a new credential generation without any heartbeat provenance. */
  function Register(w: World, server: string, status: AgentStatus, report: Report): World {
    var generation := if server in w.agents then w.agents[server].generation + 1 else 1;
    w.(agents := w.agents[server := Agent(status, report.version, report.protocol, report.updatable == Some(true), generation, None, None)])
  }

  /** An active server whose online Agent has lately sent an authenticated heartbeat. */
  predicate NodeReady(w: World, s: string, now: Instant) {
    && s in w.servers && w.servers[s].status.Active? && s in w.agents
    && var a := w.agents[s];
       a.status.Online? && a.heartbeatAt.Some? && now - a.heartbeatAt.value < TRANSFER_FRESHNESS && a.heartbeatGeneration == Some(a.generation)
  }

  /** Nothing on the node conflicts with a transfer. */
  predicate NodeFree(w: World, s: string) { s !in w.reserved && !Interlocked(w.jobs, s) }

  /** A transfer takes two different nodes that are ready and free. */
  predicate CanReserve(w: World, source: string, target: string, now: Instant) {
    && source != target
    && NodeFree(w, source) && NodeFree(w, target)
    && NodeReady(w, source, now) && NodeReady(w, target, now)
  }

  /** The start of an account transfer; `eligible` says that everything outside these tables permits it. */
  function Reserve(w: World, source: string, target: string, eligible: bool, now: Instant): World {
    if eligible && CanReserve(w, source, target, now) then w.(reserved := w.reserved + {source, target}) else w
  }

  /** A change of a server row, which the trigger keeps away from reserved nodes. */
  function ChangeServer(w: World, server: string, facts: Server): World {
    if server in w.reserved then w else w.(servers := w.servers[server := facts])
  }

  datatype Event =
    | AdmitNext
    | CheckHealth(now: Instant, proofNow: Instant)
    | DirectJob(server: string, target: string)
    | JobMoves(job: nat, to: J.JobStatus, at: Instant)
    | Beats(server: string, authenticated: bool, report: Report, at: Instant)
    | Registers(server: string, agentStatus: AgentStatus, report: Report)
    | AgentBecomes(server: string, agentStatus: AgentStatus)
    | ServerBecomes(server: string, facts: Server)
    | ManagerBecomes(version: string)
    | TransferReserves(source: string, target: string, eligible: bool, at: Instant)
    | TransferReleases(nodes: set<string>)

  function Step(w: World, e: Event): World {
    match e
    case AdmitNext => Admit(w).w
    case CheckHealth(now, proofNow) => ReconcileHealth(w, now, proofNow).w
    case DirectJob(server, target) => CreateDirectJob(w, server, target)
    case JobMoves(k, to, at) => MoveJob(w, k, to, at)
    case Beats(server, authenticated, report, at) => Beat(w, server, authenticated, report, at)
    case Registers(server, status, report) => Register(w, server, status, report)
    case AgentBecomes(server, status) =>
      if server in w.agents then w.(agents := w.agents[server := w.agents[server].(status := status)]) else w
    case ServerBecomes(server, facts) => ChangeServer(w, server, facts)
    case ManagerBecomes(version) => w.(managerVersion := version)
    case TransferReserves(source, target, eligible, at) => Reserve(w, source, target, eligible, at)
    case TransferReleases(nodes) => w.(reserved := w.reserved - nodes)
  }

  function Run(w: World, events: seq<Event>): World
    decreases |events|
  {
    if events == [] then w else Run(Step(w, events[0]), events[1..])
  }

  // ---------------------------------------------------------------- one step of the orchestrator

  datatype StepState = StepState(status: RolloutStatus, server: string, job: Option<nat>, errorCode: string, blocker: string)

  /** The unlocked inspection: the first entry that is updating or has stopped the rollout. */
  function Inspect(w: World): StepState {
    var i := FirstMarked(w.entries, 0);
    if i == |w.entries| then StepState(w.status, "", None, w.errorCode, "")
    else StepState(w.status, w.entries[i].server, w.entries[i].job, w.errorCode, w.entries[i].blocker)
  }

  function FirstMarked(entries: seq<Entry>, i: nat): (n: nat)
    requires i <= |entries|
    ensures i <= n <= |entries|
    ensures forall k :: i <= k < n ==> !entries[k].status.Updating? && !entries[k].status.Stops()
    ensures n < |entries| ==> entries[n].status.Updating? || entries[n].status.Stops()
    decreases |entries| - i
  {
    if i == |entries| || entries[i].status.Updating? || entries[i].status.Stops() then i else FirstMarked(entries, i + 1)
  }

  datatype StepAction =
    | MutationAdmitted | MutationInProgress | WaitingHealth | NodeHealthy
    | RolloutSucceeded | RolloutFailed | RolloutUnknown | NoChange

  datatype StepReply = StepReply(
    rollout: RolloutStatus,
    server: string,
    job: Option<nat>,
    action: StepAction,
    waiting: string,
    errorCode: string,
    blocker: string)

  datatype Advanced = Advanced(w: World, reply: Result<StepReply>)

  function TerminalAction(s: RolloutStatus): StepAction
    requires s.Terminal()
  {
    match s
    case Succeeded => RolloutSucceeded
    case Failed => RolloutFailed
    case OutcomeUnknown => RolloutUnknown
  }

  function TerminalReply(state: StepState): StepReply
    requires state.status.Terminal()
  {
    StepReply(state.status, state.server, state.job, TerminalAction(state.status), "", state.errorCode, state.blocker)
  }

  function ActionFromHealth(h: HealthReply): StepAction {
    if h.rollout.Terminal() then TerminalAction(h.rollout)
    else match h.entry
      case Some(Healthy) => NodeHealthy
      case Some(Failed) => RolloutFailed
      case Some(OutcomeUnknown) => RolloutUnknown
      case Some(Updating) => WaitingHealth
      case _ => NoChange
  }

  /** Refusals after which the orchestrator looks whether the rollout has ended. */
  predicate Normalized(e: AdmitError) { e.CompletedWithoutMutation? || e.NotRunnable? || e.AdmissionFailed? }

  function AdvanceByHealth(w: World, now: Instant, proofNow: Instant): Advanced {
    var h := ReconcileHealth(w, now, proofNow);
    match h.reply
    case Err(e) => Advanced(h.w, Err(e))
    case Ok(r) => Advanced(h.w, Ok(StepReply(r.rollout, r.server, r.job, ActionFromHealth(r), r.waiting, r.errorCode, r.blocker)))
  }

  /** An admission, followed after a refusal by a second inspection; other transactions may run in between. */
  function AdvanceByAdmission(w: World, after: seq<Event>): Advanced {
    var a := Admit(w);
    match a.reply
    case Admitted(job, replayed) =>
      Advanced(a.w, Ok(StepReply(Running, if job < |a.w.jobs| then a.w.jobs[job].server else "", Some(job),
                                 if replayed then MutationInProgress else MutationAdmitted, "", "", "")))
    case Refused(e) =>
      var later := Run(a.w, after);
      if Normalized(e) && later.status.Terminal() then Advanced(later, Ok(TerminalReply(Inspect(later))))
      else Advanced(a.w, Err("admission"))
  }

  /**
    One orchestration step. The inspection, the transaction and the second inspection each see the state
    of their own moment; `before` and `after` are what other transactions did in between.
   */
  function Advance(w: World, before: seq<Event>, now: Instant, proofNow: Instant, after: seq<Event>): Advanced {
    var state := Inspect(w);
    if state.status.Terminal() then Advanced(w, Ok(TerminalReply(state)))
    else if state.status.Running? && state.job.Some? then AdvanceByHealth(Run(w, before), now, proofNow)
    else AdvanceByAdmission(Run(w, before), after)
  }

  /** A table of jobs that the checks and the unique index allow. */
  ghost predicate JobTable(jobs: seq<UpdateJob>) {
    && (forall k :: 0 <= k < |jobs| ==> (jobs[k].completedAt.Some? <==> jobs[k].status.Terminal()))
    && (forall k, l :: 0 <= k < l < |jobs| && jobs[k].server == jobs[l].server ==>
          !(jobs[k].status.Unresolved() && jobs[l].status.Unresolved()))
  }

  /** A recorded heartbeat was authenticated by the credential that is current now. */
  ghost predicate HeartbeatsCurrent(w: World) {
    forall s :: s in w.agents ==>
      var a := w.agents[s];
      && (a.heartbeatAt.Some? <==> a.heartbeatGeneration.Some?)
      && (a.heartbeatAt.Some? ==> a.heartbeatGeneration == Some(a.generation) && Heartbeat(s, a.generation, a.heartbeatAt.value) in w.heartbeats)
  }

  /** A node that a transfer holds has no active or unresolved update. */
  ghost predicate ReservedFree(w: World) {
    forall s :: s in w.reserved ==> !Interlocked(w.jobs, s)
  }

  /** A node that a transfer holds is an active server. */
  ghost predicate ReservedActive(w: World) {
    forall s :: s in w.reserved ==> s in w.servers && w.servers[s].status.Active?
  }

  ghost predicate JobsHaveAgents(w: World) {
    forall k :: 0 <= k < |w.jobs| ==> w.jobs[k].server in w.agents
  }

  /** What jobs, Agents, servers and reservations keep to, whatever the rollout does. */
  ghost predicate TablesOk(w: World) {
    JobTable(w.jobs) && JobsHaveAgents(w) && HeartbeatsCurrent(w) && ReservedFree(w) && ReservedActive(w)
  }

  /** An entry as the snapshot records it; rows older than the watermark column carry none. */
  ghost predicate Snapshot(e: Entry, jobs: seq<UpdateJob>) {
    && (e.status.Queued? || e.status.Skipped?) && e.job.None? && e.proof.None?
    && (e.observed.Some? ==> e.observed.value == CountOn(jobs, e.server, 0, |jobs|))
    && (e.observed.Some? && e.status.Queued? ==> !Interlocked(jobs, e.server))
  }

  /** A rollout that has just been persisted. */
  ghost predicate Initial(w: World) {
    && w.status.Pending?
    && (forall i :: 0 <= i < |w.entries| ==> Snapshot(w.entries[i], w.jobs))
    && (forall i, k :: 0 <= i < k < |w.entries| ==> w.entries[i].server != w.entries[k].server)
    && TablesOk(w)
  }
}
