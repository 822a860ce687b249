/**
  The rollout tables as the Manager updates them: every method is one transaction, written statement by
  statement and proved to be the transaction function of the model.
 */
module RolloutRepository {
  import opened Common
  import opened Rollout
  import opened RolloutProofs
  import opened RolloutRuns
  import opened RolloutVerdicts
  import J = UpdateJobs

  /** How an insert into the job table ends. */
  datatype Insert = Inserted(job: nat) | Rejected | Held

  /** The Agent is online with what it reported; an authenticated report is provenance under its current credential. */
  ghost predicate HeardFrom(a: Agent, authenticated: bool, report: Report, now: Instant, a': Agent) {
    && a'.status.Online? && a'.generation == a.generation
    && a'.version == (if report.version == "" then a.version else report.version)
    && a'.protocol == (if report.protocol.Some? then report.protocol else a.protocol)
    && a'.updatable == (if report.updatable.Some? then report.updatable.value else a.updatable)
    && a'.heartbeatAt == (if authenticated then Some(now) else a.heartbeatAt)
    && a'.heartbeatGeneration == (if authenticated then Some(a.generation) else a.heartbeatGeneration)
  }

  class Repository {
    const target: string
    var status: RolloutStatus
    var errorCode: string
    var entries: seq<Entry>
    var jobs: seq<UpdateJob>
    var agents: map<string, Agent>
    var servers: map<string, Server>
    var managerVersion: string
    var reserved: set<string>
    ghost var heartbeats: set<Heartbeat>
    ghost var snapshot: nat              // length of the job history when the rollout was persisted

    ghost function Db(): World
      reads this
    {
      World(target, status, errorCode, entries, jobs, agents, servers, managerVersion, reserved, heartbeats)
    }

    ghost predicate Valid() reads this { Inv(snapshot, Db()) }

    /** The tables right after a snapshot was persisted. */
    constructor (w: World)
      requires Initial(w)
      ensures Valid() && Db() == w && snapshot == |w.jobs|
    {
      target, status, errorCode, entries, jobs := w.target, w.status, w.errorCode, w.entries, w.jobs;
      agents, servers, managerVersion, reserved := w.agents, w.servers, w.managerVersion, w.reserved;
      heartbeats, snapshot := w.heartbeats, |w.jobs|;
      new;
      InitialInv(w);
    }

    /** Records the failure of the rollout. */
    method FailRollout(code: string)
      modifies this`status, this`errorCode
      ensures Db() == Rollout.FailRollout(old(Db()), code)
    {
      if status.Pending? || status.Running? {
        status := RolloutStatus.Failed;
        errorCode := code;
      }
    }

    /** Completes a running rollout whose entries are all finished. */
    method CompleteIfFinished()
      modifies this`status, this`errorCode
      ensures Db() == Rollout.CompleteIfFinished(old(Db()))
    {
      if AllFinished(entries) && status.Running? {
        status := RolloutStatus.Succeeded;
        errorCode := "";
      }
    }

    /** The single-node admission: no row, the error of the reservation trigger, a unique violation, or a new pending job. */
    method CreateJob(server: string) returns (r: Insert)
      modifies this`jobs
      ensures r.Inserted? <==> CanCreate(old(Db()), server)
      ensures r.Held? <==> Installable(old(Db()), server) && server in reserved
      ensures r.Inserted? ==> r.job == |old(jobs)| && jobs == old(jobs) + [UpdateJob(server, target, J.Pending, None)]
      ensures !r.Inserted? ==> jobs == old(jobs)
    {
      if server !in servers || servers[server].status.Disabled? || !servers[server].vpn { return Rejected; }
      if server !in agents || agents[server].status.Disabled? || !agents[server].updatable { return Rejected; }
      if server in reserved { return Held; }
      if Interlocked(jobs, server) { return Rejected; }
      jobs := jobs + [UpdateJob(server, target, J.Pending, None)];
      return Inserted(|jobs| - 1);
    }

    /** The admission of the entry in row n; a held server leaves everything to be rolled back. */
    method AdmitEntry(n: nat) returns (reply: AdmitReply)
      requires n < |entries|
      modifies this`status, this`errorCode, this`entries, this`jobs
      ensures reply == Refused(NodeReserved) <==> HeldBack(old(Db()), n)
      ensures reply == Refused(NodeReserved) ==> Db() == old(Db())
      ensures reply != Refused(NodeReserved) ==> Admission(Db(), reply) == Rollout.AdmitEntry(old(Db()), n)
    {
      var e := entries[n];
      if e.observed.None? || CountOn(jobs, e.server, 0, |jobs|) != e.observed.value {
        FailRollout(ADMISSION_REJECTED);
        return Refused(AdmissionFailed);
      }
      var job := CreateJob(e.server);
      if job.Held? { return Refused(NodeReserved); }
      if job.Rejected? {
        FailRollout(ADMISSION_REJECTED);
        return Refused(AdmissionFailed);
      }
      entries := entries[n := e.(status := Updating, job := Some(job.job))];
      return Admitted(job.job, false);
    }

    /** The rest of the admission once there are entries left and none is updating. */
    method AdmitNext() returns (reply: AdmitReply)
      requires status.Pending? || status.Running?
      requires !AllFinished(entries) && (status.Running? ==> FirstUpdating(entries, 0) == |entries| || entries[FirstUpdating(entries, 0)].job.None?)
      modifies this`status, this`errorCode, this`entries, this`jobs
      ensures Admission(Db(), reply) == Rollout.Admit(old(Db()))
    {
      if managerVersion != target {
        FailRollout(MANAGER_MISMATCH);
        return Refused(AdmissionFailed);
      }
      if AnyStops(entries) { return Refused(TerminalStopEntry); }
      var next := NextAdmissible(entries);
      if next.None? { return Refused(NoNextEntry); }
      var committed := status;
      status := Running;
      reply := AdmitEntry(next.value);
      if reply == Refused(NodeReserved) { status := committed; }
    }

    /**
      The admission transaction. A reservation is refused without a trace, every other refusal is final for
      the rollout, and an admission leaves an updating entry that is bound to the returned job.
     */
    method Admit() returns (reply: AdmitReply)
      requires Valid()
      modifies this`status, this`errorCode, this`entries, this`jobs
      ensures Valid()
      ensures AdmissionTold(old(Db()), Admission(Db(), reply))
      ensures forall n :: NextUp(old(Db()), n) ==> Decided(old(Db()), n, Admission(Db(), reply))
      ensures Admission(Db(), reply) == Rollout.Admit(old(Db()))
    {
      AdmitOutcome(snapshot, Db());
      NextUpDecided(snapshot, Db());
      if !status.Pending? && !status.Running? { return Refused(NotRunnable); }
      if status.Running? {
        var u := FirstUpdating(entries, 0);
        if u < |entries| && entries[u].job.Some? { return Admitted(entries[u].job.value, true); }
      }
      if AllFinished(entries) {
        status := Running;
        CompleteIfFinished();
        return Refused(CompletedWithoutMutation);
      }
      reply := AdmitNext();
    }

    method Terminalize(u: nat, unknown: bool, code: string) returns (reply: HealthReply)
      requires u < |entries|
      modifies this`status, this`errorCode, this`entries
      ensures Rollout.Health(Db(), Ok(reply)) == Rollout.Terminalize(old(Db()), u, unknown, code)
    {
      var e := entries[u].(status := if unknown then EntryStatus.OutcomeUnknown else EntryStatus.Failed, blocker := code);
      entries := entries[u := e];
      status := if unknown then RolloutStatus.OutcomeUnknown else RolloutStatus.Failed;
      errorCode := code;
      return HealthReply(status, Some(e.status), "", e.server, e.job, code, code);
    }

    method MarkHealthy(u: nat, a: Agent, proofNow: Instant) returns (reply: HealthReply)
      requires u < |entries| && a.heartbeatAt.Some?
      modifies this`status, this`errorCode, this`entries
      ensures Rollout.Health(Db(), Ok(reply)) == Rollout.MarkHealthy(old(Db()), u, a, proofNow)
    {
      var e := entries[u].(status := Healthy, blocker := "",
                           proof := Some(Proof(|jobs|, proofNow, a.heartbeatAt.value, a.generation)));
      entries := entries[u := e];
      CompleteIfFinished();
      return HealthReply(status, Some(Healthy), "", e.server, e.job, "", "");
    }

    /** The proof of health after a succeeded job. */
    method ProveHealthy(u: nat, j: nat, now: Instant, proofNow: Instant) returns (r: Result<HealthReply>)
      requires u < |entries| && j < |jobs| && jobs[j].completedAt.Some? && entries[u].server in agents
      modifies this`status, this`errorCode, this`entries
      ensures Rollout.Health(Db(), r) == Rollout.ProveHealthy(old(Db()), u, j, now, proofNow)
    {
      var e, a := entries[u], agents[entries[u].server];
      var reply: HealthReply;
      if e.observed.None? || CountOn(jobs, e.server, 0, |jobs|) != e.observed.value + 1 {
        reply := Terminalize(u, false, INTERVENING);
        return Ok(reply);
      }
      if Interlocked(jobs, e.server) { return Ok(HealthReply(Running, Some(Updating), WAITING_JOB, e.server, e.job, "", "")); }
      if !HeartbeatProves(a, jobs[j].completedAt.value, now) {
        return Ok(HealthReply(Running, Some(Updating), WAITING_HEARTBEAT, e.server, e.job, "", ""));
      }
      if !AgentHealthy(a, target) { return Ok(HealthReply(Running, Some(Updating), WAITING_AGENT, e.server, e.job, "", "")); }
      if !FreshAt(a, proofNow) { return Err("healthy proof requires fresh post-completion authenticated heartbeat"); }
      reply := MarkHealthy(u, a, proofNow);
      return Ok(reply);
    }

    /** The health check of the updating entry. */
    method CheckEntry(u: nat, now: Instant, proofNow: Instant) returns (r: Result<HealthReply>)
      requires Valid() && status.Running? && u < |entries| && entries[u].status.Updating?
      modifies this`status, this`errorCode, this`entries
      ensures Rollout.Health(Db(), r) == Rollout.CheckEntry(old(Db()), u, now, proofNow)
    {
      var e := entries[u];
      assert EntryOk(snapshot, e, Db()) && JobsHaveAgents(Db());
      var job := jobs[e.job.value];
      var reply: HealthReply;
      if job.status.Active() { return Ok(HealthReply(Running, Some(Updating), WAITING_JOB, e.server, e.job, "", "")); }
      if job.status.Failed? { reply := Terminalize(u, false, NODE_FAILED); return Ok(reply); }
      if job.status.OutcomeUnknown? { reply := Terminalize(u, true, NODE_UNKNOWN); return Ok(reply); }
      r := ProveHealthy(u, e.job.value, now, proofNow);
    }

    /**
      The health transaction. It creates no job; it errs exactly if the proof lapses before it is written,
      and then changes nothing; otherwise it judges the updating entry by the evidence and reports what it leaves.
     */
    method ReconcileHealth(now: Instant, proofNow: Instant) returns (r: Result<HealthReply>)
      requires Valid()
      modifies this`status, this`errorCode, this`entries
      ensures Valid()
      ensures HealthTold(old(Db()), now, proofNow, Rollout.Health(Db(), r))
      ensures Rollout.Health(Db(), r) == Rollout.ReconcileHealth(old(Db()), now, proofNow)
    {
      ghost var w := Db();
      HealthOutcome(snapshot, w, now, proofNow);
      if !status.Running? { return Ok(HealthReply(status, None, "", "", None, errorCode, StopBlocker(entries))); }
      var u := FirstUpdating(entries, 0);
      if u == |entries| {
        CompleteIfFinished();
        return Ok(HealthReply(status, None, "", "", None, "", ""));
      }
      r := CheckEntry(u, now, proofNow);
    }

    /** A step that finds an updating entry. */
    method AdvanceByHealth(now: Instant, proofNow: Instant) returns (r: Result<StepReply>)
      requires Valid()
      modifies this`status, this`errorCode, this`entries
      ensures Valid()
      ensures Advanced(Db(), r) == Rollout.AdvanceByHealth(old(Db()), now, proofNow)
    {
      var h := ReconcileHealth(now, proofNow);
      if h.Err? { return Err(h.error); }
      return Ok(StepReply(h.value.rollout, h.value.server, h.value.job, ActionFromHealth(h.value), h.value.waiting,
                          h.value.errorCode, h.value.blocker));
    }

    /** A step that admits the next entry, or looks how the rollout has ended. */
    method AdvanceByAdmission() returns (r: Result<StepReply>)
      requires Valid()
      modifies this`status, this`errorCode, this`entries, this`jobs
      ensures Valid()
      ensures Advanced(Db(), r) == Rollout.AdvanceByAdmission(old(Db()), [])
    {
      ghost var w := Db();
      if !AdmissionHeld(w) && Rollout.Admit(w).reply.Refused? { RefusalsAreTerminal(snapshot, w); }
      var admission := Admit();
      assert Run(Db(), []) == Db();
      if admission.Admitted? {
        var server := if admission.job < |jobs| then jobs[admission.job].server else "";
        return Ok(StepReply(Running, server, Some(admission.job),
                            if admission.replayed then MutationInProgress else MutationAdmitted, "", "", ""));
      }
      if admission.error.NodeReserved? { return Err("admission"); }
      var k := FirstMarked(entries, 0);
      if k == |entries| { return Ok(StepReply(status, "", None, TerminalAction(status), "", errorCode, "")); }
      return Ok(StepReply(status, entries[k].server, entries[k].job, TerminalAction(status), "", errorCode, entries[k].blocker));
    }

    /**
      One orchestration step without interference. It errs exactly if a transfer holds the server it would
      admit or the health proof lapses, and then changes nothing; otherwise its reply is true.
     */
    method Advance(now: Instant, proofNow: Instant) returns (r: Result<StepReply>)
      requires Valid()
      modifies this`status, this`errorCode, this`entries, this`jobs
      ensures Valid()
      ensures r.Err? <==> StepErrs(old(Db()), old(Db()), now, proofNow)
      ensures r.Err? ==> Db() == old(Db())
      ensures r.Ok? ==> ReplyTrue(Db(), r.value)
      ensures Advanced(Db(), r) == Rollout.Advance(old(Db()), [], now, proofNow, [])
    {
      assert Run(Db(), []) == Db();
      AdvanceErrsIff(snapshot, Db(), [], now, proofNow, []);
      var i := FirstMarked(entries, 0);
      var job := if i < |entries| then entries[i].job else None;
      if status.Terminal() {
        return Ok(StepReply(status, if i < |entries| then entries[i].server else "", job, TerminalAction(status), "",
                            errorCode, if i < |entries| then entries[i].blocker else ""));
      }
      if status.Running? && job.Some? { r := AdvanceByHealth(now, proofNow); }
      else { r := AdvanceByAdmission(); }
    }

    /** The node is active, and its Agent is online and was lately heard under its current credential. */
    method CheckReady(s: string, now: Instant) returns (ready: bool)
      ensures ready <==> NodeReady(Db(), s, now)
    {
      if s !in servers || !servers[s].status.Active? || s !in agents { return false; }
      var a := agents[s];
      return a.status.Online? && a.heartbeatAt.Some? && a.heartbeatAt.value > now - TRANSFER_FRESHNESS
             && a.heartbeatGeneration == Some(a.generation);
    }

    /** A transfer takes both its nodes or none; it takes them exactly if they differ and both are free and ready. */
    method ReserveNodes(source: string, destination: string, eligible: bool, now: Instant) returns (ok: bool)
      requires Valid()
      modifies this`reserved
      ensures Valid()
      ensures ok <==> eligible && CanReserve(old(Db()), source, destination, now)
      ensures reserved == if ok then old(reserved) + {source, destination} else old(reserved)
    {
      ReserveKeeps(snapshot, Db(), source, destination, eligible, now);
      if source == destination || !eligible { return false; }
      if source in reserved || destination in reserved { return false; }
      if Interlocked(jobs, source) || Interlocked(jobs, destination) { return false; }
      ok := CheckReady(source, now);
      if !ok { return; }
      ok := CheckReady(destination, now);
      if !ok { return; }
      reserved := reserved + {source, destination};
    }

    /** The Agent row after a heartbeat. */
    method Hear(a: Agent, authenticated: bool, report: Report, now: Instant) returns (next: Agent)
      ensures next == Heard(a, authenticated, report, now)
    {
      next := a.(status := Online);
      if report.version != "" { next := next.(version := report.version); }
      if report.protocol.Some? { next := next.(protocol := report.protocol); }
      if report.updatable.Some? { next := next.(updatable := report.updatable.value); }
      if authenticated { next := next.(heartbeatAt := Some(now), heartbeatGeneration := Some(a.generation)); }
    }

    /** A heartbeat; one of a known Agent is always accepted, and only an authenticated one leaves provenance. */
    method UpdateHeartbeat(server: string, authenticated: bool, report: Report, now: Instant) returns (ok: bool)
      requires Valid()
      modifies this`agents, this`servers, this`heartbeats
      ensures Valid()
      ensures ok <==> server in old(agents)
      ensures !ok ==> Db() == old(Db())
      ensures ok ==> server in agents && HeardFrom(old(agents)[server], authenticated, report, now, agents[server])
      ensures ok ==> agents == old(agents)[server := agents[server]] && (server in servers ==> servers[server].status.Active?)
      ensures heartbeats == old(heartbeats) + (if ok && authenticated then {Heartbeat(server, old(agents)[server].generation, now)} else {})
      ensures Db() == Beat(old(Db()), server, authenticated, report, now)
    {
      BeatKeeps(snapshot, Db(), server, authenticated, report, now);
      if server !in agents { return false; }
      var next := Hear(agents[server], authenticated, report, now);
      agents := agents[server := next];
      if authenticated { heartbeats := heartbeats + {Heartbeat(server, next.generation, now)}; }
      if server in servers { servers := servers[server := servers[server].(status := Active)]; }
      return true;
    }

    /** A registration replaces the credential and forgets every heartbeat the old one sent. */
    method RegisterAgent(server: string, agentStatus: AgentStatus, report: Report)
      requires Valid()
      modifies this`agents
      ensures Valid()
      ensures server in agents && agents == old(agents)[server := agents[server]]
      ensures agents[server].heartbeatAt.None? && agents[server].heartbeatGeneration.None?
      ensures agents[server].generation == if server in old(agents) then old(agents)[server].generation + 1 else 1
      ensures agents[server].status == agentStatus && agents[server].version == report.version && agents[server].protocol == report.protocol
      ensures agents[server].updatable <==> report.updatable == Some(true)
      ensures Db() == Register(old(Db()), server, agentStatus, report)
    {
      RegisterKeeps(snapshot, Db(), server, agentStatus, report);
      var generation := if server in agents then agents[server].generation + 1 else 1;
      agents := agents[server := Agent(agentStatus, report.version, report.protocol, report.updatable == Some(true), generation, None, None)];
    }
  }
}
