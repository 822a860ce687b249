/**
  What admissions and health checks decide, in both directions: which rows lead to which verdict, with every
  condition spelled out over the tables and the clock.
 */
module RolloutVerdicts {
  import opened Common
  import opened Rollout
  import opened RolloutProofs
  import opened RolloutRuns
  import J = UpdateJobs

  // ---------------------------------------------------------------- health

  /** The Agent is online on the target version with protocol 1. */
  predicate OnTarget(a: Agent, target: string) { a.status.Online? && a.version == target && a.protocol == Some(1) }

  /** An authenticated heartbeat of the current credential came after the completion and is at most two minutes old. */
  predicate HeardSince(a: Agent, completedAt: int, now: Instant) {
    && a.heartbeatAt.Some? && a.heartbeatGeneration == Some(a.generation)
    && completedAt < a.heartbeatAt.value <= now <= a.heartbeatAt.value + 120_000_000
  }

  /** The job of the updating entry u, and the entry's count of jobs on its server as it should be. */
  ghost predicate Bound(w: World, u: nat) {
    && u < |w.entries| && w.entries[u].job.Some? && w.entries[u].job.value < |w.jobs| && w.entries[u].observed.Some?
    && w.entries[u].server in w.agents
  }

  function JobOf(w: World, u: nat): UpdateJob
    requires Bound(w, u)
  {
    w.jobs[w.entries[u].job.value]
  }

  /** No job but the bound one was created on the server since the snapshot. */
  predicate NothingIntervened(w: World, u: nat)
    requires Bound(w, u)
  {
    CountOn(w.jobs, w.entries[u].server, 0, |w.jobs|) == w.entries[u].observed.value + 1
  }

  /** Everything that a healthy verdict takes. */
  predicate HealthShown(w: World, u: nat, now: Instant, proofNow: Instant)
    requires Bound(w, u)
  {
    var a, job := w.agents[w.entries[u].server], JobOf(w, u);
    && job.status.Succeeded? && NothingIntervened(w, u) && OnTarget(a, w.target)
    && job.completedAt.Some? && HeardSince(a, job.completedAt.value, now) && HeardSince(a, job.completedAt.value, proofNow)
  }

  /** The rollout after its updating entry u was judged. */
  ghost predicate Judged(w: World, u: nat, now: Instant, proofNow: Instant, w': World)
    requires Bound(w, u)
  {
    var job := JobOf(w, u);
    && |w'.entries| == |w.entries| && w'.entries == w.entries[u := w'.entries[u]]
    && var status := w'.entries[u].status;
       && (status.Healthy? <==> HealthShown(w, u, now, proofNow))
       && (status.Failed? <==> job.status.Failed? || (job.status.Succeeded? && !NothingIntervened(w, u)))
       && (status.OutcomeUnknown? <==> job.status.OutcomeUnknown?)
       && (status.Updating? || status.Healthy? || status.Stops())
       && (w'.status.Succeeded? <==> AllFinished(w'.entries))
       && (w'.status.Failed? <==> status.Failed?)
       && (w'.status.OutcomeUnknown? <==> status.OutcomeUnknown?)
       && !w'.status.Pending?
  }

  /** What is written beside the verdict, and what a waiting reply gives as the reason. */
  ghost predicate Explained(w: World, u: nat, now: Instant, h: Health)
    requires Bound(w, u)
  {
    && |h.w.entries| == |w.entries|
    && var status, job, a := h.w.entries[u].status, JobOf(w, u), w.agents[w.entries[u].server];
       && (status.Failed? ==> h.w.entries[u].blocker == if job.status.Failed? then "node_update_failed" else "intervening_update_history")
       && (status.OutcomeUnknown? ==> h.w.entries[u].blocker == "node_update_outcome_unknown")
       && (status.Stops() ==> h.w.errorCode == h.w.entries[u].blocker)
       && (status.Healthy? ==> h.w.entries[u].blocker == "" && (h.w.status.Succeeded? ==> h.w.errorCode == ""))
       && (status.Updating? ==> h.w == w)
       && (status.Updating? && h.reply.Ok? ==>
             h.reply.value.waiting == if job.status.Active() then "job_not_terminal"
                                      else if job.completedAt.Some? && HeardSince(a, job.completedAt.value, now) then "agent_not_currently_healthy"
                                      else "heartbeat_not_proven")
  }

  lemma MarkJudged(base: nat, w: World, u: nat, proofNow: Instant)
    requires Inv(base, w) && w.status.Running? && u < |w.entries| && w.entries[u].status.Updating? && Bound(w, u)
    requires w.agents[w.entries[u].server].heartbeatAt.Some?
    ensures var w' := MarkHealthy(w, u, w.agents[w.entries[u].server], proofNow).w;
            && |w'.entries| == |w.entries| && w'.entries == w.entries[u := w'.entries[u]]
            && w'.entries[u].status.Healthy? && w'.entries[u].blocker == ""
            && w'.status == (if AllFinished(w'.entries) then RolloutStatus.Succeeded else RolloutStatus.Running)
            && (w'.status.Succeeded? ==> w'.errorCode == "")
  {
  }

  lemma TerminalizeJudged(w: World, u: nat, unknown: bool, code: string)
    requires u < |w.entries|
    ensures var w' := Terminalize(w, u, unknown, code).w;
            && |w'.entries| == |w.entries| && w'.entries == w.entries[u := w'.entries[u]]
            && w'.entries[u].status == (if unknown then EntryStatus.OutcomeUnknown else EntryStatus.Failed)
            && w'.entries[u].blocker == code && w'.errorCode == code && !AllFinished(w'.entries)
            && w'.status == (if unknown then RolloutStatus.OutcomeUnknown else RolloutStatus.Failed)
  {
    var w' := Terminalize(w, u, unknown, code).w;
    assert !w'.entries[u].status.Finished();
  }

  lemma ProofJudged(base: nat, w: World, u: nat, now: Instant, proofNow: Instant)
    requires Inv(base, w) && w.status.Running? && u < |w.entries| && w.entries[u].status.Updating? && Bound(w, u)
    requires JobOf(w, u).status.Succeeded? && JobOf(w, u).completedAt.Some?
    ensures var h := ProveHealthy(w, u, w.entries[u].job.value, now, proofNow);
            Judged(w, u, now, proofNow, h.w) && Explained(w, u, now, h)
  {
    var h := ProveHealthy(w, u, w.entries[u].job.value, now, proofNow);
    if !NothingIntervened(w, u) { TerminalizeJudged(w, u, false, INTERVENING); }
    else {
      WatermarkImpliesAlone(base, w, u);
      if HealthShown(w, u, now, proofNow) {
        assert h == MarkHealthy(w, u, w.agents[w.entries[u].server], proofNow);
        MarkJudged(base, w, u, proofNow);
      } else {
        assert h.w == w && !w.entries[u].status.Finished();
      }
    }
  }

  /** With an updating entry, a health check judges it exactly by its job, the history, the Agent and both readings of the clock. */
  lemma HealthExact(base: nat, w: World, now: Instant, proofNow: Instant)
    requires Inv(base, w) && w.status.Running? && FirstUpdating(w.entries, 0) < |w.entries|
    ensures var u, h := FirstUpdating(w.entries, 0), ReconcileHealth(w, now, proofNow);
            Bound(w, u) && Judged(w, u, now, proofNow, h.w) && Explained(w, u, now, h)
  {
    var u := FirstUpdating(w.entries, 0);
    assert EntryOk(base, w.entries[u], w) && JobsHaveAgents(w);
    assert !w.entries[u].status.Finished();
    match JobOf(w, u).status
    case Succeeded => ProofJudged(base, w, u, now, proofNow);
    case Failed => TerminalizeJudged(w, u, false, NODE_FAILED);
    case OutcomeUnknown => TerminalizeJudged(w, u, true, NODE_UNKNOWN);
    case _ =>
  }

  /** Without an updating entry, a health check ends a running rollout exactly if all its entries are finished. */
  lemma FinishExact(w: World, now: Instant, proofNow: Instant)
    requires !w.status.Running? || FirstUpdating(w.entries, 0) == |w.entries|
    ensures var h := ReconcileHealth(w, now, proofNow);
            h.reply.Ok? && h.w == if w.status.Running? && AllFinished(w.entries) then w.(status := RolloutStatus.Succeeded, errorCode := "") else w
  {
  }

  /** The reported blocker is that of the first entry that stopped the rollout. */
  lemma {:induction false} StopBlockerExact(entries: seq<Entry>, i: nat)
    requires i < |entries| && entries[i].status.Stops() && forall k :: 0 <= k < i ==> !entries[k].status.Stops()
    ensures StopBlocker(entries) == entries[i].blocker
    decreases |entries|
  {
    if i > 0 { StopBlockerExact(entries[1..], i - 1); }
  }

  /** What a caller of the health check learns: when it errs, what it leaves, and how the updating entry was judged. */
  ghost predicate HealthTold(w: World, now: Instant, proofNow: Instant, h: Health) {
    var u := FirstUpdating(w.entries, 0);
    && (h.reply.Err? <==> HealthErrs(w, now, proofNow))
    && (h.reply.Err? ==> h.w == w)
    && (h.reply.Ok? ==> ReplyMatches(w, u, h.w, h.reply.value))
    && (w.status.Running? && u < |w.entries| ==> Bound(w, u) && Judged(w, u, now, proofNow, h.w) && Explained(w, u, now, h))
  }

  lemma HealthOutcome(base: nat, w: World, now: Instant, proofNow: Instant)
    requires Inv(base, w)
    ensures Inv(base, ReconcileHealth(w, now, proofNow).w) && HealthTold(w, now, proofNow, ReconcileHealth(w, now, proofNow))
  {
    HealthKeeps(base, w, now, proofNow);
    if ReconcileHealth(w, now, proofNow).reply.Ok? { HealthReplyMatches(w, now, proofNow); }
    if w.status.Running? && FirstUpdating(w.entries, 0) < |w.entries| { HealthExact(base, w, now, proofNow); }
  }

  // ---------------------------------------------------------------- transfers

  /** No transfer holds the node, and no update on it is active or unknown. */
  ghost predicate Undisturbed(w: World, s: string) {
    s !in w.reserved && forall k :: 0 <= k < |w.jobs| && w.jobs[k].server == s ==> w.jobs[k].status.Succeeded? || w.jobs[k].status.Failed?
  }

  /** The server is active; its Agent is online and was heard under its current credential less than 90 seconds ago. */
  predicate Attentive(w: World, s: string, now: Instant) {
    && s in w.servers && w.servers[s].status.Active? && s in w.agents && w.agents[s].status.Online?
    && w.agents[s].heartbeatGeneration == Some(w.agents[s].generation)
    && w.agents[s].heartbeatAt.Some? && now < w.agents[s].heartbeatAt.value + 90_000_000
  }

  /** A transfer takes its two nodes exactly if they differ and both are undisturbed and attentive; nothing else changes. */
  lemma ReservesIff(w: World, source: string, target: string, eligible: bool, now: Instant)
    ensures var takes := && eligible && source != target && Undisturbed(w, source) && Undisturbed(w, target)
                         && Attentive(w, source, now) && Attentive(w, target, now);
            Step(w, TransferReserves(source, target, eligible, now)) == if takes then w.(reserved := w.reserved + {source, target}) else w
  {
  }

  // ---------------------------------------------------------------- admission

  /** The node can be given an update job: an enabled VPN server, an enabled Agent with the capability, and no transfer. */
  predicate NodeOpen(w: World, server: string) {
    && server in w.servers && w.servers[server].vpn && w.servers[server].status != ServerStatus.Disabled
    && server in w.agents && w.agents[server].status != AgentStatus.Disabled && w.agents[server].updatable
  }

  predicate NoneUpdating(entries: seq<Entry>) { forall i :: 0 <= i < |entries| ==> !entries[i].status.Updating? }

  /** Entry n is the first unfinished one of a rollout that may go on, under the Manager's own version. */
  ghost predicate NextUp(w: World, n: nat) {
    && !w.status.Terminal() && NoneUpdating(w.entries) && w.managerVersion == w.target
    && n < |w.entries| && !w.entries[n].status.Finished() && forall i :: 0 <= i < n ==> w.entries[i].status.Finished()
  }

  /** No job was created on the entry's server since the snapshot. */
  predicate Unchanged(w: World, n: nat)
    requires n < |w.entries|
  {
    w.entries[n].observed == Some(CountOn(w.jobs, w.entries[n].server, 0, |w.jobs|))
  }

  /** The rollout after entry n was admitted. */
  ghost predicate AdmittedEntry(w: World, n: nat, w': World)
    requires n < |w.entries|
  {
    w' == w.(status := Running,
             entries := w.entries[n := w.entries[n].(status := Updating, job := Some(|w.jobs|))],
             jobs := w.jobs + [UpdateJob(w.entries[n].server, w.target, J.Pending, None)])
  }

  /** The entry is admitted exactly if its history is unchanged and its node is open and not reserved; otherwise the rollout fails or is held. */
  ghost predicate Decided(w: World, n: nat, a: Admission)
    requires n < |w.entries|
  {
    var server := w.entries[n].server;
    && (a.reply.Admitted? <==> Unchanged(w, n) && NodeOpen(w, server) && server !in w.reserved)
    && (a.reply.Admitted? ==> a.reply == Admitted(|w.jobs|, false) && AdmittedEntry(w, n, a.w))
    && (a.reply == Refused(NodeReserved) <==> Unchanged(w, n) && NodeOpen(w, server) && server in w.reserved)
    && (a.reply == Refused(AdmissionFailed) <==> !Unchanged(w, n) || !NodeOpen(w, server))
    && (a.reply == Refused(AdmissionFailed) ==> a.w == w.(status := RolloutStatus.Failed, errorCode := "admission_rejected"))
  }

  lemma NextUpDecided(base: nat, w: World)
    requires Inv(base, w)
    ensures forall n :: NextUp(w, n) ==> Decided(w, n, Admit(w))
  {
    forall n | NextUp(w, n) ensures Decided(w, n, Admit(w)) { AdmissionExact(base, w, n); }
  }

  /** What an admission makes of the next entry. */
  lemma AdmissionExact(base: nat, w: World, n: nat)
    requires Inv(base, w) && NextUp(w, n)
    ensures Decided(w, n, Admit(w))
  {
    assert FirstUpdating(w.entries, 0) == |w.entries|;
    assert !AllFinished(w.entries);
    AdmissionRows(base, w);
    assert FirstUnfinished(w.entries, 0) == n;
    if Unchanged(w, n) { WatermarkImpliesFree(base, w, n); }
  }

  /** What an admission does when there is no next entry to admit. */
  lemma NoAdmission(base: nat, w: World)
    requires Inv(base, w)
    ensures var a := Admit(w);
            && (a.reply == Refused(NotRunnable) <==> w.status.Terminal())
            && (a.reply.Admitted? && a.reply.replayed <==> !NoneUpdating(w.entries))
            && (a.reply == Refused(CompletedWithoutMutation) <==> !w.status.Terminal() && AllFinished(w.entries))
            && (!w.status.Terminal() && AllFinished(w.entries) ==> a.w == w.(status := RolloutStatus.Succeeded, errorCode := ""))
            && (!w.status.Terminal() && NoneUpdating(w.entries) && !AllFinished(w.entries) && w.managerVersion != w.target ==>
                  a == Admission(w.(status := RolloutStatus.Failed, errorCode := "manager_version_mismatch"), Refused(AdmissionFailed)))
  {
    var u := FirstUpdating(w.entries, 0);
    if u < |w.entries| {
      assert EntryOk(base, w.entries[u], w) && w.entries[u].status.Updating?;
    } else if !w.status.Terminal() && !AllFinished(w.entries) {
      AdmissionRows(base, w);
    }
  }
}
