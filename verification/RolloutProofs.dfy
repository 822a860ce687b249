/**
  What every transaction of the rollout keeps, over every run of admissions, health checks, direct
  updates, job progress, heartbeats, registrations and administrative changes.
 */
module RolloutProofs {
  import opened Common
  import opened Rollout
  import J = UpdateJobs

  // ---------------------------------------------------------------- counting jobs

  ghost predicate Untouched(jobs: seq<UpdateJob>, server: string, lo: nat, hi: nat)
    requires hi <= |jobs|
  {
    forall k :: lo <= k < hi ==> jobs[k].server != server
  }

  lemma {:induction false} CountSplit(jobs: seq<UpdateJob>, server: string, mid: nat, hi: nat)
    requires mid <= hi <= |jobs|
    ensures CountOn(jobs, server, 0, hi) == CountOn(jobs, server, 0, mid) + CountOn(jobs, server, mid, hi)
    decreases hi
  {
    if mid < hi { CountSplit(jobs, server, mid, hi - 1); }
  }

  lemma {:induction false} CountNone(jobs: seq<UpdateJob>, server: string, lo: nat, hi: nat)
    requires hi <= |jobs|
    ensures CountOn(jobs, server, lo, hi) == 0 <==> Untouched(jobs, server, lo, hi)
    decreases hi
  {
    if lo < hi { CountNone(jobs, server, lo, hi - 1); }
  }

  /** A count of one that includes job j leaves no other job in the range. */
  lemma {:induction false} CountOne(jobs: seq<UpdateJob>, server: string, lo: nat, j: nat, hi: nat)
    requires lo <= j < hi <= |jobs| && jobs[j].server == server
    ensures CountOn(jobs, server, lo, hi) == 1 <==> Untouched(jobs, server, lo, j) && Untouched(jobs, server, j + 1, hi)
    ensures CountOn(jobs, server, lo, hi) >= 1
    decreases hi
  {
    if j < hi - 1 { CountOne(jobs, server, lo, j, hi - 1); }
    else { CountNone(jobs, server, lo, j); }
  }

  lemma {:induction false} CountFrame(jobs: seq<UpdateJob>, jobs': seq<UpdateJob>, server: string, lo: nat, hi: nat)
    requires hi <= |jobs| && hi <= |jobs'|
    requires forall k :: 0 <= k < hi ==> jobs[k].server == jobs'[k].server
    ensures CountOn(jobs, server, lo, hi) == CountOn(jobs', server, lo, hi)
    decreases hi
  {
    if lo < hi { CountFrame(jobs, jobs', server, lo, hi - 1); }
  }

  // ---------------------------------------------------------------- the invariant

  /** No entry has started before all earlier ones finished. */
  ghost predicate Ordered(entries: seq<Entry>) {
    forall i, k :: 0 <= i < k < |entries| && entries[k].status.Started() ==> entries[i].status.Finished()
  }

  ghost predicate Distinct(entries: seq<Entry>) {
    forall i, k :: 0 <= i < k < |entries| ==> entries[i].server != entries[k].server
  }

  /** The jobs that the snapshot counted are over, and none of them is unknown. */
  ghost predicate Resolved(jobs: seq<UpdateJob>, server: string, base: nat)
    requires base <= |jobs|
  {
    forall k :: 0 <= k < base && jobs[k].server == server ==> !jobs[k].status.Unresolved()
  }

  /** The bound job is the first one on its server after the snapshot. */
  ghost predicate BoundOk(base: nat, e: Entry, w: World) {
    e.job.Some? && base <= e.job.value < |w.jobs| && e.observed.Some?
    && w.jobs[e.job.value].server == e.server && w.jobs[e.job.value].target == w.target
    && Untouched(w.jobs, e.server, base, e.job.value)
  }

  /** The bound job was the only one between snapshot and proof, and a fresh authenticated heartbeat followed it. */
  ghost predicate Proven(e: Entry, w: World)
    requires e.job.Some? && e.job.value < |w.jobs|
  {
    && e.proof.Some? && w.jobs[e.job.value].status.Succeeded? && w.jobs[e.job.value].completedAt.Some?
    && var p := e.proof.value;
       && e.job.value < p.history <= |w.jobs| && Untouched(w.jobs, e.server, e.job.value + 1, p.history)
       && w.jobs[e.job.value].completedAt.value < p.heartbeatAt <= p.at && p.at - p.heartbeatAt <= FRESHNESS
       && Heartbeat(e.server, p.generation, p.heartbeatAt) in w.heartbeats
  }

  ghost predicate EntryOk(base: nat, e: Entry, w: World)
    requires base <= |w.jobs|
  {
    && (e.job.Some? <==> e.status.Started())
    && (e.observed.Some? && !e.status.Skipped? ==>
          e.observed.value == CountOn(w.jobs, e.server, 0, base) && Resolved(w.jobs, e.server, base))
    && (e.status.Started() ==> BoundOk(base, e, w))
    && (e.status.Healthy? ==> Proven(e, w))
    && (e.status.OutcomeUnknown? ==> w.jobs[e.job.value].status.OutcomeUnknown?)
    && (e.status.Failed? ==> w.jobs[e.job.value].status.Failed? || w.jobs[e.job.value].status.Succeeded?)
  }

  /** The rollout status and the entry statuses agree. */
  ghost predicate VerdictOk(w: World) {
    && (w.status.Pending? ==> forall i :: 0 <= i < |w.entries| ==> !w.entries[i].status.Started())
    && (w.status.Running? ==> !AnyStops(w.entries))
    && (w.status.Succeeded? ==> AllFinished(w.entries))
    && (w.status.Terminal() ==> forall i :: 0 <= i < |w.entries| ==> !w.entries[i].status.Updating?)
    && (w.status.OutcomeUnknown? <==> exists i :: 0 <= i < |w.entries| && w.entries[i].status.OutcomeUnknown?)
  }

  ghost predicate EntriesOk(base: nat, w: World)
    requires base <= |w.jobs|
  {
    forall i :: 0 <= i < |w.entries| ==> EntryOk(base, w.entries[i], w)
  }

  ghost predicate Inv(base: nat, w: World) {
    && base <= |w.jobs|
    && Ordered(w.entries) && Distinct(w.entries)
    && EntriesOk(base, w)
    && VerdictOk(w)
    && TablesOk(w)
  }

  lemma InitialInv(w: World)
    requires Initial(w)
    ensures Inv(|w.jobs|, w)
  {
    forall i | 0 <= i < |w.entries| ensures EntryOk(|w.jobs|, w.entries[i], w) {
      assert Snapshot(w.entries[i], w.jobs);
    }
  }

  // ---------------------------------------------------------------- what outlives a step

  /** The job history only grows, and what is over stays as it is. */
  ghost predicate Extends(jobs: seq<UpdateJob>, jobs': seq<UpdateJob>) {
    && |jobs| <= |jobs'|
    && forall k :: 0 <= k < |jobs| ==>
         && jobs'[k].server == jobs[k].server && jobs'[k].target == jobs[k].target
         && (jobs[k].status.Terminal() ==> jobs'[k] == jobs[k])
  }

  /** An entry that a step does not touch stays in order. */
  lemma EntryOkStable(base: nat, e: Entry, w: World, w': World)
    requires base <= |w.jobs| && EntryOk(base, e, w)
    requires Extends(w.jobs, w'.jobs) && w'.target == w.target && w.heartbeats <= w'.heartbeats
    ensures EntryOk(base, e, w')
  {
    CountFrame(w.jobs, w'.jobs, e.server, 0, base);
  }

  lemma ExtendsAppend(jobs: seq<UpdateJob>, job: UpdateJob)
    requires JobTable(jobs) && !Interlocked(jobs, job.server) && job.status.Pending? && job.completedAt.None?
    ensures Extends(jobs, jobs + [job]) && JobTable(jobs + [job])
  {
  }

  lemma ExtendsMove(w: World, k: nat, to: J.JobStatus, now: Instant)
    requires JobTable(w.jobs)
    ensures Extends(w.jobs, MoveJob(w, k, to, now).jobs) && JobTable(MoveJob(w, k, to, now).jobs)
  {
    if k < |w.jobs| && J.TriggerTransition(w.jobs[k].status, to) {
      ReplaceJob(w.jobs, k, w.jobs[k].(status := to, completedAt := if to.Terminal() then Some(now) else None));
    }
  }

  /** A job that is not over is replaced by a later state of itself. */
  lemma ReplaceJob(jobs: seq<UpdateJob>, k: nat, job: UpdateJob)
    requires JobTable(jobs) && k < |jobs| && jobs[k].status.Unresolved() && !jobs[k].status.Terminal()
    requires job.server == jobs[k].server && job.target == jobs[k].target && (job.completedAt.Some? <==> job.status.Terminal())
    ensures Extends(jobs, jobs[k := job]) && JobTable(jobs[k := job])
  {
  }

  /** Heartbeats and registrations keep the provenance of every recorded heartbeat current. */
  lemma AgentsKeep(w: World, e: Event)
    requires HeartbeatsCurrent(w) && JobsHaveAgents(w) && (e.Beats? || e.Registers? || e.AgentBecomes?)
    ensures HeartbeatsCurrent(Step(w, e)) && JobsHaveAgents(Step(w, e)) && w.heartbeats <= Step(w, e).heartbeats
  {
  }

  /** A job may progress or end on a reserved node, but it does not become unresolved again. */
  lemma MoveKeepsFree(w: World, k: nat, to: J.JobStatus, now: Instant)
    requires ReservedFree(w)
    ensures ReservedFree(MoveJob(w, k, to, now))
  {
    var w' := MoveJob(w, k, to, now);
    forall s | s in w'.reserved ensures !Interlocked(w'.jobs, s) {
      assert !Interlocked(w.jobs, s);
    }
  }

  /** A new job on a node that is not reserved. */
  lemma AppendKeepsFree(w: World, job: UpdateJob)
    requires ReservedFree(w) && job.server !in w.reserved
    ensures forall s :: s in w.reserved ==> !Interlocked(w.jobs + [job], s)
  {
    forall s | s in w.reserved ensures !Interlocked(w.jobs + [job], s) {
      assert !Interlocked(w.jobs, s);
    }
  }

  /** Starting a transfer takes only free and active nodes, and the trigger lets no server row of a held one change. */
  lemma ReservationsKeep(w: World, e: Event)
    requires ReservedFree(w) && ReservedActive(w) && (e.TransferReserves? || e.TransferReleases? || e.ServerBecomes? || e.Beats?)
    ensures ReservedFree(Step(w, e)) && ReservedActive(Step(w, e))
  {
  }

  lemma DirectJobKeeps(w: World, server: string, target: string)
    requires TablesOk(w)
    ensures var w' := CreateDirectJob(w, server, target); TablesOk(w') && Extends(w.jobs, w'.jobs)
  {
    if CanCreate(w, server) {
      ExtendsAppend(w.jobs, UpdateJob(server, target, J.Pending, None));
      AppendKeepsFree(w, UpdateJob(server, target, J.Pending, None));
    }
  }

  lemma MoveJobKeeps(w: World, k: nat, to: J.JobStatus, now: Instant)
    requires TablesOk(w)
    ensures var w' := MoveJob(w, k, to, now); TablesOk(w') && Extends(w.jobs, w'.jobs)
  {
    ExtendsMove(w, k, to, now);
    MoveKeepsFree(w, k, to, now);
  }

  lemma TablesKeep(w: World, e: Event)
    requires TablesOk(w) && !e.AdmitNext? && !e.CheckHealth?
    ensures var w' := Step(w, e); TablesOk(w') && Extends(w.jobs, w'.jobs) && w.heartbeats <= w'.heartbeats
  {
    match e {
      case JobMoves(k, to, at) => MoveJobKeeps(w, k, to, at);
      case DirectJob(server, target) => DirectJobKeeps(w, server, target);
      case Beats(_, _, _, _) => AgentsKeep(w, e); ReservationsKeep(w, e);
      case Registers(_, _, _) => AgentsKeep(w, e);
      case AgentBecomes(_, _) => AgentsKeep(w, e);
      case ManagerBecomes(_) =>
      case _ => ReservationsKeep(w, e);
    }
  }

  lemma OutsideSpares(w: World, e: Event)
    requires !e.AdmitNext? && !e.CheckHealth?
    ensures var w' := Step(w, e); w'.entries == w.entries && w'.status == w.status && w'.target == w.target
  {
  }

  /** What the entries say outlives any change of the other tables that keeps those in order. */
  lemma OthersKeep(base: nat, w: World, w': World)
    requires Inv(base, w) && w'.entries == w.entries && w'.status == w.status && w'.target == w.target
    requires Extends(w.jobs, w'.jobs) && w.heartbeats <= w'.heartbeats
    requires TablesOk(w')
    ensures Inv(base, w')
  {
    forall i | 0 <= i < |w'.entries| ensures EntryOk(base, w'.entries[i], w') {
      EntryOkStable(base, w.entries[i], w, w');
    }
  }

  /** A step of the outside world: entries and verdict are not its business. */
  lemma OutsideKeeps(base: nat, w: World, e: Event)
    requires Inv(base, w) && !e.AdmitNext? && !e.CheckHealth?
    ensures var w' := Step(w, e);
            Inv(base, w') && w'.entries == w.entries && w'.status == w.status && w'.target == w.target
            && Extends(w.jobs, w'.jobs) && w.heartbeats <= w'.heartbeats
  {
    OutsideSpares(w, e);
    TablesKeep(w, e);
    OthersKeep(base, w, Step(w, e));
  }

  lemma BeatKeeps(base: nat, w: World, server: string, authenticated: bool, report: Report, now: Instant)
    requires Inv(base, w)
    ensures Inv(base, Beat(w, server, authenticated, report, now))
  {
    OutsideKeeps(base, w, Beats(server, authenticated, report, now));
  }

  lemma ReserveKeeps(base: nat, w: World, source: string, target: string, eligible: bool, now: Instant)
    requires Inv(base, w)
    ensures Inv(base, Reserve(w, source, target, eligible, now))
  {
    OutsideKeeps(base, w, TransferReserves(source, target, eligible, now));
  }

  lemma RegisterKeeps(base: nat, w: World, server: string, status: AgentStatus, report: Report)
    requires Inv(base, w)
    ensures Inv(base, Register(w, server, status, report))
  {
    OutsideKeeps(base, w, Registers(server, status, report));
  }

  // ---------------------------------------------------------------- admission

  /** After the history watermark has been compared, the unique interlock cannot reject the job. */
  lemma WatermarkImpliesFree(base: nat, w: World, n: nat)
    requires Inv(base, w) && n < |w.entries| && w.entries[n].status.Open() && w.entries[n].observed.Some?
    requires CountOn(w.jobs, w.entries[n].server, 0, |w.jobs|) == w.entries[n].observed.value
    ensures Untouched(w.jobs, w.entries[n].server, base, |w.jobs|)
    ensures !Interlocked(w.jobs, w.entries[n].server)
  {
    assert EntryOk(base, w.entries[n], w);
    CountSplit(w.jobs, w.entries[n].server, base, |w.jobs|);
    CountNone(w.jobs, w.entries[n].server, base, |w.jobs|);
  }

  lemma BindKeeps(base: nat, w: World, n: nat)
    requires Inv(base, w) && w.status.Running? && Admissible(w.entries, n)
    requires HistoryUnchanged(w, n) && CanCreate(w, w.entries[n].server)
    ensures Inv(base, Bind(w, n)) && Extends(w.jobs, Bind(w, n).jobs)
  {
    WatermarkImpliesFree(base, w, n);
    var w', job := Bind(w, n), UpdateJob(w.entries[n].server, w.target, J.Pending, None);
    ExtendsAppend(w.jobs, job);
    AppendKeepsFree(w, job);
    forall i | 0 <= i < |w'.entries| ensures EntryOk(base, w'.entries[i], w') {
      EntryOkStable(base, w.entries[i], w, w');
    }
  }

  /** The rows that the admission transaction finds in a rollout that may still run. */
  lemma AdmissionRows(base: nat, w: World)
    requires Inv(base, w) && !w.status.Terminal() && !AllFinished(w.entries)
    requires w.status.Running? ==> FirstUpdating(w.entries, 0) == |w.entries|
    ensures !AnyStops(w.entries)
    ensures var n := FirstUnfinished(w.entries, 0); NextAdmissible(w.entries) == Some(n) && Admissible(w.entries, n)
  {
    var n := FirstUnfinished(w.entries, 0);
    assert EntryOk(base, w.entries[n], w);
    NextAdmissibleExact(w.entries, n);
  }

  /** Only the status and the error code of the rollout change. */
  lemma StatusKeeps(base: nat, w: World, status: RolloutStatus, code: string)
    requires Inv(base, w) && VerdictOk(w.(status := status))
    ensures Inv(base, w.(status := status, errorCode := code))
  {
    var r := w.(status := status, errorCode := code);
    forall i | 0 <= i < |r.entries| ensures EntryOk(base, r.entries[i], r) { EntryOkStable(base, w.entries[i], w, r); }
  }

  lemma AdmitEntryKeeps(base: nat, w: World, n: nat)
    requires Inv(base, w) && w.status.Running? && Admissible(w.entries, n) && FirstUpdating(w.entries, 0) == |w.entries|
    ensures var a := AdmitEntry(w, n); Inv(base, a.w) && Extends(w.jobs, a.w.jobs) && a.w.heartbeats == w.heartbeats
  {
    if !HistoryUnchanged(w, n) || !CanCreate(w, w.entries[n].server) {
      StatusKeeps(base, w, RolloutStatus.Failed, ADMISSION_REJECTED);
    } else {
      BindKeeps(base, w, n);
    }
  }

  /** The admission of the next open entry, unless its server is held. */
  lemma AdmitOpenKeeps(base: nat, w: World, n: nat)
    requires Inv(base, w) && !w.status.Terminal() && Admissible(w.entries, n)
    requires FirstUpdating(w.entries, 0) == |w.entries| && !AnyStops(w.entries)
    ensures var a := AdmitEntry(w.(status := Running), n); Inv(base, a.w) && Extends(w.jobs, a.w.jobs) && a.w.heartbeats == w.heartbeats
  {
    StatusKeeps(base, w, Running, w.errorCode);
    AdmitEntryKeeps(base, w.(status := Running), n);
  }

  /** The admission in a rollout that may still run, with entries left and none updating. */
  lemma AdmitNextKeeps(base: nat, w: World)
    requires Inv(base, w) && !w.status.Terminal() && !AllFinished(w.entries) && FirstUpdating(w.entries, 0) == |w.entries|
    ensures Inv(base, Admit(w).w) && Extends(w.jobs, Admit(w).w.jobs) && Admit(w).w.heartbeats == w.heartbeats
  {
    AdmissionRows(base, w);
    if w.managerVersion != w.target {
      StatusKeeps(base, w, RolloutStatus.Failed, MANAGER_MISMATCH);
    } else {
      AdmitOpenKeeps(base, w, FirstUnfinished(w.entries, 0));
    }
  }

  lemma AdmitKeeps(base: nat, w: World)
    requires Inv(base, w)
    ensures Inv(base, Admit(w).w) && Extends(w.jobs, Admit(w).w.jobs) && Admit(w).w.heartbeats == w.heartbeats
  {
    var u := FirstUpdating(w.entries, 0);
    if u < |w.entries| { assert EntryOk(base, w.entries[u], w); }
    if w.status.Terminal() || (w.status.Running? && u < |w.entries|) {
    } else if AllFinished(w.entries) {
      StatusKeeps(base, w, RolloutStatus.Succeeded, "");
    } else {
      AdmitNextKeeps(base, w);
    }
  }

  // ---------------------------------------------------------------- health

  /** After the history watermark has been compared, the bound job is the only one and nothing is unresolved. */
  lemma WatermarkImpliesAlone(base: nat, w: World, u: nat)
    requires Inv(base, w) && u < |w.entries| && w.entries[u].status.Updating?
    requires w.entries[u].job.Some? && w.entries[u].job.value < |w.jobs| && !w.jobs[w.entries[u].job.value].status.Unresolved()
    requires w.entries[u].observed.Some? && CountOn(w.jobs, w.entries[u].server, 0, |w.jobs|) == w.entries[u].observed.value + 1
    ensures Untouched(w.jobs, w.entries[u].server, w.entries[u].job.value + 1, |w.jobs|)
    ensures !Interlocked(w.jobs, w.entries[u].server)
  {
    var e := w.entries[u];
    assert EntryOk(base, e, w);
    CountSplit(w.jobs, e.server, base, |w.jobs|);
    CountOne(w.jobs, e.server, base, e.job.value, |w.jobs|);
  }

  /** Replacing one updating entry by a closed one. */
  lemma CloseEntry(base: nat, w: World, u: nat, e: Entry, status: RolloutStatus, code: string)
    requires Inv(base, w) && w.status.Running? && u < |w.entries| && w.entries[u].status.Updating?
    requires e.server == w.entries[u].server && DeclaredEntry(Updating, e.status) && EntryOk(base, e, w)
    requires status.Running? <==> e.status.Healthy? && !AllFinished(w.entries[u := e])
    requires status.Succeeded? <==> e.status.Healthy? && AllFinished(w.entries[u := e])
    requires status.OutcomeUnknown? <==> e.status.OutcomeUnknown?
    requires !status.Pending?
    ensures Inv(base, w.(entries := w.entries[u := e], status := status, errorCode := code))
  {
    var w' := w.(entries := w.entries[u := e], status := status, errorCode := code);
    forall i | 0 <= i < |w'.entries| ensures EntryOk(base, w'.entries[i], w') {
      EntryOkStable(base, if i == u then e else w.entries[i], w, w');
    }
    assert w.entries[u].status.Started();
    assert w'.entries[u] == e;
    assert forall i :: 0 <= i < |w'.entries| && i != u ==> w'.entries[i] == w.entries[i];
    assert forall i :: u < i < |w.entries| ==> !w.entries[i].status.Started();
    assert forall i :: 0 <= i < u ==> w.entries[i].status.Finished();
  }

  /** What a health check leaves alone. */
  ghost predicate SameHistory(w: World, w': World) {
    w'.jobs == w.jobs && w'.heartbeats == w.heartbeats && w'.target == w.target
  }

  lemma TerminalizeKeeps(base: nat, w: World, u: nat, unknown: bool, code: string)
    requires Inv(base, w) && w.status.Running? && u < |w.entries| && w.entries[u].status.Updating? && BoundOk(base, w.entries[u], w)
    requires var status := w.jobs[w.entries[u].job.value].status;
             if unknown then status.OutcomeUnknown? else status.Failed? || status.Succeeded?
    ensures Checked(base, w, Terminalize(w, u, unknown, code), false)
  {
    var e := w.entries[u].(status := if unknown then EntryStatus.OutcomeUnknown else EntryStatus.Failed, blocker := code);
    assert EntryOk(base, w.entries[u], w);
    CloseEntry(base, w, u, e, if unknown then RolloutStatus.OutcomeUnknown else RolloutStatus.Failed, code);
  }

  /** The proof holds by the Manager's reading of the clock and has lapsed by the trigger's. */
  predicate ProofLapses(w: World, u: nat, now: Instant, proofNow: Instant)
    requires u < |w.entries|
  {
    var e := w.entries[u];
    && e.job.Some? && e.job.value < |w.jobs| && e.server in w.agents && e.observed.Some?
    && var job, a := w.jobs[e.job.value], w.agents[e.server];
       && job.status.Succeeded? && job.completedAt.Some?
       && CountOn(w.jobs, e.server, 0, |w.jobs|) == e.observed.value + 1
       && HeartbeatProves(a, job.completedAt.value, now) && AgentHealthy(a, w.target)
       && !FreshAt(a, proofNow)
  }

  /** A health check ends in the error of the trigger. */
  predicate HealthErrs(w: World, now: Instant, proofNow: Instant) {
    var u := FirstUpdating(w.entries, 0);
    w.status.Running? && u < |w.entries| && ProofLapses(w, u, now, proofNow)
  }

  /** What a health check of entry u does: it keeps the invariant, and it errs exactly if the proof lapses. */
  ghost predicate Checked(base: nat, w: World, h: Health, errs: bool) {
    && Inv(base, h.w) && SameHistory(w, h.w)
    && (h.reply.Err? <==> errs)
    && (h.reply.Err? ==> h.w == w)
  }

  lemma ProveHealthyKeeps(base: nat, w: World, u: nat, now: Instant, proofNow: Instant)
    requires Inv(base, w) && w.status.Running? && u < |w.entries| && w.entries[u].status.Updating? && BoundOk(base, w.entries[u], w)
    requires w.jobs[w.entries[u].job.value].status.Succeeded? && w.jobs[w.entries[u].job.value].completedAt.Some?
    requires w.entries[u].server in w.agents
    ensures Checked(base, w, ProveHealthy(w, u, w.entries[u].job.value, now, proofNow), ProofLapses(w, u, now, proofNow))
  {
    var e, a := w.entries[u], w.agents[w.entries[u].server];
    assert EntryOk(base, e, w);
    if CountOn(w.jobs, e.server, 0, |w.jobs|) != e.observed.value + 1 {
      TerminalizeKeeps(base, w, u, false, INTERVENING);
    } else {
      WatermarkImpliesAlone(base, w, u);
      if HeartbeatProves(a, w.jobs[e.job.value].completedAt.value, now) && AgentHealthy(a, w.target) && FreshAt(a, proofNow) {
        MarkHealthyKeeps(base, w, u, proofNow);
      }
    }
  }

  lemma MarkHealthyKeeps(base: nat, w: World, u: nat, proofNow: Instant)
    requires Inv(base, w) && w.status.Running? && u < |w.entries| && w.entries[u].status.Updating? && BoundOk(base, w.entries[u], w)
    requires Untouched(w.jobs, w.entries[u].server, w.entries[u].job.value + 1, |w.jobs|)
    requires w.jobs[w.entries[u].job.value].status.Succeeded? && w.jobs[w.entries[u].job.value].completedAt.Some?
    requires w.entries[u].server in w.agents
    requires var a := w.agents[w.entries[u].server];
             FreshAt(a, proofNow) && w.jobs[w.entries[u].job.value].completedAt.value < a.heartbeatAt.value
    ensures Checked(base, w, MarkHealthy(w, u, w.agents[w.entries[u].server], proofNow), false)
  {
    var e, a := w.entries[u], w.agents[w.entries[u].server];
    assert EntryOk(base, e, w);
    var e' := e.(status := Healthy, blocker := "", proof := Some(Proof(|w.jobs|, proofNow, a.heartbeatAt.value, a.generation)));
    assert EntryOk(base, e', w);
    var all := AllFinished(w.entries[u := e']);
    CloseEntry(base, w, u, e', if all then RolloutStatus.Succeeded else Running, if all then "" else w.errorCode);
  }

  lemma CheckEntryKeeps(base: nat, w: World, u: nat, now: Instant, proofNow: Instant)
    requires Inv(base, w) && w.status.Running? && u < |w.entries| && w.entries[u].status.Updating?
    ensures Checked(base, w, CheckEntry(w, u, now, proofNow), ProofLapses(w, u, now, proofNow))
  {
    var e := w.entries[u];
    assert EntryOk(base, e, w);
    assert JobsHaveAgents(w);
    var job := w.jobs[e.job.value];
    if job.status.Failed? { TerminalizeKeeps(base, w, u, false, NODE_FAILED); }
    else if job.status.OutcomeUnknown? { TerminalizeKeeps(base, w, u, true, NODE_UNKNOWN); }
    else if job.status.Succeeded? { ProveHealthyKeeps(base, w, u, now, proofNow); }
  }

  /** A health check keeps the invariant, creates no job, and errs exactly if the proof lapses before it is written. */
  lemma HealthKeeps(base: nat, w: World, now: Instant, proofNow: Instant)
    requires Inv(base, w)
    ensures Checked(base, w, ReconcileHealth(w, now, proofNow), HealthErrs(w, now, proofNow))
  {
    var u := FirstUpdating(w.entries, 0);
    if w.status.Running? && u < |w.entries| {
      CheckEntryKeeps(base, w, u, now, proofNow);
    } else if w.status.Running? && AllFinished(w.entries) {
      StatusKeeps(base, w, RolloutStatus.Succeeded, "");
    }
  }

  lemma StepKeeps(base: nat, w: World, e: Event)
    requires Inv(base, w)
    ensures Inv(base, Step(w, e)) && Extends(w.jobs, Step(w, e).jobs)
  {
    match e
    case AdmitNext => AdmitKeeps(base, w);
    case CheckHealth(now, proofNow) => HealthKeeps(base, w, now, proofNow);
    case _ => OutsideKeeps(base, w, e);
  }

  lemma {:induction false} RunKeeps(base: nat, w: World, events: seq<Event>)
    requires Inv(base, w)
    ensures Inv(base, Run(w, events)) && Extends(w.jobs, Run(w, events).jobs)
    decreases |events|
  {
    if events != [] {
      StepKeeps(base, w, events[0]);
      RunKeeps(base, Step(w, events[0]), events[1..]);
    }
  }
}
