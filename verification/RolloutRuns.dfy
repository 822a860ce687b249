/**
  The guarantees of the rollout over whole runs: order, verdicts, one job per member, bounded progress,
  and what a healthy verdict is worth.
 */
module RolloutRuns {
  import opened Common
  import opened Rollout
  import opened RolloutProofs

  // ---------------------------------------------------------------- order and verdicts

  /**
    In position order the entries are finished ones, then at most one that is updating or has stopped the
    rollout, then ones that have not started.
   */
  lemma OneAtATime(w: World, events: seq<Event>)
    requires Initial(w)
    ensures var es := Run(w, events).entries;
            var p := FirstUnfinished(es, 0);
            && (forall i :: 0 <= i < p ==> es[i].status.Finished())
            && (p < |es| ==> es[p].status.Open() || es[p].status.Updating? || es[p].status.Stops())
            && (forall i :: p < i < |es| ==> es[i].status.Open() || es[i].status.Skipped?)
  {
    InitialInv(w);
    RunKeeps(|w.jobs|, w, events);
  }

  /** The verdict on the rollout matches its entries, and the bound jobs bear the entries out. */
  lemma VerdictsMatchEntries(w: World, events: seq<Event>)
    requires Initial(w)
    ensures var r := Run(w, events);
            && (r.status.Succeeded? ==> AllFinished(r.entries))
            && (r.status.Running? ==> !AnyStops(r.entries))
            && (r.status.Terminal() ==> forall i :: 0 <= i < |r.entries| ==> !r.entries[i].status.Updating?)
            && (r.status.OutcomeUnknown? <==> exists i :: 0 <= i < |r.entries| && r.entries[i].status.OutcomeUnknown?)
    ensures var r := Run(w, events);
            forall i :: 0 <= i < |r.entries| && r.entries[i].status.Started() ==>
              && r.entries[i].job.Some? && r.entries[i].job.value < |r.jobs|
              && var job := r.jobs[r.entries[i].job.value];
                 && job.server == r.entries[i].server && job.target == r.target
                 && (r.entries[i].status.Healthy? ==> job.status.Succeeded?)
                 && (r.entries[i].status.OutcomeUnknown? ==> job.status.OutcomeUnknown?)
                 && (r.entries[i].status.Failed? ==> job.status.Failed? || job.status.Succeeded?)
  {
    InitialInv(w);
    RunKeeps(|w.jobs|, w, events);
    var r := Run(w, events);
    forall i | 0 <= i < |r.entries| ensures EntryOk(|w.jobs|, r.entries[i], r) { }
  }

  /** No edge, one declared edge, or two declared edges through running. */
  ghost predicate DeclaredRolloutPath(from: RolloutStatus, to: RolloutStatus) {
    to == from || DeclaredRollout(from, to) || (DeclaredRollout(from, Running) && DeclaredRollout(Running, to))
  }

  /** Every entry keeps its identity and its job, and moves along a declared edge or not at all. */
  ghost predicate EntriesEvolve(es: seq<Entry>, es': seq<Entry>) {
    && |es'| == |es|
    && forall i :: 0 <= i < |es| ==>
         && es'[i].server == es[i].server && es'[i].observed == es[i].observed
         && (es[i].job.Some? ==> es'[i].job == es[i].job)
         && (es'[i].status == es[i].status || DeclaredEntry(es[i].status, es'[i].status))
  }

  ghost predicate OnlyOneChanges(es: seq<Entry>, es': seq<Entry>)
    requires |es'| == |es|
  {
    forall i, k :: 0 <= i < k < |es| ==> es'[i] == es[i] || es'[k] == es[k]
  }

  /** An admission leaves the entries alone or binds a job to one open entry. */
  ghost predicate AdmitShape(w: World, w': World) {
    && DeclaredRolloutPath(w.status, w'.status)
    && (|| w'.entries == w.entries
        || exists n :: 0 <= n < |w.entries| && w.entries[n].status.Open() && w.entries[n].job.None?
             && w'.entries == w.entries[n := w.entries[n].(status := Updating, job := Some(|w.jobs|))])
  }

  lemma AdmitHasShape(w: World)
    ensures AdmitShape(w, Admit(w).w)
  {
    var n := FirstUnfinished(w.entries, 0);
    if NextAdmissible(w.entries).Some? { assert NextAdmissible(w.entries) == Some(n); }
  }

  lemma AdmitShapeEvolves(w: World, w': World)
    requires AdmitShape(w, w')
    ensures DeclaredRolloutPath(w.status, w'.status) && EntriesEvolve(w.entries, w'.entries) && OnlyOneChanges(w.entries, w'.entries)
  {
  }

  /** A health check leaves the rollout alone, completes it, or moves its updating entry along a declared edge. */
  ghost predicate HealthShape(w: World, w': World) {
    || (w'.entries == w.entries && (w'.status == w.status || (w.status.Running? && w'.status.Succeeded?)))
    || (var u := FirstUpdating(w.entries, 0);
        && u < |w.entries| && |w'.entries| == |w.entries| && w.status.Running? && !w'.status.Pending?
        && var e := w'.entries[u];
           && w'.entries == w.entries[u := e]
           && e.server == w.entries[u].server && e.observed == w.entries[u].observed && e.job == w.entries[u].job
           && DeclaredEntry(Updating, e.status))
  }

  lemma MarkHealthyHasShape(w: World, u: nat, a: Agent, proofNow: Instant)
    requires w.status.Running? && u < |w.entries| && u == FirstUpdating(w.entries, 0) && a.heartbeatAt.Some?
    ensures HealthShape(w, MarkHealthy(w, u, a, proofNow).w)
  {
  }

  lemma TerminalizeHasShape(w: World, u: nat, unknown: bool, code: string)
    requires w.status.Running? && u < |w.entries| && u == FirstUpdating(w.entries, 0)
    ensures HealthShape(w, Terminalize(w, u, unknown, code).w)
  {
  }

  lemma ProveHealthyHasShape(w: World, u: nat, j: nat, now: Instant, proofNow: Instant)
    requires w.status.Running? && u < |w.entries| && u == FirstUpdating(w.entries, 0)
    requires j < |w.jobs| && w.jobs[j].completedAt.Some? && w.entries[u].server in w.agents
    ensures HealthShape(w, ProveHealthy(w, u, j, now, proofNow).w)
  {
    TerminalizeHasShape(w, u, false, INTERVENING);
    var a := w.agents[w.entries[u].server];
    if a.heartbeatAt.Some? { MarkHealthyHasShape(w, u, a, proofNow); }
  }

  lemma CheckHasShape(w: World, u: nat, now: Instant, proofNow: Instant)
    requires w.status.Running? && u < |w.entries| && u == FirstUpdating(w.entries, 0)
    ensures HealthShape(w, CheckEntry(w, u, now, proofNow).w)
  {
    TerminalizeHasShape(w, u, false, NODE_FAILED);
    TerminalizeHasShape(w, u, true, NODE_UNKNOWN);
    if w.entries[u].job.Some? && w.entries[u].server in w.agents {
      var j := w.entries[u].job.value;
      if j < |w.jobs| && w.jobs[j].completedAt.Some? { ProveHealthyHasShape(w, u, j, now, proofNow); }
    }
  }

  lemma HealthHasShape(w: World, now: Instant, proofNow: Instant)
    ensures HealthShape(w, ReconcileHealth(w, now, proofNow).w)
  {
    var u := FirstUpdating(w.entries, 0);
    if w.status.Running? && u < |w.entries| { CheckHasShape(w, u, now, proofNow); }
  }

  lemma ShapeEvolves(w: World, w': World)
    requires HealthShape(w, w')
    ensures DeclaredRolloutPath(w.status, w'.status) && EntriesEvolve(w.entries, w'.entries) && OnlyOneChanges(w.entries, w'.entries)
  {
  }

  /** Every transaction conforms to the declared relations and changes at most one entry. */
  lemma StepEvolves(base: nat, w: World, e: Event)
    requires Inv(base, w)
    ensures var w' := Step(w, e);
            DeclaredRolloutPath(w.status, w'.status) && EntriesEvolve(w.entries, w'.entries) && OnlyOneChanges(w.entries, w'.entries)
  {
    match e
    case AdmitNext => AdmitHasShape(w); AdmitShapeEvolves(w, Admit(w).w);
    case CheckHealth(now, proofNow) => HealthHasShape(w, now, proofNow); ShapeEvolves(w, ReconcileHealth(w, now, proofNow).w);
    case _ => OutsideKeeps(base, w, e);
  }

  lemma TerminalStays(w: World, e: Event)
    requires w.status.Terminal()
    ensures var w' := Step(w, e); w'.status == w.status && w'.entries == w.entries && w'.errorCode == w.errorCode
  {
  }

  /** A terminal rollout never changes again and admits nothing. */
  lemma {:induction false} TerminalIsFinal(w: World, events: seq<Event>)
    requires w.status.Terminal()
    ensures Run(w, events).status == w.status && Run(w, events).entries == w.entries && Run(w, events).errorCode == w.errorCode
    ensures Admit(Run(w, events)) == Admission(Run(w, events), Refused(NotRunnable))
    decreases |events|
  {
    if events != [] {
      TerminalStays(w, events[0]);
      TerminalIsFinal(Step(w, events[0]), events[1..]);
    }
  }

  // ---------------------------------------------------------------- one job per member

  /** How many jobs the rollout creates for a server in a run. */
  function Creations(w: World, events: seq<Event>, server: string): nat
    decreases |events|
  {
    if events == [] then 0
    else (if Creates(w, events[0], server) then 1 else 0) + Creations(Step(w, events[0]), events[1..], server)
  }

  ghost predicate StillOpen(w: World, server: string) {
    !w.status.Terminal() && exists i :: 0 <= i < |w.entries| && w.entries[i].server == server && w.entries[i].status.Open()
  }

  /** A fresh admission turns an open entry into the updating one and binds the new, last job to it. */
  lemma FreshAdmission(base: nat, w: World)
    requires Inv(base, w) && Admit(w).reply.Admitted? && !Admit(w).reply.replayed
    ensures var n := FirstUnfinished(w.entries, 0); var a := Admit(w);
            && !w.status.Terminal() && n < |w.entries| && w.entries[n].status.Open()
            && a.reply.job == |w.jobs| && |a.w.jobs| == |w.jobs| + 1 && a.w.jobs[|w.jobs|].server == w.entries[n].server
            && a.w.entries == w.entries[n := w.entries[n].(status := Updating, job := Some(|w.jobs|))]
            && a.w.status.Running?
  {
  }

  lemma OpenShrinks(base: nat, w: World, e: Event, server: string)
    requires Inv(base, w) && StillOpen(Step(w, e), server)
    ensures StillOpen(w, server)
  {
    StepEvolves(base, w, e);
    var i :| 0 <= i < |Step(w, e).entries| && Step(w, e).entries[i].server == server && Step(w, e).entries[i].status.Open();
    assert w.entries[i].server == server;
  }

  /** The transaction creates a job for the server. */
  predicate Creates(w: World, e: Event, server: string) {
    var a := Admit(w);
    e.AdmitNext? && a.reply.Admitted? && !a.reply.replayed && a.reply.job < |a.w.jobs| && a.w.jobs[a.reply.job].server == server
  }

  /** A new job uses up the open entry of its server. */
  lemma CreationUsesEntry(base: nat, w: World, server: string)
    requires Inv(base, w) && Creates(w, AdmitNext, server)
    ensures StillOpen(w, server) && !StillOpen(Admit(w).w, server)
  {
    FreshAdmission(base, w);
    var n, entries := FirstUnfinished(w.entries, 0), Admit(w).w.entries;
    assert w.entries[n].server == server && entries[n].status.Updating?;
    assert forall i :: 0 <= i < |entries| && entries[i].server == server ==> i == n;
  }

  /** No member server is ever given a second job, and none after it has been started or the rollout has ended. */
  lemma {:induction false} OneJobPerMember(base: nat, w: World, events: seq<Event>, server: string)
    requires Inv(base, w)
    ensures Creations(w, events, server) <= if StillOpen(w, server) then 1 else 0
    decreases |events|
  {
    if events != [] {
      var w' := Step(w, events[0]);
      StepKeeps(base, w, events[0]);
      OneJobPerMember(base, w', events[1..], server);
      if StillOpen(w', server) { OpenShrinks(base, w, events[0], server); }
      if Creates(w, events[0], server) { CreationUsesEntry(base, w, server); }
    }
  }

  lemma NoHealthKeepsUpdating(base: nat, w: World, e: Event, u: nat)
    requires Inv(base, w) && w.status.Running? && u < |w.entries| && w.entries[u].status.Updating? && !e.CheckHealth?
    ensures Step(w, e).entries == w.entries && Step(w, e).status == w.status
  {
    assert EntryOk(base, w.entries[u], w);
    assert forall i :: 0 <= i < |w.entries| && i != u ==> !w.entries[i].status.Updating?;
    if !e.AdmitNext? { OutsideKeeps(base, w, e); }
  }

  /** Until a health check closes the entry, every admission returns the same job and changes nothing. */
  lemma {:induction false} AdmissionReplays(base: nat, w: World, events: seq<Event>, u: nat)
    requires Inv(base, w) && w.status.Running? && u < |w.entries| && w.entries[u].status.Updating?
    requires forall k :: 0 <= k < |events| ==> !events[k].CheckHealth?
    ensures var r := Run(w, events);
            w.entries[u].job.Some? && Admit(r) == Admission(r, Admitted(w.entries[u].job.value, true))
    decreases |events|
  {
    if events != [] {
      NoHealthKeepsUpdating(base, w, events[0], u);
      StepKeeps(base, w, events[0]);
      AdmissionReplays(base, Step(w, events[0]), events[1..], u);
    } else {
      assert EntryOk(base, w.entries[u], w);
      assert FirstUpdating(w.entries, 0) == u;
    }
  }

  // ---------------------------------------------------------------- progress

  function Weight(s: EntryStatus): nat { if s.Open() then 2 else if s.Updating? then 1 else 0 }

  /** Twice the entries that have not started, plus the one that is updating, among the first k. */
  function Load(es: seq<Entry>, k: nat): nat
    requires k <= |es|
  {
    if k == 0 then 0 else Load(es, k - 1) + Weight(es[k - 1].status)
  }

  function Measure(w: World): nat { if w.status.Terminal() then 0 else 1 + Load(w.entries, |w.entries|) }

  lemma {:induction false} LoadBound(es: seq<Entry>, k: nat)
    requires k <= |es|
    ensures Load(es, k) <= 2 * k
  {
    if k > 0 { LoadBound(es, k - 1); }
  }

  lemma {:induction false} LoadUpdate(es: seq<Entry>, u: nat, e: Entry, k: nat)
    requires u < |es| && k <= |es|
    ensures Load(es[u := e], k) == Load(es, k) + (if u < k then Weight(e.status) - Weight(es[u].status) else 0)
    decreases k
  {
    if k > 0 { LoadUpdate(es, u, e, k - 1); }
  }

  predicate Changed(w: World, w': World) { w'.status != w.status || w'.entries != w.entries }

  /** An admission that changes the rollout brings it closer to its end. */
  lemma AdmitMeasure(base: nat, w: World)
    requires Inv(base, w) && Changed(w, Admit(w).w)
    ensures Measure(Admit(w).w) < Measure(w)
  {
    var a := Admit(w);
    if a.reply.Admitted? {
      FreshAdmission(base, w);
      var n := FirstUnfinished(w.entries, 0);
      LoadUpdate(w.entries, n, w.entries[n].(status := Updating, job := Some(|w.jobs|)), |w.entries|);
    }
  }

  lemma HealthMeasure(w: World, now: Instant, proofNow: Instant)
    requires Changed(w, ReconcileHealth(w, now, proofNow).w)
    ensures Measure(ReconcileHealth(w, now, proofNow).w) < Measure(w)
  {
    HealthHasShape(w, now, proofNow);
    ShapeMeasure(w, ReconcileHealth(w, now, proofNow).w);
  }

  lemma ShapeMeasure(w: World, w': World)
    requires HealthShape(w, w') && Changed(w, w')
    ensures Measure(w') < Measure(w)
  {
    var u := FirstUpdating(w.entries, 0);
    if w'.entries != w.entries { LoadUpdate(w.entries, u, w'.entries[u], |w.entries|); }
  }

  /** How many transactions of a run change the rollout. */
  function Changes(w: World, events: seq<Event>): nat
    decreases |events|
  {
    if events == [] then 0
    else (if Changed(w, Step(w, events[0])) then 1 else 0) + Changes(Step(w, events[0]), events[1..])
  }

  lemma {:induction false} ChangesBound(base: nat, w: World, events: seq<Event>)
    requires Inv(base, w)
    ensures Changes(w, events) + Measure(Run(w, events)) <= Measure(w)
    decreases |events|
  {
    if events != [] {
      var e := events[0];
      StepKeeps(base, w, e);
      if Changed(w, Step(w, e)) {
        match e {
          case AdmitNext => AdmitMeasure(base, w);
          case CheckHealth(now, proofNow) => HealthMeasure(w, now, proofNow);
          case _ => OutsideKeeps(base, w, e);
        }
      }
      ChangesBound(base, Step(w, e), events[1..]);
    }
  }

  /** A rollout of n entries changes at most 2n + 1 times, and is terminal when it has done so. */
  lemma BoundedProgress(w: World, events: seq<Event>)
    requires Initial(w)
    ensures Changes(w, events) <= 2 * |w.entries| + 1
    ensures Changes(w, events) == 2 * |w.entries| + 1 ==> Run(w, events).status.Terminal()
  {
    InitialInv(w);
    ChangesBound(|w.jobs|, w, events);
    LoadBound(w.entries, |w.entries|);
  }

  /** The evidence on which a health check closes the updating entry. */
  predicate Decisive(w: World, u: nat, now: Instant, proofNow: Instant)
    requires u < |w.entries| && w.entries[u].job.Some? && w.entries[u].job.value < |w.jobs|
  {
    var e, job := w.entries[u], w.jobs[w.entries[u].job.value];
    || job.status.Failed? || job.status.OutcomeUnknown?
    || (job.status.Succeeded? &&
        (|| (e.observed.Some? && CountOn(w.jobs, e.server, 0, |w.jobs|) != e.observed.value + 1)
         || (e.server in w.agents && job.completedAt.Some?
             && HeartbeatProves(w.agents[e.server], job.completedAt.value, now) && AgentHealthy(w.agents[e.server], w.target)
             && FreshAt(w.agents[e.server], proofNow))))
  }

  /** The next entry would be admitted, but an account transfer holds its server. */
  predicate AdmissionHeld(w: World) {
    var n := FirstUnfinished(w.entries, 0);
    && !w.status.Terminal() && FirstUpdating(w.entries, 0) == |w.entries|
    && n < |w.entries| && w.managerVersion == w.target && HeldBack(w, n)
  }

  /** An admission is refused without a record exactly if a transfer holds the next server, and then nothing changes. */
  lemma HeldIff(base: nat, w: World)
    requires Inv(base, w)
    ensures Admit(w).reply == Refused(NodeReserved) <==> AdmissionHeld(w)
    ensures AdmissionHeld(w) ==> Admit(w).w == w
  {
    var u := FirstUpdating(w.entries, 0);
    if u < |w.entries| { assert EntryOk(base, w.entries[u], w); }
    else if !w.status.Terminal() && !AllFinished(w.entries) { AdmissionRows(base, w); }
  }

  /**
    In a rollout that may still run the two dead-end errors do not occur, and without an updating entry the
    next admission makes progress exactly if no transfer holds the next server.
   */
  lemma AdmissionProgresses(base: nat, w: World)
    requires Inv(base, w) && !w.status.Terminal()
    ensures Admit(w).reply != Refused(TerminalStopEntry) && Admit(w).reply != Refused(NoNextEntry) && Admit(w).reply != Refused(NotRunnable)
    ensures FirstUpdating(w.entries, 0) == |w.entries| ==> (Measure(Admit(w).w) < Measure(w) <==> !AdmissionHeld(w))
  {
    HeldIff(base, w);
    var u := FirstUpdating(w.entries, 0);
    if u < |w.entries| { assert EntryOk(base, w.entries[u], w); }
    else {
      if !AllFinished(w.entries) { AdmissionRows(base, w); }
      if Changed(w, Admit(w).w) { AdmitMeasure(base, w); }
    }
  }

  /** However often it is repeated, a held admission changes nothing. */
  lemma {:induction false} HeldRepeats(base: nat, w: World, calls: nat)
    requires Inv(base, w) && AdmissionHeld(w)
    ensures Run(w, seq(calls, i => AdmitNext)) == w
    decreases calls
  {
    if calls > 0 {
      HeldIff(base, w);
      assert seq(calls, i => AdmitNext)[1..] == seq(calls - 1, i => AdmitNext);
      HeldRepeats(base, w, calls - 1);
    }
  }

  /** The verdict on a succeeded job. */
  lemma ProofProgressesIff(base: nat, w: World, u: nat, now: Instant, proofNow: Instant)
    requires Inv(base, w) && w.status.Running? && u < |w.entries| && w.entries[u].status.Updating? && BoundOk(base, w.entries[u], w)
    requires var j := w.entries[u].job.value; w.jobs[j].status.Succeeded? && w.jobs[j].completedAt.Some?
    requires w.entries[u].server in w.agents
    ensures Changed(w, ProveHealthy(w, u, w.entries[u].job.value, now, proofNow).w) <==> Decisive(w, u, now, proofNow)
  {
    var w' := ProveHealthy(w, u, w.entries[u].job.value, now, proofNow).w;
    if CountOn(w.jobs, w.entries[u].server, 0, |w.jobs|) == w.entries[u].observed.value + 1 { WatermarkImpliesAlone(base, w, u); }
    assert w'.entries == w.entries || w'.entries[u].status != w.entries[u].status;
  }

  /** With an updating entry a health check makes progress exactly on evidence that is decisive by both readings of the clock. */
  lemma HealthProgressesIff(base: nat, w: World, now: Instant, proofNow: Instant)
    requires Inv(base, w) && w.status.Running? && FirstUpdating(w.entries, 0) < |w.entries|
    ensures var u := FirstUpdating(w.entries, 0);
            && w.entries[u].job.Some? && w.entries[u].job.value < |w.jobs|
            && (Changed(w, ReconcileHealth(w, now, proofNow).w) <==> Decisive(w, u, now, proofNow))
  {
    var u := FirstUpdating(w.entries, 0);
    assert EntryOk(base, w.entries[u], w);
    assert JobsHaveAgents(w);
    var job := w.jobs[w.entries[u].job.value];
    if job.status.Succeeded? { ProofProgressesIff(base, w, u, now, proofNow); }
  }

  /** When the clock does not run backwards between its two readings, a proof lapses only by growing too old. */
  lemma LapseIsAge(w: World, now: Instant, proofNow: Instant)
    requires HealthErrs(w, now, proofNow) && now <= proofNow
    ensures var a := w.agents[w.entries[FirstUpdating(w.entries, 0)].server];
            a.heartbeatAt.Some? && now - a.heartbeatAt.value <= FRESHNESS < proofNow - a.heartbeatAt.value
  {
  }

  /** In every run a node that a transfer holds has no active or unresolved update. */
  lemma ReservationExcludesUpdates(w: World, events: seq<Event>, server: string)
    requires Initial(w) && server in Run(w, events).reserved
    ensures !Interlocked(Run(w, events).jobs, server)
  {
    InitialInv(w);
    RunKeeps(|w.jobs|, w, events);
  }

  /** In every run the trigger on reserved servers lets every heartbeat through. */
  lemma HeartbeatsNeverBarred(w: World, events: seq<Event>, server: string)
    requires Initial(w)
    ensures !BeatBarred(Run(w, events), server)
  {
    InitialInv(w);
    RunKeeps(|w.jobs|, w, events);
  }

  // ---------------------------------------------------------------- what a healthy verdict is worth

  /** Between snapshot and proof the bound job was the only one on its server, and a fresh heartbeat followed it. */
  lemma HealthyIsProven(w: World, events: seq<Event>, i: nat)
    requires Initial(w) && i < |Run(w, events).entries| && Run(w, events).entries[i].status.Healthy?
    ensures var r := Run(w, events);
            var e := r.entries[i];
            && e.job.Some? && e.proof.Some?
            && |w.jobs| <= e.job.value < e.proof.value.history <= |r.jobs|
            && (forall k :: |w.jobs| <= k < e.proof.value.history && r.jobs[k].server == e.server ==> k == e.job.value)
            && r.jobs[e.job.value].status.Succeeded? && r.jobs[e.job.value].target == r.target
            && r.jobs[e.job.value].completedAt.Some?
            && r.jobs[e.job.value].completedAt.value < e.proof.value.heartbeatAt <= e.proof.value.at
            && e.proof.value.at - e.proof.value.heartbeatAt <= FRESHNESS
            && Heartbeat(e.server, e.proof.value.generation, e.proof.value.heartbeatAt) in r.heartbeats
  {
    InitialInv(w);
    RunKeeps(|w.jobs|, w, events);
    assert EntryOk(|w.jobs|, Run(w, events).entries[i], Run(w, events));
  }

  /** The Agent is online on the target version, under the credential that authenticated the recorded heartbeat. */
  ghost predicate Attested(r: World, e: Entry, now: Instant) {
    && e.server in r.agents && AgentHealthy(r.agents[e.server], r.target)
    && e.proof.Some? && e.proof.value.history == |r.jobs| && e.proof.value.at == now
    && e.proof.value.generation == r.agents[e.server].generation && r.agents[e.server].heartbeatAt == Some(e.proof.value.heartbeatAt)
    && Heartbeat(e.server, e.proof.value.generation, e.proof.value.heartbeatAt) in r.heartbeats
  }

  lemma ProofAttested(base: nat, r: World, u: nat, j: nat, now: Instant, proofNow: Instant)
    requires Inv(base, r) && u < |r.entries| && r.entries[u].status.Updating?
    requires j < |r.jobs| && r.jobs[j].completedAt.Some? && r.entries[u].server in r.agents
    requires var r' := ProveHealthy(r, u, j, now, proofNow).w; u < |r'.entries| && r'.entries[u].status.Healthy?
    ensures Attested(r, ProveHealthy(r, u, j, now, proofNow).w.entries[u], proofNow)
  {
    assert HeartbeatsCurrent(r);
  }

  lemma VerdictAttested(base: nat, r: World, now: Instant, proofNow: Instant, i: nat)
    requires Inv(base, r) && i < |r.entries| && !r.entries[i].status.Healthy?
    requires var r' := ReconcileHealth(r, now, proofNow).w; i < |r'.entries| && r'.entries[i].status.Healthy?
    ensures Attested(r, ReconcileHealth(r, now, proofNow).w.entries[i], proofNow)
  {
    HealthHasShape(r, now, proofNow);
    assert FirstUpdating(r.entries, 0) == i;
    assert EntryOk(base, r.entries[i], r) && JobsHaveAgents(r);
    var j := r.entries[i].job.value;
    if r.jobs[j].status.Succeeded? { ProofAttested(base, r, i, j, now, proofNow); }
  }

  /** At the moment of every healthy verdict of every run, the Agent attests it. */
  lemma HealthyVerdict(w: World, events: seq<Event>, now: Instant, proofNow: Instant, i: nat)
    requires Initial(w) && i < |Run(w, events).entries| && !Run(w, events).entries[i].status.Healthy?
    requires var r' := ReconcileHealth(Run(w, events), now, proofNow).w; i < |r'.entries| && r'.entries[i].status.Healthy?
    ensures Attested(Run(w, events), ReconcileHealth(Run(w, events), now, proofNow).w.entries[i], proofNow)
  {
    InitialInv(w);
    RunKeeps(|w.jobs|, w, events);
    VerdictAttested(|w.jobs|, Run(w, events), now, proofNow, i);
  }

  /** A recorded heartbeat always belongs to the current credential, so that comparison never decides anything. */
  lemma HeartbeatGenerationCurrent(w: World, events: seq<Event>, server: string)
    requires Initial(w) && server in Run(w, events).agents
    ensures var a := Run(w, events).agents[server];
            && (a.heartbeatAt.Some? <==> a.heartbeatGeneration.Some?)
            && (a.heartbeatGeneration.Some? ==> a.heartbeatGeneration.value == a.generation)
  {
    InitialInv(w);
    RunKeeps(|w.jobs|, w, events);
  }

  /** Once the history watermark matches, neither the unique interlock nor the unresolved-job wait can be met. */
  lemma WatermarkStandsForHistory(w: World, events: seq<Event>, i: nat)
    requires Initial(w) && i < |Run(w, events).entries| && Run(w, events).entries[i].observed.Some?
    ensures var r := Run(w, events); var e := r.entries[i];
            var count := CountOn(r.jobs, e.server, 0, |r.jobs|);
            && (e.status.Open() && count == e.observed.value ==> !Interlocked(r.jobs, e.server))
            && (e.status.Updating? && count == e.observed.value + 1 ==>
                  && e.job.Some? && e.job.value < |r.jobs|
                  && (!r.jobs[e.job.value].status.Unresolved() ==> !Interlocked(r.jobs, e.server)))
  {
    InitialInv(w);
    RunKeeps(|w.jobs|, w, events);
    var r := Run(w, events);
    var e := r.entries[i];
    assert EntryOk(|w.jobs|, e, r);
    var count := CountOn(r.jobs, e.server, 0, |r.jobs|);
    if e.status.Open() && count == e.observed.value { WatermarkImpliesFree(|w.jobs|, r, i); }
    if e.status.Updating? && count == e.observed.value + 1 && !r.jobs[e.job.value].status.Unresolved() {
      WatermarkImpliesAlone(|w.jobs|, r, i);
    }
  }

  // ---------------------------------------------------------------- one step of the orchestrator

  /** Server and job are those of the entry. */
  predicate Tells(e: Entry, server: string, job: Option<nat>) { e.server == server && e.job == job }

  /** The reply tells the state of the rollout; a terminal one is final. */
  ghost predicate ReplyTrue(w: World, r: StepReply) {
    && (r.rollout.Terminal() ==> w.status == r.rollout && r.errorCode == w.errorCode)
    && (r.action.RolloutSucceeded? ==> w.status.Succeeded? && AllFinished(w.entries))
    && (r.action.RolloutFailed? ==> w.status.Failed?)
    && (r.action.RolloutUnknown? ==> w.status.OutcomeUnknown?)
    && (r.action.MutationAdmitted? || r.action.MutationInProgress? || r.action.WaitingHealth? ==>
          w.status.Running? && exists i :: 0 <= i < |w.entries| && w.entries[i].status.Updating? && Tells(w.entries[i], r.server, r.job))
    && (r.action.NodeHealthy? ==>
          w.status.Running? && exists i :: 0 <= i < |w.entries| && w.entries[i].status.Healthy? && Tells(w.entries[i], r.server, r.job))
    && (r.action.NoChange? ==> w.status.Pending? || w.status.Running?)
  }

  /** Every refusal but the reservation is normalized by the orchestrator and leaves a terminal rollout behind. */
  lemma RefusalsAreTerminal(base: nat, w: World)
    requires Inv(base, w) && Admit(w).reply.Refused? && !AdmissionHeld(w)
    ensures Normalized(Admit(w).reply.error) && Admit(w).w.status.Terminal()
  {
    HeldIff(base, w);
    if !w.status.Terminal() { AdmissionProgresses(base, w); }
  }

  /** What a caller of the admission learns from its reply. */
  ghost predicate AdmissionTold(w: World, a: Admission) {
    && (a.reply == Refused(NodeReserved) <==> AdmissionHeld(w))
    && (a.reply == Refused(NodeReserved) ==> a.w == w)
    && (a.reply.Refused? && a.reply.error != NodeReserved <==> a.w.status.Terminal())
    && (a.reply.Admitted? ==>
          && a.w.status.Running? && a.reply.job < |a.w.jobs|
          && exists i :: 0 <= i < |a.w.entries| && a.w.entries[i].status.Updating? && Tells(a.w.entries[i], a.w.jobs[a.reply.job].server, Some(a.reply.job)))
  }

  lemma AdmitOutcome(base: nat, w: World)
    requires Inv(base, w)
    ensures Inv(base, Admit(w).w) && AdmissionTold(w, Admit(w))
  {
    var a := Admit(w);
    AdmitKeeps(base, w);
    HeldIff(base, w);
    if a.reply.Refused? {
      if !AdmissionHeld(w) { RefusalsAreTerminal(base, w); }
    } else if a.reply.replayed {
      var u := FirstUpdating(w.entries, 0);
      assert EntryOk(base, w.entries[u], w) && Tells(w.entries[u], w.jobs[a.reply.job].server, Some(a.reply.job));
    } else {
      FreshAdmission(base, w);
      var n := FirstUnfinished(w.entries, 0);
      assert a.w.entries[n].status.Updating? && Tells(a.w.entries[n], a.w.jobs[a.reply.job].server, Some(a.reply.job));
    }
  }

  /** The reply of a step that went through the admission. */
  lemma AdmitReplyTrue(base: nat, w: World, after: seq<Event>)
    requires Inv(base, w)
    ensures var a := AdvanceByAdmission(w, after);
            && (a.reply.Err? <==> AdmissionHeld(w))
            && (a.reply.Err? ==> a.w == w)
            && (a.reply.Ok? ==> ReplyTrue(a.w, a.reply.value))
  {
    var a := Admit(w);
    AdmitOutcome(base, w);
    if a.reply.Refused? && !AdmissionHeld(w) {
      RefusalsAreTerminal(base, w);
      TerminalIsFinal(a.w, after);
      RunKeeps(base, a.w, after);
    }
  }

  /** The reply of a check of entry u says what the check leaves behind. */
  ghost predicate ReplyMatches(w: World, u: nat, w': World, r: HealthReply) {
    && r.rollout == w'.status && (r.rollout.Terminal() ==> r.errorCode == w'.errorCode)
    && (r.entry == Some(Updating) ==> w' == w && w.status.Running? && u < |w.entries| && Tells(w.entries[u], r.server, r.job))
    && (r.entry == Some(Healthy) ==> u < |w'.entries| && w'.entries[u].status.Healthy? && Tells(w'.entries[u], r.server, r.job))
    && (r.entry == Some(EntryStatus.Failed) ==> w'.status.Failed?)
    && (r.entry == Some(EntryStatus.OutcomeUnknown) ==> w'.status.OutcomeUnknown?)
    && (r.entry.Some? && r.entry.value.Stops() ==> u < |w'.entries| && Tells(w'.entries[u], r.server, r.job) && r.blocker == w'.entries[u].blocker)
  }

  lemma ProveHealthyMatches(w: World, u: nat, j: nat, now: Instant, proofNow: Instant)
    requires w.status.Running? && u < |w.entries| && j < |w.jobs| && w.jobs[j].completedAt.Some? && w.entries[u].server in w.agents
    ensures var h := ProveHealthy(w, u, j, now, proofNow); h.reply.Ok? ==> ReplyMatches(w, u, h.w, h.reply.value)
  {
  }

  lemma CheckEntryMatches(w: World, u: nat, now: Instant, proofNow: Instant)
    requires w.status.Running? && u < |w.entries| && CheckEntry(w, u, now, proofNow).reply.Ok?
    ensures var h := CheckEntry(w, u, now, proofNow); ReplyMatches(w, u, h.w, h.reply.value)
  {
    var e := w.entries[u];
    var job := w.jobs[e.job.value];
    if job.status.Succeeded? { ProveHealthyMatches(w, u, e.job.value, now, proofNow); }
  }

  /** What a health check replies is what it leaves behind. */
  lemma HealthReplyMatches(w: World, now: Instant, proofNow: Instant)
    requires ReconcileHealth(w, now, proofNow).reply.Ok?
    ensures var h := ReconcileHealth(w, now, proofNow); ReplyMatches(w, FirstUpdating(w.entries, 0), h.w, h.reply.value)
  {
    var u := FirstUpdating(w.entries, 0);
    if w.status.Running? && u < |w.entries| { CheckEntryMatches(w, u, now, proofNow); }
  }

  /** The reply of a step that went through the health check. */
  lemma HealthReplyTrue(base: nat, w: World, now: Instant, proofNow: Instant)
    requires Inv(base, w)
    ensures var a := AdvanceByHealth(w, now, proofNow);
            && (a.reply.Err? <==> HealthErrs(w, now, proofNow))
            && (a.reply.Err? ==> a.w == w)
            && (a.reply.Ok? ==> ReplyTrue(a.w, a.reply.value))
  {
    var h := ReconcileHealth(w, now, proofNow);
    HealthKeeps(base, w, now, proofNow);
    if h.reply.Ok? {
      HealthReplyMatches(w, now, proofNow);
      ActionTrue(h.w, h.reply.value);
    }
  }

  /** The action that is derived from a health reply is true of the state the reply is true of. */
  lemma ActionTrue(w: World, h: HealthReply)
    requires VerdictOk(w) && h.rollout == w.status && (h.rollout.Terminal() ==> h.errorCode == w.errorCode)
    requires h.entry == Some(EntryStatus.Failed) ==> w.status.Failed?
    requires h.entry == Some(EntryStatus.OutcomeUnknown) ==> w.status.OutcomeUnknown?
    requires h.entry == Some(Updating) ==>
               w.status.Running? && exists i :: 0 <= i < |w.entries| && w.entries[i].status.Updating? && Tells(w.entries[i], h.server, h.job)
    requires h.entry == Some(Healthy) ==> exists i :: 0 <= i < |w.entries| && w.entries[i].status.Healthy? && Tells(w.entries[i], h.server, h.job)
    ensures ReplyTrue(w, StepReply(h.rollout, h.server, h.job, ActionFromHealth(h), h.waiting, h.errorCode, h.blocker))
  {
  }

  /** Which transaction a step runs is decided by its first, unlocked inspection. */
  predicate StepErrs(inspected: World, current: World, now: Instant, proofNow: Instant) {
    && !inspected.status.Terminal()
    && if Inspect(inspected).status.Running? && Inspect(inspected).job.Some? then HealthErrs(current, now, proofNow) else AdmissionHeld(current)
  }

  /**
    Whatever other transactions run in between, an orchestration step errs exactly if a transfer holds the
    server it would admit or the health proof lapses before it is written. Then nothing has changed;
    otherwise its reply is true of the state it leaves.
   */
  lemma AdvanceErrsIff(base: nat, w: World, before: seq<Event>, now: Instant, proofNow: Instant, after: seq<Event>)
    requires Inv(base, w)
    ensures var a := Advance(w, before, now, proofNow, after);
            && (a.reply.Err? <==> StepErrs(w, Run(w, before), now, proofNow))
            && (a.reply.Err? ==> a.w == Run(w, before))
            && (a.reply.Ok? ==> ReplyTrue(a.w, a.reply.value))
  {
    if !w.status.Terminal() {
      RunKeeps(base, w, before);
      var state := Inspect(w);
      if state.status.Running? && state.job.Some? { HealthReplyTrue(base, Run(w, before), now, proofNow); }
      else { AdmitReplyTrue(base, Run(w, before), after); }
    }
  }
}
