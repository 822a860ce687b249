/**
  What a caller of the orchestrator can conclude from the answers: an answer reports a change exactly if the
  step made one, and only boundedly many calls do anything.
 */
module RolloutCalls {
  import opened Common
  import opened Rollout
  import opened RolloutProofs
  import opened RolloutRuns

  /** The answer of a step that found the rollout in the given status announces a change. */
  predicate Announces(r: StepReply, found: RolloutStatus) {
    r.action.MutationAdmitted? || r.action.NodeHealthy? || (r.rollout.Terminal() && !found.Terminal())
  }

  lemma AdmissionAnnounced(base: nat, w: World, after: seq<Event>)
    requires Inv(base, w) && AdvanceByAdmission(w, after).reply.Ok?
    ensures var a := AdvanceByAdmission(w, after); Changed(w, a.w) <==> Announces(a.reply.value, w.status)
  {
    var a := Admit(w);
    AdmitReplyTrue(base, w, after);
    if a.reply.Refused? {
      RefusalsAreTerminal(base, w);
      TerminalIsFinal(a.w, after);
    } else if !a.reply.replayed {
      FreshAdmission(base, w);
    }
  }

  /** A check of entry u waits and changes nothing, or closes the entry as it replies; a stopped entry ends the rollout. */
  ghost predicate Answered(w: World, u: nat, w': World, r: HealthReply) {
    && r.entry.Some? && r.rollout == w'.status
    && if r.entry.value.Updating? then w' == w
       else && (r.entry.value.Healthy? || (r.entry.value.Stops() && r.rollout.Terminal()))
            && u < |w'.entries| && w'.entries[u].status == r.entry.value
  }

  lemma ProveHealthyAnswers(w: World, u: nat, j: nat, now: Instant, proofNow: Instant)
    requires w.status.Running? && u < |w.entries| && j < |w.jobs| && w.jobs[j].completedAt.Some? && w.entries[u].server in w.agents
    ensures var h := ProveHealthy(w, u, j, now, proofNow); h.reply.Ok? ==> Answered(w, u, h.w, h.reply.value)
  {
  }

  lemma CheckAnswers(w: World, u: nat, now: Instant, proofNow: Instant)
    requires w.status.Running? && u < |w.entries| && CheckEntry(w, u, now, proofNow).reply.Ok?
    ensures var h := CheckEntry(w, u, now, proofNow); Answered(w, u, h.w, h.reply.value)
  {
    var j := w.entries[u].job.value;
    if w.jobs[j].status.Succeeded? { ProveHealthyAnswers(w, u, j, now, proofNow); }
  }

  lemma HealthAnnounced(w: World, now: Instant, proofNow: Instant)
    requires AdvanceByHealth(w, now, proofNow).reply.Ok?
    ensures var a := AdvanceByHealth(w, now, proofNow); Changed(w, a.w) <==> Announces(a.reply.value, w.status)
  {
    var u := FirstUpdating(w.entries, 0);
    if w.status.Running? && u < |w.entries| { CheckAnswers(w, u, now, proofNow); }
  }

  /**
    Whatever runs beside it, a step that answers has changed the rollout exactly if it says that it admitted
    a node, that a node is healthy, or that a rollout it found running has ended.
   */
  lemma ChangeIsAnnounced(base: nat, w: World, before: seq<Event>, now: Instant, proofNow: Instant, after: seq<Event>)
    requires Inv(base, w) && Advance(w, before, now, proofNow, after).reply.Ok?
    ensures var a, found := Advance(w, before, now, proofNow, after), Run(w, before);
            Changed(found, a.w) <==> Announces(a.reply.value, found.status)
  {
    RunKeeps(base, w, before);
    var state := Inspect(w);
    if w.status.Terminal() { TerminalIsFinal(w, before); }
    else if state.status.Running? && state.job.Some? { HealthAnnounced(Run(w, before), now, proofNow); }
    else { AdmissionAnnounced(base, Run(w, before), after); }
  }

  // ---------------------------------------------------------------- sequences of calls

  /** A call of the orchestrator: what happens before it, after its inspection, and after its transaction. */
  datatype Call = Call(idle: seq<Event>, before: seq<Event>, now: Instant, proofNow: Instant, after: seq<Event>)

  function Answer(w: World, c: Call): Advanced { Advance(Run(w, c.idle), c.before, c.now, c.proofNow, c.after) }

  predicate Acts(w: World, c: Call) {
    var a := Answer(w, c);
    a.reply.Ok? && Announces(a.reply.value, Run(Run(w, c.idle), c.before).status)
  }

  /** How many calls announce a change. */
  function Announcements(w: World, calls: seq<Call>): nat
    decreases |calls|
  {
    if calls == [] then 0
    else (if Acts(w, calls[0]) then 1 else 0) + Announcements(Answer(w, calls[0]).w, calls[1..])
  }

  lemma AdmissionCloser(base: nat, w: World, after: seq<Event>)
    requires Inv(base, w)
    ensures var a := AdvanceByAdmission(w, after).w;
            Inv(base, a) && Measure(a) + (if Changed(w, a) then 1 else 0) <= Measure(w)
  {
    var next := Admit(w).w;
    AdmitKeeps(base, w);
    RunKeeps(base, next, after);
    ChangesBound(base, next, after);
    if Changed(w, next) { AdmitMeasure(base, w); }
    if next.status.Terminal() { TerminalIsFinal(next, after); }
    else if Admit(w).reply.Refused? { AdmitOutcome(base, w); }
  }

  lemma HealthCloser(base: nat, w: World, now: Instant, proofNow: Instant)
    requires Inv(base, w)
    ensures var a := AdvanceByHealth(w, now, proofNow).w;
            Inv(base, a) && Measure(a) + (if Changed(w, a) then 1 else 0) <= Measure(w)
  {
    HealthKeeps(base, w, now, proofNow);
    if Changed(w, ReconcileHealth(w, now, proofNow).w) { HealthMeasure(w, now, proofNow); }
  }

  /** A call keeps the invariant and brings the rollout closer to its end if it announces anything. */
  lemma CallCloser(base: nat, w: World, c: Call)
    requires Inv(base, w)
    ensures Inv(base, Answer(w, c).w) && Measure(Answer(w, c).w) + (if Acts(w, c) then 1 else 0) <= Measure(w)
  {
    var inspected := Run(w, c.idle);
    var found := Run(inspected, c.before);
    RunKeeps(base, w, c.idle);
    ChangesBound(base, w, c.idle);
    RunKeeps(base, inspected, c.before);
    ChangesBound(base, inspected, c.before);
    if Answer(w, c).reply.Ok? { ChangeIsAnnounced(base, inspected, c.before, c.now, c.proofNow, c.after); }
    var state := Inspect(inspected);
    if inspected.status.Terminal() { TerminalIsFinal(inspected, c.before); }
    else if state.status.Running? && state.job.Some? { HealthCloser(base, found, c.now, c.proofNow); }
    else { AdmissionCloser(base, found, c.after); }
  }

  lemma {:induction false} AnnouncementsBound(base: nat, w: World, calls: seq<Call>)
    requires Inv(base, w)
    ensures Announcements(w, calls) <= Measure(w)
    decreases |calls|
  {
    if calls != [] {
      CallCloser(base, w, calls[0]);
      AnnouncementsBound(base, Answer(w, calls[0]).w, calls[1..]);
    }
  }

  /** However often the orchestrator is called, and whatever runs in between, at most 2n + 1 calls do anything. */
  lemma CallsBounded(w: World, calls: seq<Call>)
    requires Initial(w)
    ensures Announcements(w, calls) <= 2 * |w.entries| + 1
  {
    InitialInv(w);
    AnnouncementsBound(|w.jobs|, w, calls);
    LoadBound(w.entries, |w.entries|);
  }
}
