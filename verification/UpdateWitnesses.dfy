/**
  Two runs that show where the guarantees of the update protocol end: a terminal receipt can vanish
  inside the creation window, and a replayed dispatch can make a verdict false.
 */
module UpdateWitnesses {
  import opened Common
  import opened Formats
  import opened Receipts
  import opened UpdateProtocol
  import opened UpdateSafety
  import opened UpdateTruth
  import J = UpdateJobs

  /** The environment answers every question in the affirmative. */
  function Smooth(now: Instant): Choice {
    Choice(now, true, false, false, false, Durable, Created, StageOk, ExitZero)
  }

  lemma RunOne(s: System, events: seq<Event>, e: Event)
    ensures Run(s, events + [e]) == Step(Run(s, events), e)
  {
    RunAppend(s, events, [e]);
    assert [e][1..] == [];
    assert Run(Step(Run(s, events), e), []) == Step(Run(s, events), e);
  }

  /** The hand-out, and a dispatcher that has just begun. */
  lemma Begun(s: System, now: Instant) returns (events: seq<Event>, t: System)
    requires Initial(s)
    ensures t == Run(s, events)
    ensures t.procs == map[0 := Dispatcher(DStart, s.sh.job.targetVersion)] && t.next == 1 && t.sh.h == s.sh.h
    ensures t.sh.job == J.ClaimedForDispatch(s.sh.job, now).value && t.sh.reconciles == {} && t.sh.replay == s.sh.replay
  {
    events, t := Then(s, [], s, HandOutDispatch(now));
    events, t := Then(s, events, t, BeginDispatch(s.sh.job.targetVersion));
  }

  /** A fresh job, a canonical task and a valid version: the hand-out and a dispatcher that has just linked its receipt. */
  lemma Linked(s: System, now: Instant) returns (events: seq<Event>, t: System)
    requires Initial(s) && CanonicalTaskId(s.sh.job.id) && ValidVersion(s.sh.job.targetVersion)
    ensures t == Run(s, events)
    ensures t.procs == map[0 := Dispatcher(DLinked, s.sh.job.targetVersion)] && t.next == 1
    ensures t.sh.h == s.sh.h.(receipt := Some(Fresh(s.sh.job.id, s.sh.job.targetVersion, now)), creator := Some(0))
    ensures t.sh.job == J.ClaimedForDispatch(s.sh.job, now).value && t.sh.reconciles == {} && t.sh.replay == s.sh.replay
  {
    var v := s.sh.job.targetVersion;
    var act := Act(0, Smooth(now));
    events, t := Begun(s, now);
    events, t := Then(s, events, t, act);
    assert t.procs == map[0 := Dispatcher(DInspect, v)] && t.sh.h == s.sh.h;
    events, t := Then(s, events, t, act);
    assert t.procs == map[0 := Dispatcher(DChecked, v)] && t.sh.h == s.sh.h;
    events, t := Then(s, events, t, act);
  }

  /** One more event at the end of a run. */
  lemma Then(s: System, events: seq<Event>, t: System, e: Event) returns (events': seq<Event>, t': System)
    requires t == Run(s, events)
    ensures events' == events + [e] && t' == Step(t, e) == Run(s, events')
  {
    RunOne(s, events, e);
    events', t' := events + [e], Step(t, e);
  }

  /** A reconciliation has begun while the creator is still inside its window. */
  lemma ReconcilerBegins(s: System, now: Instant) returns (events: seq<Event>, t: System)
    requires Initial(s) && CanonicalTaskId(s.sh.job.id) && ValidVersion(s.sh.job.targetVersion)
    ensures t == Run(s, events)
    ensures t.procs == map[0 := Dispatcher(DLinked, s.sh.job.targetVersion),
                           1 := Reconciler(RStart, J.InProgress, s.sh.job.targetVersion)]
    ensures t.sh.h == s.sh.h.(receipt := Some(Fresh(s.sh.job.id, s.sh.job.targetVersion, now)), creator := Some(0))
  {
    events, t := Linked(s, now);
    events, t := Then(s, events, t, HandOutReconcile(now + SECOND));
    events, t := Then(s, events, t, BeginReconcile(J.InProgress, s.sh.job.targetVersion));
  }

  /** It has found the worker missing. */
  lemma ReconcilerAhead(s: System, now: Instant) returns (events: seq<Event>, t: System)
    requires Initial(s) && CanonicalTaskId(s.sh.job.id) && ValidVersion(s.sh.job.targetVersion)
    ensures t == Run(s, events)
    ensures t.procs == map[0 := Dispatcher(DLinked, s.sh.job.targetVersion),
                           1 := Reconciler(RMark(false), J.InProgress, s.sh.job.targetVersion)]
    ensures t.sh.h == s.sh.h.(receipt := Some(Fresh(s.sh.job.id, s.sh.job.targetVersion, now)), creator := Some(0))
  {
    var v := s.sh.job.targetVersion;
    events, t := ReconcilerBegins(s, now);
    var h := t.sh.h;
    events, t := Then(s, events, t, Act(1, Smooth(now)));
    assert t.procs == map[0 := Dispatcher(DLinked, v), 1 := Reconciler(RProbe(false), J.InProgress, v)] && t.sh.h == h;
    events, t := Then(s, events, t, Act(1, Smooth(now)));
  }

  /** On a fresh receipt the reconciler's write succeeds. */
  lemma FreshIsClosed(h: Host, v: string, now: Instant)
    requires h.receipt == Some(Fresh(h.taskId, v, now)) && ValidVersion(v)
    ensures var w := StoreOp(h, Phase.Failed, false, WORKER_MISSING, Smooth(now));
            w.reply.Ok? && w.stored.Some? && w.stored.value.phase.Failed?
  {
    assert ReceiptCode(WORKER_MISSING);
  }

  /** The reconciler closes the linked receipt, and its creator then takes it away again: a terminal receipt vanishes. */
  lemma TerminalReceiptCanVanish(s: System, now: Instant) returns (events: seq<Event>, e: Event)
    requires Initial(s) && CanonicalTaskId(s.sh.job.id) && ValidVersion(s.sh.job.targetVersion)
    ensures var t := Run(s, events);
            t.sh.h.receipt.Some? && t.sh.h.receipt.value.phase.Terminal() && Step(t, e).sh.h.receipt.None?
  {
    var v := s.sh.job.targetVersion;
    var t: System;
    events, t := ReconcilerAhead(s, now);
    FreshIsClosed(t.sh.h, v, now);
    events, t := Then(s, events, t, Act(1, Smooth(now)));
    assert t.procs[0] == Dispatcher(DLinked, v) && InPhase(t.sh.h, Phase.Failed);
    e := Act(0, Smooth(now).(create := UndoneWithError));
  }

  /** A replayed dispatch that cannot inspect the node sends a failure while the first dispatch is still under way. */
  lemma SecondFails(s: System, now: Instant) returns (events: seq<Event>, t: System)
    requires Initial(s) && s.sh.replay && CanonicalTaskId(s.sh.job.id) && ValidVersion(s.sh.job.targetVersion)
    ensures t == Run(s, events) && t.sh.replay && t.next == 2
    ensures t.sh.job == J.ClaimedForDispatch(s.sh.job, now).value
    ensures t.procs == map[0 := Dispatcher(DLinked, s.sh.job.targetVersion), 1 := Dispatcher(DReport(false), s.sh.job.targetVersion)]
    ensures t.sh.h == s.sh.h.(receipt := Some(Fresh(s.sh.job.id, s.sh.job.targetVersion, now)), creator := Some(0))
  {
    var v := s.sh.job.targetVersion;
    events, t := Linked(s, now);
    events, t := Then(s, events, t, BeginDispatch(v));
    assert t.procs == map[0 := Dispatcher(DLinked, v), 1 := Dispatcher(DStart, v)];
    events, t := Then(s, events, t, Act(1, Smooth(now).(fault := true)));
  }

  lemma FalseReport(s: System, now: Instant) returns (events: seq<Event>, t: System)
    requires Initial(s) && s.sh.replay && CanonicalTaskId(s.sh.job.id) && ValidVersion(s.sh.job.targetVersion)
    ensures t == Run(s, events) && t.sh.replay && t.next == 2
    ensures t.sh.job == J.ClaimedForDispatch(s.sh.job, now).value
    ensures DispatchReport(s.sh.job.id, s.sh.job.targetVersion, false) in t.sh.sent
    ensures t.procs == map[0 := Dispatcher(DLinked, s.sh.job.targetVersion)]
    ensures t.sh.h == s.sh.h.(receipt := Some(Fresh(s.sh.job.id, s.sh.job.targetVersion, now)), creator := Some(0))
  {
    events, t := SecondFails(s, now);
    events, t := Then(s, events, t, Act(1, Smooth(now)));
  }

  /** The Manager records that failure. */
  lemma FalseFailure(s: System, now: Instant) returns (events: seq<Event>, t: System)
    requires Initial(s) && s.sh.replay && CanonicalTaskId(s.sh.job.id) && ValidVersion(s.sh.job.targetVersion)
    ensures t == Run(s, events) && t.sh.replay && t.next == 2
    ensures t.sh.job.status.Failed? && t.sh.job.dispatchedAt.None?
    ensures t.procs == map[0 := Dispatcher(DLinked, s.sh.job.targetVersion)]
    ensures t.sh.h == s.sh.h.(receipt := Some(Fresh(s.sh.job.id, s.sh.job.targetVersion, now)), creator := Some(0))
  {
    events, t := FalseReport(s, now);
    assert EvidenceCode(PRE_DISPATCH_FAILED);
    events, t := Then(s, events, t, Deliver(DispatchReport(s.sh.job.id, s.sh.job.targetVersion, false), J.InProgress, now));
  }

  /** A dispatch goes on after its creation window, whatever the job row says. */
  lemma DispatchAccepts(s: System, events0: seq<Event>, t0: System, now: Instant) returns (events: seq<Event>, t: System)
    requires t0 == Run(s, events0) && t0.procs == map[0 := Dispatcher(DLinked, s.sh.job.targetVersion)]
    requires t0.sh.h.receipt == Some(Fresh(t0.sh.h.taskId, s.sh.job.targetVersion, now))
    ensures t == Run(s, events) && t.procs == map[0 := Dispatcher(DAccepted, s.sh.job.targetVersion)] && t.next == t0.next
    ensures t.sh.job == t0.sh.job && t.sh.replay == t0.sh.replay
    ensures t.sh.h == t0.sh.h.(creator := None, confirmed := true)
  {
    var v := s.sh.job.targetVersion;
    var act := Act(0, Smooth(now));
    events, t := Then(s, events0, t0, act);
    var h := t.sh.h;
    assert t.procs == map[0 := Dispatcher(DCreated, v)];
    events, t := Then(s, events, t, act);
    assert t.procs == map[0 := Dispatcher(DReady, v)] && t.sh.h == h;
    events, t := Then(s, events, t, act);
  }

  /** It stages its candidate. */
  lemma DispatchStages(s: System, events0: seq<Event>, t0: System, now: Instant) returns (events: seq<Event>, t: System)
    requires t0 == Run(s, events0) && t0.procs == map[0 := Dispatcher(DAccepted, s.sh.job.targetVersion)]
    requires t0.sh.h.staged.None?
    ensures t == Run(s, events) && t.procs == map[0 := Dispatcher(DStaged, s.sh.job.targetVersion)] && t.next == t0.next
    ensures t.sh.job == t0.sh.job && t.sh.replay == t0.sh.replay
    ensures t.sh.h == t0.sh.h.(partial := false, staged := Some(s.sh.job.targetVersion))
  {
    var act := Act(0, Smooth(now));
    events, t := Then(s, events0, t0, act);
    assert t.procs == map[0 := Dispatcher(DStaging, s.sh.job.targetVersion)] && t.sh.h == t0.sh.h.(partial := true);
    events, t := Then(s, events, t, act);
  }

  /** A worker, started by anybody, marks the mutation although the failure has been recorded. */
  lemma WorkerMarks(s: System, now: Instant) returns (events: seq<Event>, t: System)
    requires Initial(s) && s.sh.replay && CanonicalTaskId(s.sh.job.id) && ValidVersion(s.sh.job.targetVersion)
    ensures t == Run(s, events) && 2 in t.procs && t.procs[2] == Worker(WMark)
    ensures t.sh.job.status.Failed? && t.sh.job.dispatchedAt.None?
    ensures t.sh.h.receipt == Some(Fresh(t.sh.h.taskId, s.sh.job.targetVersion, now)) && t.sh.h.invocations == 0
  {
    var v := s.sh.job.targetVersion;
    events, t := FalseFailure(s, now);
    events, t := DispatchAccepts(s, events, t, now);
    events, t := DispatchStages(s, events, t, now);
    var h := t.sh.h;
    var act := Act(2, Smooth(now));
    events, t := Then(s, events, t, BeginWorker);
    assert t.procs[2] == Worker(WStart) && t.sh.h == h;
    events, t := Then(s, events, t, act);
    assert t.procs[2] == Worker(WStaged(v)) && t.sh.h == h;
    events, t := Then(s, events, t, act);
    assert t.procs[2] == Worker(WAccepted) && t.sh.h == h;
    events, t := Then(s, events, t, act);
  }

  lemma FreshIsMarked(h: Host, v: string, now: Instant)
    requires h.receipt == Some(Fresh(h.taskId, v, now)) && ValidVersion(v)
    ensures StoreOp(h, Phase.MutationStarted, true, "", Smooth(now)).reply.Ok?
  {
  }

  /** With replays the Manager can record a failure before dispatch and the updater can run all the same. */
  lemma ReplayBreaksVerdict(s: System, now: Instant) returns (events: seq<Event>)
    requires Initial(s) && s.sh.replay && CanonicalTaskId(s.sh.job.id) && ValidVersion(s.sh.job.targetVersion)
    ensures var sh := Run(s, events).sh;
            sh.job.status.Failed? && sh.job.dispatchedAt.None? && sh.h.invocations == 1
  {
    var t: System;
    events, t := WorkerMarks(s, now);
    FreshIsMarked(t.sh.h, s.sh.job.targetVersion, now);
    events, t := Then(s, events, t, Act(2, Smooth(now)));
    assert t.procs[2] == Worker(WMarked) && t.sh.h.invocations == 0;
    events, t := Then(s, events, t, Act(2, Smooth(now)));
  }
}
