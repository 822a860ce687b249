/**
  Two runs in which an orchestration step of a healthy rollout returns an error: a transfer reserves the next
  node, and a heartbeat grows too old between the two readings of the clock.
 */
module RolloutWitnesses {
  import opened Common
  import opened Rollout
  import opened RolloutProofs
  import opened RolloutRuns
  import J = UpdateJobs

  const READY := Agent(Online, "v2.0.0", Some(1), true, 1, None, None)

  /** A rollout of one node that is ready for the update, in a fleet of two. */
  const FLEET := World(
    "v2.0.0", RolloutStatus.Pending, "",
    [Entry("node", Queued, Some(0), None, "", None)],
    [],
    map["node" := READY, "other" := READY],
    map["node" := Server(true, Active), "other" := Server(true, Active)],
    "v2.0.0", {}, {})

  lemma FleetInitial()
    ensures Initial(FLEET)
  {
  }

  lemma {:induction false} RunOne(w: World, events: seq<Event>, e: Event)
    ensures Run(w, events + [e]) == Step(Run(w, events), e)
    decreases |events|
  {
    if events == [] {
      assert [] + [e] == [e] && [e][1..] == [];
    } else {
      assert (events + [e])[1..] == events[1..] + [e];
      RunOne(Step(w, events[0]), events[1..], e);
    }
  }

  /** One more event. */
  lemma Then(events: seq<Event>, w: World, e: Event) returns (events': seq<Event>, w': World)
    requires w == Run(FLEET, events)
    ensures events' == events + [e] && w' == Step(w, e) == Run(FLEET, events')
  {
    RunOne(FLEET, events, e);
    events', w' := events + [e], Step(w, e);
  }

  const SILENT := Report("", None, None)

  /** An online Agent after an authenticated heartbeat. */
  function After(a: Agent, at: Instant): Agent { a.(heartbeatAt := Some(at), heartbeatGeneration := Some(a.generation)) }

  lemma HeardAt(w: World, server: string, at: Instant)
    requires server in w.agents && w.agents[server].status.Online? && w.servers == FLEET.servers
    ensures Step(w, Beats(server, true, SILENT, at)) ==
            w.(agents := w.agents[server := After(w.agents[server], at)], heartbeats := w.heartbeats + {Heartbeat(server, w.agents[server].generation, at)})
  {
    var w' := Step(w, Beats(server, true, SILENT, at));
    assert w'.servers == w.servers;
  }

  /** A fleet whose Agents have reported. */
  ghost predicate Reporting(w: World, at: Instant) {
    && w == FLEET.(agents := w.agents, heartbeats := w.heartbeats)
    && w.agents == map["node" := After(READY, at), "other" := After(READY, at)]
  }

  lemma Reports(at: Instant) returns (events: seq<Event>, w: World)
    ensures w == Run(FLEET, events) && Reporting(w, at)
  {
    HeardAt(FLEET, "node", at);
    events, w := Then([], FLEET, Beats("node", true, SILENT, at));
    HeardAt(w, "other", at);
    events, w := Then(events, w, Beats("other", true, SILENT, at));
  }

  lemma CanTransfer(w: World, at: Instant)
    requires Reporting(w, at)
    ensures Step(w, TransferReserves("node", "other", true, at)) == w.(reserved := {"node", "other"})
  {
    assert NodeFree(w, "node") && NodeFree(w, "other") && "node" != "other";
    assert NodeReady(w, "node", at) && NodeReady(w, "other", at);
  }

  /** While a transfer holds the only open node, every orchestration step errs and the rollout stays where it is. */
  lemma ReservationStallsRollout(now: Instant, proofNow: Instant, calls: nat) returns (events: seq<Event>)
    ensures var w := Run(FLEET, events);
            && Initial(FLEET) && !w.status.Terminal()
            && Run(w, seq(calls, i => AdmitNext)) == w
            && Advance(w, [], now, proofNow, []).reply.Err?
  {
    var w: World;
    events, w := Reports(1);
    CanTransfer(w, 1);
    events, w := Then(events, w, TransferReserves("node", "other", true, 1));
    FleetInitial();
    InitialInv(FLEET);
    RunKeeps(0, FLEET, events);
    HeldAtStart(w);
    HeldRepeats(0, w, calls);
    AdvanceErrsIff(0, w, [], now, proofNow, []);
  }

  lemma HeldAtStart(w: World)
    requires w == FLEET.(agents := w.agents, reserved := w.reserved, heartbeats := w.heartbeats)
    requires "node" in w.reserved && Installable(w, "node")
    ensures AdmissionHeld(w) && FirstMarked(w.entries, 0) == 1 && Run(w, []) == w
  {
    assert FirstUnfinished(w.entries, 0) == 0 && FirstUpdating(w.entries, 0) == 1;
  }

  const UPDATING := FLEET.(status := Running, entries := [Entry("node", Updating, Some(0), Some(0), "", None)],
                           jobs := [UpdateJob("node", "v2.0.0", J.Pending, None)])

  lemma NodeAdmitted()
    ensures Step(FLEET, AdmitNext) == UPDATING
  {
    assert FirstUnfinished(FLEET.entries, 0) == 0;
  }

  lemma JobSucceeds()
    ensures Step(Step(UPDATING, JobMoves(0, J.InProgress, 1)), JobMoves(0, J.Succeeded, 2)) ==
            UPDATING.(jobs := [UpdateJob("node", "v2.0.0", J.Succeeded, Some(2))])
  {
    var w := Step(UPDATING, JobMoves(0, J.InProgress, 1));
    assert w == UPDATING.(jobs := [UpdateJob("node", "v2.0.0", J.InProgress, None)]);
  }

  /** The node is admitted, its job succeeds, and its Agent reports: everything a healthy verdict needs. */
  lemma Proven() returns (events: seq<Event>, w: World)
    ensures w == Run(FLEET, events)
    ensures w == UPDATING.(jobs := [UpdateJob("node", "v2.0.0", J.Succeeded, Some(2))], agents := FLEET.agents["node" := After(READY, 3)],
                           heartbeats := {Heartbeat("node", 1, 3)})
  {
    NodeAdmitted();
    events, w := Then([], FLEET, AdmitNext);
    JobSucceeds();
    events, w := Then(events, w, JobMoves(0, J.InProgress, 1));
    events, w := Then(events, w, JobMoves(0, J.Succeeded, 2));
    HeardAt(w, "node", 3);
    events, w := Then(events, w, Beats("node", true, SILENT, 3));
  }

  /** The heartbeat is two minutes old when the Manager looks and older when the trigger does: the step errs. */
  lemma ProofCanLapse() returns (events: seq<Event>, now: Instant, proofNow: Instant)
    ensures now <= proofNow && Initial(FLEET)
    ensures Advance(Run(FLEET, events), [], now, proofNow, []).reply.Err?
    ensures Advance(Run(FLEET, events), [], now, now, []).reply.Ok?
  {
    FleetInitial();
    var w: World;
    events, w := Proven();
    InitialInv(FLEET);
    RunKeeps(0, FLEET, events);
    now, proofNow := 3 + FRESHNESS, 4 + FRESHNESS;
    assert FirstUpdating(w.entries, 0) == 0 && FirstMarked(w.entries, 0) == 0;
    assert CountOn(w.jobs, "node", 0, 0) == 0 && CountOn(w.jobs, "node", 0, 1) == 1;
    assert ProofLapses(w, 0, now, proofNow);
    AdvanceErrsIff(0, w, [], now, proofNow, []);
    AdvanceErrsIff(0, w, [], now, now, []);
  }
}
