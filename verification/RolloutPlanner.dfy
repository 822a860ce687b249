/**
  Planning and persisting a rollout: eligibility blockers in planner and database, the ordered snapshot,
  and the insertion order that the database enforces.
 */
module RolloutPlanner {
  import opened Common
  import opened Formats
  import opened ServerIds
  import opened Rollout

  datatype Blocker =
    | ManagerVersionMismatch | NotVpnRole | ServerDisabled | AgentMissing | AgentDisabled
    | UpdateCapability | ActiveUpdate | ProtocolIncompatible

  /** Manager-owned facts about one requested server. */
  datatype Candidate = Candidate(
    serverId: string,
    vpn: bool,
    serverDisabled: bool,
    agentRegistered: bool,
    agentDisabled: bool,
    updateReady: bool,
    unresolvedUpdate: bool,
    protocolCompatible: bool)

  datatype PlanEntry = PlanEntry(server: string, eligible: bool, blockers: seq<Blocker>)

  datatype Plan = Plan(target: string, entries: seq<PlanEntry>)

  function When(c: bool, b: Blocker): seq<Blocker> { if c then [b] else [] }

  /** The blockers that concern the rollout, the server and the registration of its Agent. */
  function InventoryBlockers(mismatch: bool, c: Candidate): seq<Blocker> {
    When(mismatch, ManagerVersionMismatch) + When(!c.vpn, NotVpnRole) + When(c.serverDisabled, ServerDisabled)
    + (if !c.agentRegistered then [AgentMissing] else When(c.agentDisabled, AgentDisabled))
  }

  /** The planner's blockers, in its order. */
  function PlanBlockers(mismatch: bool, c: Candidate): seq<Blocker> {
    InventoryBlockers(mismatch, c)
    + (When(!c.updateReady, UpdateCapability) + When(c.unresolvedUpdate, ActiveUpdate) + When(!c.protocolCompatible, ProtocolIncompatible))
  }

  /** The blockers that the persisting transaction derives from its own rows, in its order. */
  function RecheckBlockers(mismatch: bool, c: Candidate): seq<Blocker> {
    When(mismatch, ManagerVersionMismatch)
    + AgentRowBlockers(c)
    + (When(!c.vpn, NotVpnRole) + When(c.serverDisabled, ServerDisabled) + When(c.unresolvedUpdate, ActiveUpdate))
  }

  /** What the Agent row, or its absence, says. */
  function AgentRowBlockers(c: Candidate): seq<Blocker> {
    if !c.agentRegistered then [AgentMissing, UpdateCapability, ProtocolIncompatible]
    else When(c.agentDisabled, AgentDisabled) + When(!c.updateReady, UpdateCapability) + When(!c.protocolCompatible, ProtocolIncompatible)
  }

  lemma AgentRowBlockersExact(c: Candidate, x: Blocker)
    ensures x in AgentRowBlockers(c) <==>
            match x
            case AgentMissing => !c.agentRegistered
            case AgentDisabled => c.agentRegistered && c.agentDisabled
            case UpdateCapability => !c.agentRegistered || !c.updateReady
            case ProtocolIncompatible => !c.agentRegistered || !c.protocolCompatible
            case _ => false
  {
  }

  ghost predicate SameBlockers(a: seq<Blocker>, b: seq<Blocker>) { forall x :: x in a <==> x in b }

  lemma InventoryBlockersExact(mismatch: bool, c: Candidate, x: Blocker)
    ensures x in InventoryBlockers(mismatch, c) <==>
            match x
            case ManagerVersionMismatch => mismatch
            case NotVpnRole => !c.vpn
            case ServerDisabled => c.serverDisabled
            case AgentMissing => !c.agentRegistered
            case AgentDisabled => c.agentRegistered && c.agentDisabled
            case _ => false
  {
  }

  lemma PlanBlockersExact(mismatch: bool, c: Candidate, x: Blocker)
    ensures x in PlanBlockers(mismatch, c) <==>
            match x
            case ManagerVersionMismatch => mismatch
            case NotVpnRole => !c.vpn
            case ServerDisabled => c.serverDisabled
            case AgentMissing => !c.agentRegistered
            case AgentDisabled => c.agentRegistered && c.agentDisabled
            case UpdateCapability => !c.updateReady
            case ActiveUpdate => c.unresolvedUpdate
            case ProtocolIncompatible => !c.protocolCompatible
  {
    InventoryBlockersExact(mismatch, c, x);
  }

  /** When a blocker applies to the rows that the database finds. */
  predicate Blocks(mismatch: bool, c: Candidate, x: Blocker) {
    match x
    case ManagerVersionMismatch => mismatch
    case NotVpnRole => !c.vpn
    case ServerDisabled => c.serverDisabled
    case AgentMissing => !c.agentRegistered
    case AgentDisabled => c.agentRegistered && c.agentDisabled
    case UpdateCapability => !c.agentRegistered || !c.updateReady
    case ActiveUpdate => c.unresolvedUpdate
    case ProtocolIncompatible => !c.agentRegistered || !c.protocolCompatible
  }

  lemma RecheckBlockersExact(mismatch: bool, c: Candidate, x: Blocker)
    ensures x in RecheckBlockers(mismatch, c) <==> Blocks(mismatch, c, x)
  {
    AgentRowBlockersExact(c, x);
  }

  /** On the same facts planner and database agree exactly if a missing Agent claims neither capability nor protocol. */
  lemma BlockersAgreeIff(mismatch: bool, c: Candidate)
    ensures SameBlockers(PlanBlockers(mismatch, c), RecheckBlockers(mismatch, c)) <==>
            (c.agentRegistered || (!c.updateReady && !c.protocolCompatible))
  {
    var p, r := PlanBlockers(mismatch, c), RecheckBlockers(mismatch, c);
    forall x ensures (x in p <==> x in r) || (!c.agentRegistered && (x.UpdateCapability? || x.ProtocolIncompatible?)) {
      PlanBlockersExact(mismatch, c, x);
      RecheckBlockersExact(mismatch, c, x);
    }
    PlanBlockersExact(mismatch, c, UpdateCapability);
    RecheckBlockersExact(mismatch, c, UpdateCapability);
    PlanBlockersExact(mismatch, c, ProtocolIncompatible);
    RecheckBlockersExact(mismatch, c, ProtocolIncompatible);
  }

  // ---------------------------------------------------------------- planning

  predicate CanonicalServer(server: string) { Canonical(server) == Ok(server) }

  /** What persistence demands of a plan. */
  ghost predicate Persistable(p: Plan) {
    && ValidVersion(p.target) && p.entries != []
    && (forall i :: 0 <= i < |p.entries| ==> CanonicalServer(p.entries[i].server))
    && (forall i, k :: 0 <= i < k < |p.entries| ==> p.entries[i].server != p.entries[k].server)
  }

  /** What planning demands of a request: UUIDs, no two spellings of the same one. */
  ghost predicate Plannable(target: string, candidates: seq<Candidate>) {
    && ValidVersion(target) && candidates != []
    && (forall i :: 0 <= i < |candidates| ==> Canonical(candidates[i].serverId).Ok?)
    && (forall i, k :: 0 <= i < k < |candidates| ==> Identity(candidates[i].serverId) != Identity(candidates[k].serverId))
  }

  /** The entry has the canonical id and the blockers of its candidate, and is eligible exactly without any. */
  predicate Planned(e: PlanEntry, c: Candidate, canonical: string -> Result<string>, blockers: Candidate -> seq<Blocker>) {
    Ok(e.server) == canonical(c.serverId) && e.blockers == blockers(c) && e.eligible == (e.blockers == [])
  }

  /** One of the first k candidates has this canonical id. */
  predicate Uses(candidates: seq<Candidate>, k: nat, canonical: string -> Result<string>, id: string)
    requires k <= |candidates|
  {
    exists i :: 0 <= i < k && canonical(candidates[i].serverId) == Ok(id)
  }

  /** The loop over the candidates, for any way of writing server ids canonically and of finding blockers. */
  method PlanEntries(candidates: seq<Candidate>, canonical: string -> Result<string>, blockers: Candidate -> seq<Blocker>)
    returns (r: Result<seq<PlanEntry>>)
    ensures r.Ok? <==>
            && (forall i :: 0 <= i < |candidates| ==> canonical(candidates[i].serverId).Ok?)
            && (forall i, k :: 0 <= i < k < |candidates| ==> canonical(candidates[i].serverId) != canonical(candidates[k].serverId))
    ensures r.Ok? ==> |r.value| == |candidates| && forall i :: 0 <= i < |candidates| ==> Planned(r.value[i], candidates[i], canonical, blockers)
  {
    var entries: seq<PlanEntry> := [];
    var seen: set<string> := {};
    for k := 0 to |candidates|
      invariant |entries| == k && forall i :: 0 <= i < k ==> Planned(entries[i], candidates[i], canonical, blockers)
      invariant forall i, l :: 0 <= i < l < k ==> canonical(candidates[i].serverId) != canonical(candidates[l].serverId)
      invariant forall id :: id in seen <==> Uses(candidates, k, canonical, id)
    {
      var id := canonical(candidates[k].serverId);
      if id.Err? { return Err(id.error); }
      if id.value in seen { return Err("duplicate rollout candidate server id"); }
      assert !Uses(candidates, k, canonical, id.value);
      seen := seen + {id.value};
      var found := blockers(candidates[k]);
      entries := entries + [PlanEntry(id.value, found == [], found)];
    }
    return Ok(entries);
  }

  lemma CanonicalProper(raw: string)
    requires Canonical(raw).Ok?
    ensures CanonicalServer(Canonical(raw).value)
  {
    CanonicalIdempotent(raw);
  }

  /** Evaluates the candidates in the caller's order and drops none; every plan can be persisted. */
  method PlanRollout(managerVersion: string, target: string, candidates: seq<Candidate>) returns (r: Result<Plan>)
    ensures r.Ok? <==> Plannable(target, candidates)
    ensures r.Ok? ==> Persistable(r.value) && r.value.target == target && |r.value.entries| == |candidates|
    ensures r.Ok? ==> forall i :: 0 <= i < |candidates| ==>
              && Ok(r.value.entries[i].server) == Canonical(candidates[i].serverId)
              && r.value.entries[i].blockers == PlanBlockers(managerVersion != target, candidates[i])
              && r.value.entries[i].eligible == (r.value.entries[i].blockers == [])
  {
    if !ValidVersion(target) { return Err("invalid target version"); }
    if candidates == [] { return Err("at least one rollout candidate is required"); }
    var entries := PlanEntries(candidates, Canonical, (c: Candidate) => PlanBlockers(managerVersion != target, c));
    forall i, k | 0 <= i < k < |candidates| && Canonical(candidates[i].serverId).Ok? && Canonical(candidates[k].serverId).Ok?
      ensures Canonical(candidates[i].serverId) == Canonical(candidates[k].serverId) <==>
              Identity(candidates[i].serverId) == Identity(candidates[k].serverId)
    {
      CanonicalIdentifies(candidates[i].serverId, candidates[k].serverId);
    }
    if entries.Err? { return Err(entries.error); }
    forall i | 0 <= i < |candidates| ensures CanonicalServer(entries.value[i].server) {
      CanonicalProper(candidates[i].serverId);
    }
    return Ok(Plan(target, entries.value));
  }

  // ---------------------------------------------------------------- persisting

  /** The facts about a server that the persisting transaction reads from its own rows. */
  function Facts(w: World, server: string): Candidate
    requires server in w.servers
  {
    var known := server in w.agents;
    Candidate(server, w.servers[server].vpn, w.servers[server].status.Disabled?, known,
              known && w.agents[server].status.Disabled?, known && w.agents[server].updatable,
              Interlocked(w.jobs, server), known && Compatible(w.agents[server].protocol))
  }

  /** A planner that is told the database's facts finds the database's blockers. */
  lemma TruthfulPlanAgrees(w: World, server: string, target: string)
    requires server in w.servers
    ensures var c := Facts(w, server); var mismatch := w.managerVersion != target;
            SameBlockers(PlanBlockers(mismatch, c), RecheckBlockers(mismatch, c))
  {
    BlockersAgreeIff(w.managerVersion != target, Facts(w, server));
  }

  /** The snapshot row of a server. */
  function SnapshotRow(w: World, server: string, target: string): Entry
    requires server in w.servers
  {
    var blockers := RecheckBlockers(w.managerVersion != target, Facts(w, server));
    Entry(server, if blockers == [] then Queued else Skipped, Some(CountOn(w.jobs, server, 0, |w.jobs|)), None, "", None)
  }

  /** A row is queued exactly for an enabled VPN server with an enabled, capable and compatible Agent and no unresolved job. */
  lemma QueuedIff(w: World, server: string, target: string)
    requires server in w.servers
    ensures var row := SnapshotRow(w, server, target);
            && (row.status.Queued? <==>
                  && w.managerVersion == target
                  && w.servers[server].vpn && w.servers[server].status != ServerStatus.Disabled
                  && server in w.agents && w.agents[server].status != AgentStatus.Disabled
                  && w.agents[server].updatable && w.agents[server].protocol == Some(1)
                  && forall k :: 0 <= k < |w.jobs| && w.jobs[k].server == server ==> !w.jobs[k].status.Unresolved())
            && (row.status.Queued? || row.status.Skipped?) && row.server == server
            && row.observed == Some(CountOn(w.jobs, server, 0, |w.jobs|)) && row.job.None?
  {
    var mismatch, c := w.managerVersion != target, Facts(w, server);
    var blockers := RecheckBlockers(mismatch, c);
    forall x ensures x in blockers <==> Blocks(mismatch, c, x) { RecheckBlockersExact(mismatch, c, x); }
    if blockers != [] { assert blockers[0] in blockers; }
  }

  /** A revalidated row and the position the caller gave it. */
  datatype Positioned = Positioned(position: nat, entry: Entry)

  /** Insertion into a list that is sorted by server id. */
  function Insert(x: Positioned, xs: seq<Positioned>): seq<Positioned>
    decreases |xs|
  {
    if xs == [] || !TextLess(xs[0].entry.server, x.entry.server) then [x] + xs else [xs[0]] + Insert(x, xs[1..])
  }

  function SortByServer(xs: seq<Positioned>): seq<Positioned>
    decreases |xs|
  {
    if xs == [] then [] else Insert(xs[0], SortByServer(xs[1..]))
  }

  ghost predicate Ascending(xs: seq<Positioned>) {
    forall i :: 0 <= i < |xs| - 1 ==> !TextLess(xs[i + 1].entry.server, xs[i].entry.server)
  }

  lemma {:induction false} TextLessAsymmetric(s: string, t: string)
    requires TextLess(s, t)
    ensures !TextLess(t, s)
    decreases |s|
  {
    if s != "" && s[0] == t[0] { TextLessAsymmetric(s[1..], t[1..]); }
  }

  lemma {:induction false} InsertSorted(x: Positioned, xs: seq<Positioned>)
    requires Ascending(xs)
    ensures Ascending(Insert(x, xs)) && multiset(Insert(x, xs)) == multiset(xs) + multiset{x}
    ensures Insert(x, xs)[0] == x || (xs != [] && Insert(x, xs)[0] == xs[0])
    decreases |xs|
  {
    if xs != [] && TextLess(xs[0].entry.server, x.entry.server) {
      assert xs == [xs[0]] + xs[1..];
      InsertSorted(x, xs[1..]);
      TextLessAsymmetric(xs[0].entry.server, x.entry.server);
    }
  }

  lemma {:induction false} SortSorted(xs: seq<Positioned>)
    ensures Ascending(SortByServer(xs)) && multiset(SortByServer(xs)) == multiset(xs)
    decreases |xs|
  {
    if xs != [] {
      SortSorted(xs[1..]);
      InsertSorted(xs[0], SortByServer(xs[1..]));
      assert xs == [xs[0]] + xs[1..];
    }
  }

  lemma SortKeepsMembers(xs: seq<Positioned>, x: Positioned)
    ensures x in xs <==> x in SortByServer(xs)
    ensures |SortByServer(xs)| == |xs|
  {
    SortSorted(xs);
    assert x in xs <==> x in multiset(xs);
    assert x in SortByServer(xs) <==> x in multiset(SortByServer(xs));
    assert |multiset(xs)| == |xs| && |multiset(SortByServer(xs))| == |SortByServer(xs)|;
  }

  /** The order of the server_id column. */
  predicate UuidBelow(s: string, t: string) {
    Identity(s).Ok? && Identity(t).Ok? && UuidLess(Identity(s).value, Identity(t).value)
  }

  /** What the insert trigger of the entry table demands: ascending ids, and no queued row under an interlock. */
  ghost predicate TriggerAccepts(below: (string, string) -> bool, previous: Option<string>, row: Entry, jobs: seq<UpdateJob>) {
    && (previous.Some? ==> !below(row.server, previous.value))
    && (row.status.Queued? ==> !Interlocked(jobs, row.server))
    && row.observed == Some(CountOn(jobs, row.server, 0, |jobs|))
  }

  method InsertRow(rows: map<nat, Entry>, position: nat, row: Entry,
                   ghost below: (string, string) -> bool, ghost previous: Option<string>, ghost jobs: seq<UpdateJob>)
    returns (rows': map<nat, Entry>)
    requires position !in rows && TriggerAccepts(below, previous, row, jobs)
    ensures rows' == rows[position := row]
  {
    rows' := rows[position := row];
  }

  lemma SnapshotAccepted(w: World, server: string, target: string)
    requires server in w.servers
    ensures var row := SnapshotRow(w, server, target);
            && row.server == server && Snapshot(row, w.jobs)
            && row.observed == Some(CountOn(w.jobs, server, 0, |w.jobs|))
            && (row.status.Queued? ==> !Interlocked(w.jobs, server))
  {
    var c := Facts(w, server);
    RecheckBlockersExact(w.managerVersion != target, c, ActiveUpdate);
  }

  /** Sorting canonical ids as text satisfies the database. */
  lemma TextOrderSuffices(s: string, t: string)
    requires CanonicalServer(s) && CanonicalServer(t) && !TextLess(s, t)
    ensures !UuidBelow(s, t)
  {
    CanonicalOrder(Identity(s).value, Identity(t).value);
  }

  /** A row as the revalidation leaves it. */
  ghost predicate RowAccepted(row: Entry, jobs: seq<UpdateJob>) {
    (row.status.Queued? ==> !Interlocked(jobs, row.server)) && row.observed == Some(CountOn(jobs, row.server, 0, |jobs|))
  }

  /** The first k rows, and no others, are inserted under their positions. */
  ghost predicate InsertedUpTo(rows: map<nat, Entry>, ordered: seq<Positioned>, k: nat)
    requires k <= |ordered|
  {
    && (forall p :: p in rows ==> exists i :: 0 <= i < k && ordered[i].position == p)
    && (forall i :: 0 <= i < k ==> ordered[i].position in rows && rows[ordered[i].position] == ordered[i].entry)
  }

  lemma InsertOne(rows: map<nat, Entry>, ordered: seq<Positioned>, k: nat)
    requires k < |ordered| && InsertedUpTo(rows, ordered, k)
    requires forall i, l :: 0 <= i < l < |ordered| ==> ordered[i].position != ordered[l].position
    ensures ordered[k].position !in rows && InsertedUpTo(rows[ordered[k].position := ordered[k].entry], ordered, k + 1)
  {
    var rows' := rows[ordered[k].position := ordered[k].entry];
    forall p | p in rows' ensures exists i :: 0 <= i < k + 1 && ordered[i].position == p {
      if p in rows { var i :| 0 <= i < k && ordered[i].position == p; }
      else { assert ordered[k].position == p; }
    }
  }

  /** Inserts the rows in ascending order of their ids, whatever the database takes the order to be. */
  method InsertRows(ordered: seq<Positioned>, ghost below: (string, string) -> bool, ghost jobs: seq<UpdateJob>)
    returns (rows: map<nat, Entry>)
    requires forall i :: 0 <= i < |ordered| ==> RowAccepted(ordered[i].entry, jobs)
    requires forall i, k :: 0 <= i < k < |ordered| ==> ordered[i].position != ordered[k].position
    requires forall i :: 0 <= i < |ordered| - 1 ==> !below(ordered[i + 1].entry.server, ordered[i].entry.server)
    ensures forall i :: 0 <= i < |ordered| ==> ordered[i].position in rows && rows[ordered[i].position] == ordered[i].entry
  {
    rows := map[];
    ghost var previous: Option<string> := None;
    for k := 0 to |ordered|
      invariant InsertedUpTo(rows, ordered, k)
      invariant previous == if k == 0 then None else Some(ordered[k - 1].entry.server)
    {
      if k > 0 { assert !below(ordered[k - 1 + 1].entry.server, ordered[k - 1].entry.server); }
      assert RowAccepted(ordered[k].entry, jobs);
      InsertOne(rows, ordered, k);
      rows := InsertRow(rows, ordered[k].position, ordered[k].entry, below, previous, jobs);
      previous := Some(ordered[k].entry.server);
    }
  }

  /** The snapshot of a plan whose servers all exist: the caller's order, eligibility derived anew. */
  ghost predicate SnapshotOf(w: World, plan: Plan, entries: seq<Entry>) {
    && |entries| == |plan.entries|
    && forall i :: 0 <= i < |entries| ==>
         plan.entries[i].server in w.servers && entries[i] == SnapshotRow(w, plan.entries[i].server, plan.target)
  }

  lemma PositionsUnique(positioned: seq<Positioned>, ordered: seq<Positioned>)
    requires multiset(ordered) == multiset(positioned)
    requires forall i :: 0 <= i < |positioned| ==> positioned[i].position == i
    ensures forall i, k :: 0 <= i < k < |ordered| ==> ordered[i].position != ordered[k].position
  {
    forall i, k | 0 <= i < k < |ordered| ensures ordered[i].position != ordered[k].position {
      if ordered[i].position == ordered[k].position {
        assert ordered[i] in multiset(positioned) && ordered[k] in multiset(positioned);
        var x := ordered[i];
        assert x == positioned[x.position] && ordered[k] == x;
        TwiceInMultiset(ordered, i, k);
        OnceInMultiset(positioned, x.position);
        assert false;
      }
    }
  }

  lemma TwiceInMultiset(xs: seq<Positioned>, i: nat, k: nat)
    requires i < k < |xs| && xs[i] == xs[k]
    ensures multiset(xs)[xs[i]] >= 2
  {
    assert xs == xs[..i] + [xs[i]] + xs[i + 1..k] + [xs[k]] + xs[k + 1..];
  }

  lemma OnceInMultiset(xs: seq<Positioned>, i: nat)
    requires i < |xs| && forall k :: 0 <= k < |xs| ==> xs[k].position == k
    ensures multiset(xs)[xs[i]] == 1
  {
    assert xs == xs[..i] + [xs[i]] + xs[i + 1..];
    assert xs[i] !in xs[..i] && xs[i] !in xs[i + 1..];
  }

  /** The loop over the entries, for any notion of a proper server id. */
  method CheckServers(entries: seq<PlanEntry>, proper: string -> bool) returns (ok: bool)
    ensures ok <==>
            && (forall i :: 0 <= i < |entries| ==> proper(entries[i].server))
            && (forall i, k :: 0 <= i < k < |entries| ==> entries[i].server != entries[k].server)
  {
    var seen: set<string> := {};
    for k := 0 to |entries|
      invariant forall i :: 0 <= i < k ==> proper(entries[i].server)
      invariant forall i, l :: 0 <= i < l < k ==> entries[i].server != entries[l].server
      invariant seen == set i | 0 <= i < k :: entries[i].server
    {
      if !proper(entries[k].server) { return false; }
      if entries[k].server in seen { return false; }
      seen := seen + {entries[k].server};
    }
    return true;
  }

  /** Checks the plan as the database layer does, before any row is read. */
  method Validate(plan: Plan) returns (ok: bool)
    ensures ok <==> Persistable(plan)
  {
    if !ValidVersion(plan.target) || plan.entries == [] { return false; }
    ok := CheckServers(plan.entries, CanonicalServer);
  }

  /** Inserts the rows sorted by server id; they come out in the order of their positions. */
  method InsertSnapshot(entries: seq<Entry>, ghost below: (string, string) -> bool, ghost jobs: seq<UpdateJob>)
    returns (persisted: seq<Entry>)
    requires forall i :: 0 <= i < |entries| ==> RowAccepted(entries[i], jobs)
    requires forall a, b :: a in entries && b in entries && !TextLess(a.server, b.server) ==> !below(a.server, b.server)
    ensures persisted == entries
  {
    var n := |entries|;
    var positioned := seq(n, i requires 0 <= i < n => Positioned(i, entries[i]));
    var ordered := SortByServer(positioned);
    SortSorted(positioned);
    PositionsUnique(positioned, ordered);
    forall i | 0 <= i < |ordered| ensures ordered[i] in positioned && ordered[i].entry in entries { SortKeepsMembers(positioned, ordered[i]); }
    forall i | 0 <= i < |ordered| - 1 ensures !below(ordered[i + 1].entry.server, ordered[i].entry.server) {
      assert ordered[i].entry in entries && ordered[i + 1].entry in entries;
    }
    var rows := InsertRows(ordered, below, jobs);
    forall i | 0 <= i < n ensures i in rows && rows[i] == entries[i] {
      SortKeepsMembers(positioned, positioned[i]);
      var k :| 0 <= k < |ordered| && ordered[k] == positioned[i];
    }
    return seq(n, i requires 0 <= i < n => rows[i]);
  }

  lemma SnapshotOrderSuffices(w: World, plan: Plan, entries: seq<Entry>)
    requires Persistable(plan) && SnapshotOf(w, plan, entries)
    ensures forall a, b :: a in entries && b in entries && !TextLess(a.server, b.server) ==> !UuidBelow(a.server, b.server)
    ensures forall i :: 0 <= i < |entries| ==> RowAccepted(entries[i], w.jobs)
  {
    forall i | 0 <= i < |entries| ensures RowAccepted(entries[i], w.jobs) && CanonicalServer(entries[i].server) {
      SnapshotAccepted(w, plan.entries[i].server, plan.target);
    }
    forall a, b | a in entries && b in entries && !TextLess(a.server, b.server) ensures !UuidBelow(a.server, b.server) {
      TextOrderSuffices(a.server, b.server);
    }
  }

  /** Revalidates every entry in the caller's order. */
  method Revalidate(w: World, plan: Plan) returns (r: Result<seq<Entry>>)
    ensures r.Ok? <==> forall i :: 0 <= i < |plan.entries| ==> plan.entries[i].server in w.servers
    ensures r.Ok? ==> SnapshotOf(w, plan, r.value)
  {
    var entries: seq<Entry> := [];
    for k := 0 to |plan.entries|
      invariant |entries| == k
      invariant forall i :: 0 <= i < k ==>
                  plan.entries[i].server in w.servers && entries[i] == SnapshotRow(w, plan.entries[i].server, plan.target)
    {
      if plan.entries[k].server !in w.servers { return Err("no rows"); }
      entries := entries + [SnapshotRow(w, plan.entries[k].server, plan.target)];
    }
    return Ok(entries);
  }

  /**
    Persists a plan. The rows go in by server id and come out in the caller's order; blockers and
    eligibility given by the caller are ignored.
   */
  method PersistPlan(w: World, plan: Plan) returns (r: Result<seq<Entry>>)
    ensures r.Ok? <==> Persistable(plan) && forall i :: 0 <= i < |plan.entries| ==> plan.entries[i].server in w.servers
    ensures r.Ok? ==> SnapshotOf(w, plan, r.value)
  {
    var ok := Validate(plan);
    if !ok { return Err("rollout plan is invalid"); }
    r := Revalidate(w, plan);
    if r.Err? { return; }
    SnapshotOrderSuffices(w, plan, r.value);
    var persisted := InsertSnapshot(r.value, UuidBelow, w.jobs);
    return Ok(persisted);
  }

  /** A persisted snapshot is an initial state of the rollout, so every guarantee about its runs applies. */
  lemma SnapshotIsInitial(w: World, plan: Plan, entries: seq<Entry>)
    requires Persistable(plan) && SnapshotOf(w, plan, entries)
    requires TablesOk(w)
    ensures Initial(w.(target := plan.target, status := RolloutStatus.Pending, errorCode := "", entries := entries))
    ensures forall i :: 0 <= i < |entries| ==>
              (entries[i].status.Queued? <==> RecheckBlockers(w.managerVersion != plan.target, Facts(w, entries[i].server)) == [])
  {
    forall i | 0 <= i < |entries| ensures Snapshot(entries[i], w.jobs) {
      SnapshotAccepted(w, plan.entries[i].server, plan.target);
    }
  }
}
