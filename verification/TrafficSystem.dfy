/**
  Traffic accounting from Agent to Manager, over every run of collections, transmissions, duplicated and
  delayed deliveries, lost acknowledgements, restarts, and saves that fail before or after the rename.
 */
module TrafficSystem {
  import opened Common
  import opened TrafficOutbox

  datatype Batch = Batch(stream: nat, sequence: nat, events: seq<Usage>)

  // ---------------------------------------------------------------- the Manager

  datatype Checkpoint = Checkpoint(sequence: nat, digest: Option<nat>)

  /** High-water marks per stream, and every batch that was turned into usage rows. */
  datatype Receiver = Receiver(checkpoints: map<nat, Checkpoint>, applied: seq<Batch>)

  function CheckpointOf(r: Receiver, stream: nat): Checkpoint {
    if stream in r.checkpoints then r.checkpoints[stream] else Checkpoint(0, None)
  }

  datatype Receipt = Receipt(r: Receiver, ok: bool)

  /** A repetition of the last batch is confirmed without effect; otherwise only the next sequence is applied. */
  function Receive(r: Receiver, b: Batch, digest: seq<Usage> -> nat): Receipt {
    var previous := CheckpointOf(r, b.stream);
    if b.sequence == previous.sequence && previous.digest == Some(digest(b.events)) then Receipt(r, true)
    else if b.sequence != previous.sequence + 1 then Receipt(r, false)
    else Receipt(Receiver(r.checkpoints[b.stream := Checkpoint(b.sequence, Some(digest(b.events)))], r.applied + [b]), true)
  }

  /** The batch has the number of the last one recorded for its stream, and the same digest. */
  predicate Repeats(r: Receiver, b: Batch, digest: seq<Usage> -> nat) {
    CheckpointOf(r, b.stream) == Checkpoint(b.sequence, Some(digest(b.events)))
  }

  /** The batch has the number after the last one recorded for its stream. */
  predicate Follows(r: Receiver, b: Batch) { b.sequence == CheckpointOf(r, b.stream).sequence + 1 }

  /** A report is confirmed exactly if it repeats the last one or follows it; only in the second case is anything recorded. */
  lemma ReceiveExact(r: Receiver, b: Batch, digest: seq<Usage> -> nat)
    ensures var after := Receive(r, b, digest);
            && (after.ok <==> Repeats(r, b, digest) || Follows(r, b))
            && (Follows(r, b) ==> after.r.applied == r.applied + [b] && Repeats(after.r, b, digest))
            && (!Follows(r, b) ==> after.r == r)
            && (forall s :: s != b.stream ==> CheckpointOf(after.r, s) == CheckpointOf(r, s))
  {
  }

  /** The usage table and the checkpoints as the Manager updates them in one transaction. */
  class UsageTable {
    var accounts: set<string>
    var checkpoints: map<nat, Checkpoint>
    var rows: seq<Usage>
    ghost var applied: seq<Batch>

    ghost function State(): Receiver reads this { Receiver(checkpoints, applied) }

    /** The rows are exactly the events of the applied batches, in order. */
    ghost predicate Valid() reads this { rows == Flatten(EventsOf(applied)) }

    constructor (known: set<string>)
      ensures Valid() && State() == Receiver(map[], []) && accounts == known
    {
      accounts, checkpoints, rows := known, map[], [];
      applied := [];
    }

    /** One report. An unknown account rolls the whole report back. */
    method ReportUsageBatch(b: Batch, digest: seq<Usage> -> nat) returns (ok: bool)
      requires Valid()
      modifies this`checkpoints, this`rows, this`applied
      ensures Valid()
      ensures ok <==> Repeats(old(State()), b, digest) ||
                      (Follows(old(State()), b) && forall i :: 0 <= i < |b.events| ==> b.events[i].account in accounts)
      ensures !ok || Repeats(old(State()), b, digest) ==> State() == old(State()) && rows == old(rows)
      ensures ok && !Repeats(old(State()), b, digest) ==>
                && rows == old(rows) + b.events && applied == old(applied) + [b]
                && checkpoints == old(checkpoints)[b.stream := Checkpoint(b.sequence, Some(digest(b.events)))]
      ensures ok ==> Receipt(State(), true) == Receive(old(State()), b, digest)
    {
      var previous := if b.stream in checkpoints then checkpoints[b.stream] else Checkpoint(0, None);
      if b.sequence == previous.sequence && previous.digest == Some(digest(b.events)) { return true; }
      if b.sequence != previous.sequence + 1 { return false; }
      var inserted: seq<Usage> := [];
      for k := 0 to |b.events|
        invariant inserted == b.events[..k] && forall i :: 0 <= i < k ==> b.events[i].account in accounts
      {
        if b.events[k].account !in accounts { return false; }
        inserted := inserted + [b.events[k]];
      }
      FlattenOne(EventsOf(applied), b.events);
      assert EventsOf(applied + [b]) == EventsOf(applied) + [b.events];
      rows := rows + inserted;
      checkpoints := checkpoints[b.stream := Checkpoint(b.sequence, Some(digest(b.events)))];
      applied := applied + [b];
      return true;
    }
  }

  function EventsOf(batches: seq<Batch>): seq<seq<Usage>> {
    seq(|batches|, i requires 0 <= i < |batches| => batches[i].events)
  }

  function Flatten(batches: seq<seq<Usage>>): seq<Usage>
    decreases |batches|
  {
    if batches == [] then [] else Flatten(batches[..|batches| - 1]) + batches[|batches| - 1]
  }

  lemma FlattenOne(batches: seq<seq<Usage>>, b: seq<Usage>)
    ensures Flatten(batches + [b]) == Flatten(batches) + b
  {
    assert (batches + [b])[..|batches|] == batches;
  }

  // ---------------------------------------------------------------- the system

  /** How a box came about: every snapshot it has taken in, and the batches acknowledged so far. */
  datatype Lineage = Lineage(hist: seq<Snapshot>, batches: seq<seq<Usage>>)

  datatype System = System(
    mem: Option<Box>,             // None while the Agent is down
    memLine: Lineage,
    file: Option<Box>,
    fileLine: Lineage,
    sent: set<Batch>,             // every transmission; any of them may arrive at any time, any number of times
    confirmed: set<Batch>,        // transmissions that the Manager has confirmed
    recv: Receiver,
    streams: nat)                 // stream ids drawn so far

  datatype Event =
    | Open
    | Crash
    | Prepare(snapshots: seq<Snapshot>, io: WriteOutcome)
    | Transmit
    | Deliver(batch: Batch, fault: bool)
    | Acknowledge(io: WriteOutcome)

  function Current(b: Box): Batch { Batch(b.stream, b.sequence, b.pending) }

  function Reopen(s: System): System
    requires s.mem.None?
  {
    if s.file.Some? then s.(mem := s.file, memLine := s.fileLine)
    else s.(mem := Some(FreshBox(s.streams)), memLine := Lineage([], []), streams := s.streams + 1)
  }

  /** Memory and file after an operation that tried to save a box with the given lineage. */
  function Store(s: System, r: Saved, line: Lineage, io: WriteOutcome): System {
    s.(mem := Some(r.box), file := r.file,
       memLine := if io.Durable? then line else s.memLine,
       fileLine := if io.LostBeforeRename? then s.fileLine else line)
  }

  function Extended(line: Lineage, batch: seq<Usage>): Lineage { Lineage(line.hist, line.batches + [batch]) }

  predicate Collects(b: Box, snapshots: seq<Snapshot>) { b.pending == [] && |TrackEvents(b.last, snapshots)| <= MAX_BATCH }

  function Step(s: System, e: Event, digest: seq<Usage> -> nat): System {
    match e
    case Open => if s.mem.None? then Reopen(s) else s
    case Crash => s.(mem := None)
    case Prepare(snapshots, io) =>
      if s.mem.None? || !Collects(s.mem.value, snapshots) then s
      else Store(s, PrepareBox(s.mem.value, s.file, snapshots, io), Lineage(s.memLine.hist + snapshots, s.memLine.batches), io)
    case Transmit =>
      if s.mem.None? || s.mem.value.pending == [] then s else s.(sent := s.sent + {Current(s.mem.value)})
    case Deliver(b, fault) =>
      if b !in s.sent || fault then s
      else
        var r := Receive(s.recv, b, digest);
        if r.ok then s.(recv := r.r, confirmed := s.confirmed + {b}) else s
    case Acknowledge(io) =>
      if s.mem.None? || s.mem.value.pending == [] || Current(s.mem.value) !in s.confirmed then s
      else Store(s, AcknowledgeBox(s.mem.value, s.file, io), Extended(s.memLine, s.mem.value.pending), io)
  }

  function Run(s: System, events: seq<Event>, digest: seq<Usage> -> nat): System
    decreases |events|
  {
    if events == [] then s else Run(Step(s, events[0], digest), events[1..], digest)
  }

  const INITIAL := System(None, Lineage([], []), None, Lineage([], []), {}, {}, Receiver(map[], []), 0)

  // ---------------------------------------------------------------- the invariant

  /** All batches of a box: the acknowledged ones and the pending one. */
  function Batches(b: Box, line: Lineage): seq<seq<Usage>> {
    if b.pending == [] then line.batches else line.batches + [b.pending]
  }

  /** The batches of a box, acknowledged and pending, are exactly the deltas of its history. */
  ghost predicate BoxOk(b: Box, line: Lineage) {
    && b.sequence == |line.batches| + 1
    && b.last == TrackLast(map[], line.hist)
    && Flatten(line.batches) + b.pending == TrackEvents(map[], line.hist)
    && |b.pending| <= MAX_BATCH
    && (forall i :: 0 <= i < |line.batches| ==> line.batches[i] != [])
  }

  /** Memory equals the file, or is behind it by one save that reported an error. */
  ghost predicate Related(m: Box, mLine: Lineage, f: Box, fLine: Lineage) {
    && m.stream == f.stream
    && (|| (m == f && mLine == fLine)
        || (m.pending == [] && fLine.batches == mLine.batches)
        || (m.pending != [] && f.pending == [] && fLine == Extended(mLine, m.pending)))
  }

  /** What was transmitted is what the box still stands for. */
  ghost predicate SentOk(sent: set<Batch>, b: Box, line: Lineage) {
    forall t :: t in sent ==>
      t.stream == b.stream && 1 <= t.sequence <= |Batches(b, line)| && t.events == Batches(b, line)[t.sequence - 1]
  }

  /** The Manager has applied an initial part of the batches, at least the acknowledged ones, in order and once. */
  ghost predicate AppliedOk(r: Receiver, b: Box, line: Lineage, digest: seq<Usage> -> nat) {
    && (r.checkpoints.Keys <= {b.stream})
    && var n := CheckpointOf(r, b.stream).sequence;
       && |r.applied| == n && |line.batches| <= n <= |Batches(b, line)|
       && (forall i :: 0 <= i < n ==> r.applied[i] == Batch(b.stream, i + 1, Batches(b, line)[i]))
       && CheckpointOf(r, b.stream).digest == (if n == 0 then None else Some(digest(Batches(b, line)[n - 1])))
  }

  /** What was confirmed was sent and is applied, and what is applied was sent. */
  ghost predicate ConfirmedOk(confirmed: set<Batch>, sent: set<Batch>, recv: Receiver) {
    && confirmed <= sent
    && (forall t :: t in confirmed ==> t.sequence <= |recv.applied|)
    && (forall i :: 0 <= i < |recv.applied| ==> recv.applied[i] in sent)
  }

  /** A box that accounts for its history, for every transmission and for what the Manager has applied. */
  ghost predicate Stands(b: Box, line: Lineage, sent: set<Batch>, recv: Receiver, digest: seq<Usage> -> nat) {
    BoxOk(b, line) && SentOk(sent, b, line) && AppliedOk(recv, b, line, digest)
  }

  /** Memory or file alone. */
  ghost predicate Holds(b: Option<Box>, line: Lineage, sent: set<Batch>, recv: Receiver, digest: seq<Usage> -> nat) {
    b.Some? ==> Stands(b.value, line, sent, recv, digest)
  }

  /** Memory and file together. */
  ghost predicate Paired(m: Option<Box>, mLine: Lineage, f: Option<Box>, fLine: Lineage) {
    m.Some? ==> if f.Some? then Related(m.value, mLine, f.value, fLine) else m.value.pending == [] && mLine == Lineage([], [])
  }

  ghost predicate Inv(s: System, digest: seq<Usage> -> nat) {
    && ConfirmedOk(s.confirmed, s.sent, s.recv)
    && Holds(s.file, s.fileLine, s.sent, s.recv, digest)
    && Holds(s.mem, s.memLine, s.sent, s.recv, digest)
    && Paired(s.mem, s.memLine, s.file, s.fileLine)
    && (s.file.None? ==> s.sent == {} && s.recv == Receiver(map[], []))
  }

  /** The save succeeded: memory and file are the new box. */
  lemma SavedKeeps(s: System, next: Box, line: Lineage, digest: seq<Usage> -> nat)
    requires Inv(s, digest) && Stands(next, line, s.sent, s.recv, digest)
    ensures Inv(s.(mem := Some(next), memLine := line, file := Some(next), fileLine := line), digest)
  {
  }

  /** The rename happened but an error was reported: only the file is the new box. */
  lemma RenamedKeeps(s: System, next: Box, line: Lineage, digest: seq<Usage> -> nat)
    requires Inv(s, digest) && s.mem.Some?
    requires Stands(next, line, s.sent, s.recv, digest) && Related(s.mem.value, s.memLine, next, line)
    ensures Inv(s.(file := Some(next), fileLine := line), digest)
  {
  }

  /** Saving a box that stands for everything and is one save ahead of memory. */
  lemma StoreKeeps(s: System, next: Box, line: Lineage, io: WriteOutcome, digest: seq<Usage> -> nat)
    requires Inv(s, digest) && s.mem.Some?
    requires Stands(next, line, s.sent, s.recv, digest) && Related(s.mem.value, s.memLine, next, line)
    ensures Inv(Store(s, Save(s.mem.value, next, s.file, io), line, io), digest)
  {
    match io
    case Durable => SavedKeeps(s, next, line, digest);
    case LostBeforeRename => assert Store(s, Save(s.mem.value, next, s.file, io), line, io) == s;
    case ErrorAfterRename =>
      RenamedKeeps(s, next, line, digest);
      assert Store(s, Save(s.mem.value, next, s.file, io), line, io) == s.(file := Some(next), fileLine := line);
  }

  lemma PreparedOk(b: Box, line: Lineage, snapshots: seq<Snapshot>)
    requires BoxOk(b, line) && Collects(b, snapshots)
    ensures BoxOk(Prepared(b, snapshots), Lineage(line.hist + snapshots, line.batches))
  {
    TrackConcat(map[], line.hist, snapshots);
  }

  lemma PreparedStands(b: Box, line: Lineage, snapshots: seq<Snapshot>, sent: set<Batch>, recv: Receiver, digest: seq<Usage> -> nat)
    requires Stands(b, line, sent, recv, digest) && Collects(b, snapshots)
    ensures Stands(Prepared(b, snapshots), Lineage(line.hist + snapshots, line.batches), sent, recv, digest)
  {
    PreparedOk(b, line, snapshots);
    assert Batches(b, line) == line.batches;
  }

  lemma AcknowledgedOk(b: Box, line: Lineage)
    requires BoxOk(b, line) && b.pending != []
    ensures BoxOk(Acknowledged(b), Extended(line, b.pending))
  {
    FlattenOne(line.batches, b.pending);
  }

  /** Once the pending batch is confirmed it counts among the acknowledged ones. */
  lemma AcknowledgedStands(b: Box, line: Lineage, sent: set<Batch>, recv: Receiver, digest: seq<Usage> -> nat)
    requires Stands(b, line, sent, recv, digest) && b.pending != [] && b.sequence <= |recv.applied|
    ensures Stands(Acknowledged(b), Extended(line, b.pending), sent, recv, digest)
  {
    AcknowledgedOk(b, line);
    assert Batches(Acknowledged(b), Extended(line, b.pending)) == Batches(b, line);
  }

  lemma PrepareKeeps(s: System, snapshots: seq<Snapshot>, io: WriteOutcome, digest: seq<Usage> -> nat)
    requires Inv(s, digest)
    ensures Inv(Step(s, Prepare(snapshots, io), digest), digest)
  {
    if s.mem.Some? && Collects(s.mem.value, snapshots) {
      PreparedStands(s.mem.value, s.memLine, snapshots, s.sent, s.recv, digest);
      StoreKeeps(s, Prepared(s.mem.value, snapshots), Lineage(s.memLine.hist + snapshots, s.memLine.batches), io, digest);
    }
  }

  lemma AheadByAcknowledgement(b: Box, line: Lineage)
    requires b.pending != []
    ensures Related(b, line, Acknowledged(b), Extended(line, b.pending))
  {
  }

  lemma AcknowledgeKeeps(s: System, io: WriteOutcome, digest: seq<Usage> -> nat)
    requires Inv(s, digest)
    ensures Inv(Step(s, Acknowledge(io), digest), digest)
  {
    if s.mem.Some? && s.mem.value.pending != [] && Current(s.mem.value) in s.confirmed {
      var b := s.mem.value;
      assert b.sequence <= |s.recv.applied|;
      AcknowledgedStands(b, s.memLine, s.sent, s.recv, digest);
      AheadByAcknowledgement(b, s.memLine);
      StoreKeeps(s, Acknowledged(b), Extended(s.memLine, b.pending), io, digest);
    }
  }

  /** Delivering a transmission leaves the Manager in step with a box that stands for it. */
  lemma DeliverApplied(r: Receiver, t: Batch, b: Box, line: Lineage, digest: seq<Usage> -> nat)
    requires AppliedOk(r, b, line, digest) && SentOk({t}, b, line)
    ensures AppliedOk(Receive(r, t, digest).r, b, line, digest)
    ensures Receive(r, t, digest).ok ==> t.sequence <= |Receive(r, t, digest).r.applied|
  {
    assert t in {t};
  }

  lemma DeliverStands(t: Batch, b: Box, line: Lineage, sent: set<Batch>, recv: Receiver, digest: seq<Usage> -> nat)
    requires Stands(b, line, sent, recv, digest) && t in sent
    ensures Stands(b, line, sent, Receive(recv, t, digest).r, digest)
    ensures Receive(recv, t, digest).ok ==> t.sequence <= |Receive(recv, t, digest).r.applied|
  {
    assert SentOk({t}, b, line);
    DeliverApplied(recv, t, b, line, digest);
  }

  lemma ReceiveGrows(recv: Receiver, t: Batch, digest: seq<Usage> -> nat)
    ensures var r := Receive(recv, t, digest).r; r.applied == recv.applied || r.applied == recv.applied + [t]
  {
  }

  lemma ReceiveConfirms(confirmed: set<Batch>, sent: set<Batch>, recv: Receiver, t: Batch, digest: seq<Usage> -> nat)
    requires ConfirmedOk(confirmed, sent, recv) && t in sent && Receive(recv, t, digest).ok
    requires t.sequence <= |Receive(recv, t, digest).r.applied|
    ensures ConfirmedOk(confirmed + {t}, sent, Receive(recv, t, digest).r)
  {
    ReceiveGrows(recv, t, digest);
  }

  lemma DeliverKeeps(s: System, t: Batch, fault: bool, digest: seq<Usage> -> nat)
    requires Inv(s, digest)
    ensures Inv(Step(s, Deliver(t, fault), digest), digest)
  {
    if t in s.sent && !fault && Receive(s.recv, t, digest).ok {
      DeliverStands(t, s.file.value, s.fileLine, s.sent, s.recv, digest);
      if s.mem.Some? { DeliverStands(t, s.mem.value, s.memLine, s.sent, s.recv, digest); }
      ReceiveConfirms(s.confirmed, s.sent, s.recv, t, digest);
    }
  }

  /** While a batch is pending in memory, memory and file stand for the same batches. */
  lemma RelatedBatches(m: Box, mLine: Lineage, f: Box, fLine: Lineage)
    requires Related(m, mLine, f, fLine) && m.pending != []
    ensures f.stream == m.stream && Batches(f, fLine) == Batches(m, mLine)
  {
  }

  lemma TransmitStands(b: Box, line: Lineage, t: Batch, sent: set<Batch>, recv: Receiver, digest: seq<Usage> -> nat)
    requires Stands(b, line, sent, recv, digest) && t.stream == b.stream
    requires 1 <= t.sequence <= |Batches(b, line)| && t.events == Batches(b, line)[t.sequence - 1]
    ensures Stands(b, line, sent + {t}, recv, digest)
  {
  }

  lemma PendingIsLast(b: Box, line: Lineage)
    requires BoxOk(b, line) && b.pending != []
    ensures 1 <= b.sequence == |Batches(b, line)| && Batches(b, line)[b.sequence - 1] == b.pending
  {
  }

  lemma MoreSentKeeps(s: System, t: Batch, digest: seq<Usage> -> nat)
    requires Inv(s, digest) && s.mem.Some? && s.file.Some?
    requires Stands(s.mem.value, s.memLine, s.sent + {t}, s.recv, digest) && Stands(s.file.value, s.fileLine, s.sent + {t}, s.recv, digest)
    ensures Inv(s.(sent := s.sent + {t}), digest)
  {
  }

  /** A transmission of the pending batch: the file stands for it as well. */
  lemma TransmitKeeps(s: System, digest: seq<Usage> -> nat)
    requires Inv(s, digest)
    ensures Inv(Step(s, Transmit, digest), digest)
  {
    if s.mem.Some? && s.mem.value.pending != [] {
      var b, f := s.mem.value, s.file.value;
      RelatedBatches(b, s.memLine, f, s.fileLine);
      PendingIsLast(b, s.memLine);
      TransmitStands(b, s.memLine, Current(b), s.sent, s.recv, digest);
      TransmitStands(f, s.fileLine, Current(b), s.sent, s.recv, digest);
      MoreSentKeeps(s, Current(b), digest);
    }
  }

  lemma StepKeeps(s: System, e: Event, digest: seq<Usage> -> nat)
    requires Inv(s, digest)
    ensures Inv(Step(s, e, digest), digest)
  {
    match e
    case Prepare(snapshots, io) => PrepareKeeps(s, snapshots, io, digest);
    case Acknowledge(io) => AcknowledgeKeeps(s, io, digest);
    case Deliver(t, fault) => DeliverKeeps(s, t, fault, digest);
    case Transmit => TransmitKeeps(s, digest);
    case _ =>
  }

  lemma {:induction false} RunKeeps(s: System, events: seq<Event>, digest: seq<Usage> -> nat)
    requires Inv(s, digest)
    ensures Inv(Run(s, events, digest), digest)
    decreases |events|
  {
    if events != [] {
      StepKeeps(s, events[0], digest);
      RunKeeps(Step(s, events[0], digest), events[1..], digest);
    }
  }

  // ---------------------------------------------------------------- guarantees

  ghost predicate WasSent(sent: set<Batch>, sequence: nat) { exists v :: v in sent && v.sequence == sequence }

  lemma SentAgree(s: System, digest: seq<Usage> -> nat, t: Batch, u: Batch)
    requires Inv(s, digest) && t in s.sent && u in s.sent
    ensures t.stream == u.stream && (t.sequence == u.sequence ==> t == u)
  {
    assert SentOk(s.sent, s.file.value, s.fileLine);
  }

  lemma SentBefore(s: System, digest: seq<Usage> -> nat, t: Batch, k: nat)
    requires Inv(s, digest) && t in s.sent && 1 <= k < t.sequence
    ensures WasSent(s.sent, k)
  {
    assert SentOk(s.sent, s.file.value, s.fileLine) && AppliedOk(s.recv, s.file.value, s.fileLine, digest);
    var v := s.recv.applied[k - 1];
    assert v in s.sent && v.sequence == k;
  }

  /** Every transmission of a sequence number carries the same events, and no number is left out. */
  lemma TransmissionsIdentical(events: seq<Event>, digest: seq<Usage> -> nat, t: Batch, u: Batch)
    requires t in Run(INITIAL, events, digest).sent && u in Run(INITIAL, events, digest).sent
    ensures t.stream == u.stream
    ensures t.sequence == u.sequence ==> t == u
    ensures forall k :: 1 <= k < t.sequence ==> WasSent(Run(INITIAL, events, digest).sent, k)
  {
    RunKeeps(INITIAL, events, digest);
    var s := Run(INITIAL, events, digest);
    SentAgree(s, digest, t, u);
    forall k | 1 <= k < t.sequence ensures WasSent(s.sent, k) { SentBefore(s, digest, t, k); }
  }

  /** The Manager applies every batch exactly once and in order, whatever digest it compares. */
  lemma AppliedExactlyOnce(events: seq<Event>, digest: seq<Usage> -> nat)
    ensures var s := Run(INITIAL, events, digest);
            s.file.Some? ==>
              var all := Batches(s.file.value, s.fileLine);
              && s.file.value.sequence - 1 <= |s.recv.applied| <= |all|
              && forall i :: 0 <= i < |s.recv.applied| ==> s.recv.applied[i] == Batch(s.file.value.stream, i + 1, all[i])
  {
    RunKeeps(INITIAL, events, digest);
  }

  /** The pending batch is the next one for the Manager, or the last one it has recorded. */
  lemma PendingConfirmable(s: System, digest: seq<Usage> -> nat)
    requires Inv(s, digest) && s.mem.Some? && s.mem.value.pending != []
    ensures Receive(s.recv, Current(s.mem.value), digest).ok
  {
    var b, line := s.mem.value, s.memLine;
    PendingIsLast(b, line);
    assert AppliedOk(s.recv, b, line, digest);
    var n := CheckpointOf(s.recv, b.stream).sequence;
    assert n == |line.batches| || n == |Batches(b, line)|;
    ReceiveExact(s.recv, Current(b), digest);
  }

  /** In every reachable state, lost answers or not, delivering the pending batch gets it confirmed. */
  lemma DeliveryConfirms(events: seq<Event>, digest: seq<Usage> -> nat)
    requires var s := Run(INITIAL, events, digest); s.mem.Some? && s.mem.value.pending != [] && Current(s.mem.value) in s.sent
    ensures var s := Run(INITIAL, events, digest); Current(s.mem.value) in Step(s, Deliver(Current(s.mem.value), false), digest).confirmed
  {
    RunKeeps(INITIAL, events, digest);
    PendingConfirmable(Run(INITIAL, events, digest), digest);
  }

  lemma RunThree(s: System, a: Event, b: Event, c: Event, digest: seq<Usage> -> nat)
    ensures Run(s, [a, b, c], digest) == Step(Step(Step(s, a, digest), b, digest), c, digest)
  {
    assert [a, b, c][1..] == [b, c] && [b, c][1..] == [c] && [c][1..] == [];
    assert Run(Step(s, a, digest), [b, c], digest) == Run(Step(Step(s, a, digest), b, digest), [c], digest);
  }

  /** The batch stands at its own number among the recorded ones. */
  ghost predicate Recorded(r: Receiver, b: Batch) { 1 <= b.sequence <= |r.applied| && r.applied[b.sequence - 1] == b }

  lemma ConfirmedIsRecorded(b: Box, line: Lineage, r: Receiver, digest: seq<Usage> -> nat)
    requires BoxOk(b, line) && b.pending != [] && AppliedOk(r, b, line, digest) && b.sequence <= |r.applied|
    ensures Recorded(r, Current(b))
  {
    PendingIsLast(b, line);
  }

  lemma DeliveredIsRecorded(s: System, digest: seq<Usage> -> nat)
    requires Inv(s, digest) && s.mem.Some? && s.mem.value.pending != [] && Current(s.mem.value) in s.sent
    ensures Recorded(Receive(s.recv, Current(s.mem.value), digest).r, Current(s.mem.value))
  {
    var b := s.mem.value;
    PendingConfirmable(s, digest);
    DeliverStands(Current(b), b, s.memLine, s.sent, s.recv, digest);
    ConfirmedIsRecorded(b, s.memLine, Receive(s.recv, Current(b), digest).r, digest);
  }

  lemma DeliverStep(s: System, t: Batch, digest: seq<Usage> -> nat)
    requires t in s.sent && Receive(s.recv, t, digest).ok
    ensures Step(s, Deliver(t, false), digest) == s.(recv := Receive(s.recv, t, digest).r, confirmed := s.confirmed + {t})
  {
  }

  lemma AcknowledgedMoves(s: System, digest: seq<Usage> -> nat)
    requires s.mem.Some? && s.mem.value.pending != [] && Current(s.mem.value) in s.confirmed
    ensures MovedOn(s, Step(s, Acknowledge(Durable), digest)) && Step(s, Acknowledge(Durable), digest).recv == s.recv
  {
  }

  /** The pending batch is behind: memory and file expect the next one and have lost nothing else. */
  ghost predicate MovedOn(s: System, t: System)
    requires s.mem.Some?
  {
    t.mem == Some(s.mem.value.(sequence := s.mem.value.sequence + 1, pending := [])) && t.file == t.mem
  }

  lemma Round(s: System, digest: seq<Usage> -> nat)
    requires Inv(s, digest) && s.mem.Some? && s.mem.value.pending != []
    ensures var t := Step(Step(Step(s, Transmit, digest), Deliver(Current(s.mem.value), false), digest), Acknowledge(Durable), digest);
            MovedOn(s, t) && Recorded(t.recv, Current(s.mem.value))
  {
    var cur := Current(s.mem.value);
    var sent := s.(sent := s.sent + {cur});
    assert Step(s, Transmit, digest) == sent;
    TransmitKeeps(s, digest);
    PendingConfirmable(sent, digest);
    DeliveredIsRecorded(sent, digest);
    DeliverStep(sent, cur, digest);
    AcknowledgedMoves(Step(sent, Deliver(cur, false), digest), digest);
  }

  /** The stream never stalls: in every reachable state one transmission, delivery and acknowledgement move a pending batch on. */
  lemma NeverStalls(events: seq<Event>, digest: seq<Usage> -> nat)
    requires var s := Run(INITIAL, events, digest); s.mem.Some? && s.mem.value.pending != []
    ensures var s := Run(INITIAL, events, digest);
            var t := Run(s, [Transmit, Deliver(Current(s.mem.value), false), Acknowledge(Durable)], digest);
            MovedOn(s, t) && Recorded(t.recv, Current(s.mem.value))
  {
    var s := Run(INITIAL, events, digest);
    RunKeeps(INITIAL, events, digest);
    Round(s, digest);
    RunThree(s, Transmit, Deliver(Current(s.mem.value), false), Acknowledge(Durable), digest);
  }

  lemma {:induction false} FlattenSplit(batches: seq<seq<Usage>>, n: nat)
    requires n <= |batches|
    ensures Flatten(batches) == Flatten(batches[..n]) + Flatten(batches[n..])
    decreases |batches|
  {
    if n == |batches| {
      assert batches[..n] == batches && batches[n..] == [];
    } else {
      var m := |batches| - 1;
      FlattenSplit(batches[..m], n);
      assert batches[..m][..n] == batches[..n] && batches[..m][n..] == batches[n..m];
      assert batches[n..][..m - n] == batches[n..m];
    }
  }

  /** A box and its lineage account for every byte: billed, pending, and skipped at resets. */
  ghost predicate Conserves(b: Box, line: Lineage, account: string) {
    var billed := Flatten(line.batches);
    && Received(billed, account) + Received(b.pending, account) + TrafficOutbox.Skipped(line.hist, account, RX) == Distance(line.hist, account, RX)
    && Transmitted(billed, account) + Transmitted(b.pending, account) + TrafficOutbox.Skipped(line.hist, account, TX) == Distance(line.hist, account, TX)
    && Received(billed, account) + Received(b.pending, account) <= Growth(line.hist, account, RX)
    && Transmitted(billed, account) + Transmitted(b.pending, account) <= Growth(line.hist, account, TX)
    && Lookup(b.last, account) == Latest(line.hist, account)
  }

  lemma BoxConserves(b: Box, line: Lineage, account: string)
    requires BoxOk(b, line)
    ensures Conserves(b, line, account)
  {
    Conservation(line.hist, account);
    NeverOverbilled(line.hist, account);
    SumConcat(Flatten(line.batches), b.pending, account);
    TrackLastIsLatest(line.hist, account);
  }

  /** In every reachable memory and file state, across crashes and failed saves, the account's bytes add up. */
  lemma BytesConserved(events: seq<Event>, digest: seq<Usage> -> nat, account: string)
    ensures var s := Run(INITIAL, events, digest);
            && (s.mem.Some? ==> Conserves(s.mem.value, s.memLine, account))
            && (s.file.Some? ==> Conserves(s.file.value, s.fileLine, account))
  {
    RunKeeps(INITIAL, events, digest);
    var s := Run(INITIAL, events, digest);
    if s.mem.Some? { BoxConserves(s.mem.value, s.memLine, account); }
    if s.file.Some? { BoxConserves(s.file.value, s.fileLine, account); }
  }

  /** Batches below the sequence plus the pending one are last minus first baseline. */
  ghost predicate BilledExactly(b: Box, line: Lineage, account: string) {
    && Received(Flatten(line.batches), account) + Received(b.pending, account) == Distance(line.hist, account, RX)
    && Transmitted(Flatten(line.batches), account) + Transmitted(b.pending, account) == Distance(line.hist, account, TX)
  }

  lemma MonotoneBoxExact(b: Box, line: Lineage, account: string)
    requires BoxOk(b, line) && Monotone(line.hist, account)
    ensures BilledExactly(b, line, account)
  {
    BoxConserves(b, line, account);
    MonotoneSkipsNothing(line.hist, account, RX);
    MonotoneSkipsNothing(line.hist, account, TX);
  }

  /** When the counters of an account never go backwards, nothing is lost and nothing is billed twice. */
  lemma MonotoneBytesExact(events: seq<Event>, digest: seq<Usage> -> nat, account: string)
    ensures var s := Run(INITIAL, events, digest);
            && (s.mem.Some? && Monotone(s.memLine.hist, account) ==> BilledExactly(s.mem.value, s.memLine, account))
            && (s.file.Some? && Monotone(s.fileLine.hist, account) ==> BilledExactly(s.file.value, s.fileLine, account))
  {
    RunKeeps(INITIAL, events, digest);
    var s := Run(INITIAL, events, digest);
    if s.mem.Some? && Monotone(s.memLine.hist, account) { MonotoneBoxExact(s.mem.value, s.memLine, account); }
    if s.file.Some? && Monotone(s.fileLine.hist, account) { MonotoneBoxExact(s.file.value, s.fileLine, account); }
  }

  /** What the Manager has recorded and what is still to come is, event by event, what the tracker saw. */
  lemma RecordedPlusPending(events: seq<Event>, digest: seq<Usage> -> nat)
    ensures var s := Run(INITIAL, events, digest);
            s.file.Some? ==>
              var all := Batches(s.file.value, s.fileLine);
              && |s.recv.applied| <= |all|
              && Flatten(EventsOf(s.recv.applied)) + Flatten(all[|s.recv.applied|..]) == TrackEvents(map[], s.fileLine.hist)
  {
    RunKeeps(INITIAL, events, digest);
    var s := Run(INITIAL, events, digest);
    if s.file.Some? { StandsForEvents(s.file.value, s.fileLine, s.sent, s.recv, digest); }
  }

  lemma StandsForEvents(b: Box, line: Lineage, sent: set<Batch>, recv: Receiver, digest: seq<Usage> -> nat)
    requires Stands(b, line, sent, recv, digest)
    ensures var all := Batches(b, line);
            && |recv.applied| <= |all|
            && Flatten(EventsOf(recv.applied)) + Flatten(all[|recv.applied|..]) == TrackEvents(map[], line.hist)
  {
    var all, n := Batches(b, line), |recv.applied|;
    assert EventsOf(recv.applied) == all[..n];
    FlattenSplit(all, n);
    if b.pending != [] { FlattenOne(line.batches, b.pending); }
  }

  /** Every box that was ever written can be opened again. */
  lemma FileReopens(events: seq<Event>, digest: seq<Usage> -> nat)
    ensures var s := Run(INITIAL, events, digest); s.file.Some? ==> Openable(s.file.value)
  {
    RunKeeps(INITIAL, events, digest);
  }
}
