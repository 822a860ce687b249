/**
  The Agent's traffic outbox: a counter tracker that turns snapshots into deltas, and a durable box that
  holds the baseline and at most one immutable pending batch.
 */
module TrafficOutbox {
  import opened Common

  /** Absolute counters of one account; the stamp stands for observation time and metadata. */
  datatype Snapshot = Snapshot(account: string, rx: nat, tx: nat, stamp: int)

  datatype Usage = Usage(account: string, rx: nat, tx: nat, stamp: int)

  type Baseline = map<string, Snapshot>

  /** Neither counter went backwards. */
  predicate Forward(previous: Snapshot, s: Snapshot) { previous.rx <= s.rx && previous.tx <= s.tx }

  /** What one snapshot adds to the events: nothing for a first sight, a reset or no traffic. */
  function Delta(last: Baseline, s: Snapshot): seq<Usage> {
    if s.account !in last || !Forward(last[s.account], s) then []
    else
      var p := last[s.account];
      if s.rx == p.rx && s.tx == p.tx then [] else [Usage(s.account, s.rx - p.rx, s.tx - p.tx, s.stamp)]
  }

  function TrackLast(last: Baseline, snapshots: seq<Snapshot>): Baseline
    decreases |snapshots|
  {
    if snapshots == [] then last
    else
      var n := |snapshots| - 1;
      TrackLast(last, snapshots[..n])[snapshots[n].account := snapshots[n]]
  }

  function TrackEvents(last: Baseline, snapshots: seq<Snapshot>): seq<Usage>
    decreases |snapshots|
  {
    if snapshots == [] then []
    else
      var n := |snapshots| - 1;
      TrackEvents(last, snapshots[..n]) + Delta(TrackLast(last, snapshots[..n]), snapshots[n])
  }

  class DeltaTracker {
    var last: Baseline

    constructor (baseline: Baseline)
      ensures last == baseline
    {
      last := baseline;
    }

    /** One pass over the snapshots that updates the baseline and collects the deltas. */
    method BuildUsageEvents(snapshots: seq<Snapshot>) returns (events: seq<Usage>)
      modifies this
      ensures last == TrackLast(old(last), snapshots)
      ensures events == TrackEvents(old(last), snapshots)
    {
      events := [];
      for k := 0 to |snapshots|
        invariant last == TrackLast(old(last), snapshots[..k])
        invariant events == TrackEvents(old(last), snapshots[..k])
      {
        assert snapshots[..k + 1][..k] == snapshots[..k];
        var s := snapshots[k];
        var known := s.account in last;
        var previous := if known then last[s.account] else s;
        last := last[s.account := s];
        if !known { continue; }
        var rx, tx := s.rx - previous.rx, s.tx - previous.tx;
        if rx < 0 || tx < 0 { continue; }
        if rx == 0 && tx == 0 { continue; }
        events := events + [Usage(s.account, rx, tx, s.stamp)];
      }
      assert snapshots[..|snapshots|] == snapshots;
    }
  }

  const MAX_BATCH := 1000

  datatype Box = Box(stream: nat, sequence: nat, last: Baseline, pending: seq<Usage>)

  function FreshBox(stream: nat): Box { Box(stream, 1, map[], []) }

  /** What reopening demands of the file. */
  predicate Openable(b: Box) { b.sequence >= 1 && |b.pending| <= MAX_BATCH }

  /** Memory, file and reply after an operation. */
  datatype Saved = Saved(box: Box, file: Option<Box>, ok: bool)

  /** Memory follows the file only when the save reports success; the rename may have happened all the same. */
  function Save(box: Box, next: Box, file: Option<Box>, io: WriteOutcome): Saved {
    match io
    case Durable => Saved(next, Some(next), true)
    case LostBeforeRename => Saved(box, file, false)
    case ErrorAfterRename => Saved(box, Some(next), false)
  }

  /** Only a reported success changes memory; only a write lost before the rename leaves the file. */
  ghost predicate Written(box: Box, next: Box, file: Option<Box>, io: WriteOutcome, r: Saved) {
    && (r.ok <==> io.Durable?)
    && r.box == (if io.Durable? then next else box)
    && r.file == (if io.LostBeforeRename? then file else Some(next))
  }

  function Prepared(box: Box, snapshots: seq<Snapshot>): Box {
    box.(last := TrackLast(box.last, snapshots), pending := TrackEvents(box.last, snapshots))
  }

  function PrepareBox(box: Box, file: Option<Box>, snapshots: seq<Snapshot>, io: WriteOutcome): Saved {
    if box.pending != [] then Saved(box, file, true)
    else if |TrackEvents(box.last, snapshots)| > MAX_BATCH then Saved(box, file, false)
    else Save(box, Prepared(box, snapshots), file, io)
  }

  function Acknowledged(box: Box): Box { box.(pending := [], sequence := box.sequence + 1) }

  function AcknowledgeBox(box: Box, file: Option<Box>, io: WriteOutcome): Saved {
    if box.pending == [] then Saved(box, file, true)
    else Save(box, Acknowledged(box), file, io)
  }

  /** The state file. */
  class StateFile {
    var content: Option<Box>
    constructor () ensures content == None { content := None; }
  }

  /** The outbox object; its fields are replaced only after a save that reported success. */
  class Outbox {
    const file: StateFile
    var stream: nat
    var sequence: nat
    var last: Baseline
    var pending: seq<Usage>

    function Contents(): Box reads this { Box(stream, sequence, last, pending) }

    ghost predicate Valid()
      reads this, file
    {
      Openable(Contents()) && (file.content.Some? ==> Openable(file.content.value))
    }

    /** Reopens what is durable, and starts a new stream only if nothing is. */
    constructor Open(f: StateFile, newStream: nat)
      requires f.content.Some? ==> Openable(f.content.value)
      ensures file == f && Valid()
      ensures Contents() == if f.content.Some? then f.content.value else FreshBox(newStream)
    {
      file := f;
      if f.content.Some? {
        var b := f.content.value;
        stream, sequence, last, pending := b.stream, b.sequence, b.last, b.pending;
      } else {
        stream, sequence, last, pending := newStream, 1, map[], [];
      }
    }

    /** Writes the next contents; the file may have changed even if an error is reported. */
    method SaveFile(next: Box, io: WriteOutcome) returns (ok: bool)
      modifies file
      ensures ok == io.Durable?
      ensures file.content == if io.LostBeforeRename? then old(file.content) else Some(next)
    {
      if io.LostBeforeRename? { return false; }
      file.content := Some(next);
      return io.Durable?;
    }

    /** Freezes the deltas since the baseline into a pending batch, unless one is pending already. */
    method Prepare(snapshots: seq<Snapshot>, io: WriteOutcome) returns (ok: bool)
      requires Valid()
      modifies this, file
      ensures Valid()
      ensures old(pending) != [] ==> ok && Contents() == old(Contents()) && file.content == old(file.content)
      ensures old(pending) == [] && |TrackEvents(old(last), snapshots)| > 1000 ==>
                !ok && Contents() == old(Contents()) && file.content == old(file.content)
      ensures old(pending) == [] && |TrackEvents(old(last), snapshots)| <= 1000 ==>
                Written(old(Contents()), old(Contents()).(last := TrackLast(old(last), snapshots), pending := TrackEvents(old(last), snapshots)),
                        old(file.content), io, Saved(Contents(), file.content, ok))
      ensures Saved(Contents(), file.content, ok) == PrepareBox(old(Contents()), old(file.content), snapshots, io)
    {
      if pending != [] { return true; }
      var tracker := new DeltaTracker(last);
      var events := tracker.BuildUsageEvents(snapshots);
      if |events| > MAX_BATCH { return false; }
      ok := SaveFile(Box(stream, sequence, tracker.last, events), io);
      if !ok { return; }
      last, pending := tracker.last, events;
    }

    /** Drops the acknowledged batch and moves to the next sequence. */
    method Acknowledge(io: WriteOutcome) returns (ok: bool)
      requires Valid()
      modifies this, file
      ensures Valid()
      ensures old(pending) == [] ==> ok && Contents() == old(Contents()) && file.content == old(file.content)
      ensures old(pending) != [] ==>
                Written(old(Contents()), old(Contents()).(sequence := old(sequence) + 1, pending := []),
                        old(file.content), io, Saved(Contents(), file.content, ok))
      ensures Saved(Contents(), file.content, ok) == AcknowledgeBox(old(Contents()), old(file.content), io)
    {
      if pending == [] { return true; }
      ok := SaveFile(Box(stream, sequence + 1, last, []), io);
      if !ok { return; }
      pending, sequence := [], sequence + 1;
    }
  }

  // ---------------------------------------------------------------- tracking is a fold

  lemma {:induction false} TrackLastConcat(last: Baseline, a: seq<Snapshot>, b: seq<Snapshot>)
    ensures TrackLast(last, a + b) == TrackLast(TrackLast(last, a), b)
    decreases |b|
  {
    if b == [] {
      assert a + b == a;
    } else {
      var n := |b| - 1;
      assert (a + b)[..|a| + n] == a + b[..n];
      TrackLastConcat(last, a, b[..n]);
    }
  }

  lemma Regroup(x: seq<Usage>, y: seq<Usage>, z: seq<Usage>)
    ensures (x + y) + z == x + (y + z)
  {
  }

  /** Tracking two lists one after the other is tracking both in a row. */
  lemma {:induction false} TrackConcat(last: Baseline, a: seq<Snapshot>, b: seq<Snapshot>)
    ensures TrackLast(last, a + b) == TrackLast(TrackLast(last, a), b)
    ensures TrackEvents(last, a + b) == TrackEvents(last, a) + TrackEvents(TrackLast(last, a), b)
    decreases |b|
  {
    TrackLastConcat(last, a, b);
    var mid := TrackLast(last, a);
    if b == [] {
      assert a + b == a;
      assert TrackEvents(mid, b) == [];
    } else {
      var init, s := b[..|b| - 1], b[|b| - 1];
      var delta := Delta(TrackLast(mid, init), s);
      TrackConcat(last, a, init);
      assert (a + b)[..|a + b| - 1] == a + init;
      assert TrackEvents(last, a + b) == (TrackEvents(last, a) + TrackEvents(mid, init)) + delta;
      Regroup(TrackEvents(last, a), TrackEvents(mid, init), delta);
    }
  }

  // ---------------------------------------------------------------- what an event says

  /** The event bills the way from one snapshot of its account to the next, under the stamp of the second. */
  predicate Bills(p: Snapshot, s: Snapshot, e: Usage) {
    && p.account == s.account == e.account && Forward(p, s)
    && p.rx + e.rx == s.rx && p.tx + e.tx == s.tx && 0 < e.rx + e.tx
    && e.stamp == s.stamp
  }

  /** What the tracker knows of the account of snapshot k when it gets there. */
  function PreviousOf(last: Baseline, snapshots: seq<Snapshot>, k: nat): Option<Snapshot>
    requires k < |snapshots|
  {
    Lookup(TrackLast(last, snapshots[..k]), snapshots[k].account)
  }

  /** Snapshots are filed under their own accounts. */
  ghost predicate Filed(last: Baseline) { forall a :: a in last ==> last[a].account == a }

  lemma {:induction false} TrackLastFiled(last: Baseline, snapshots: seq<Snapshot>)
    requires Filed(last)
    ensures Filed(TrackLast(last, snapshots))
    decreases |snapshots|
  {
    if snapshots != [] { TrackLastFiled(last, snapshots[..|snapshots| - 1]); }
  }

  ghost predicate EventOf(last: Baseline, snapshots: seq<Snapshot>, k: nat, e: Usage)
    requires k < |snapshots|
  {
    PreviousOf(last, snapshots, k).Some? && Bills(PreviousOf(last, snapshots, k).value, snapshots[k], e)
  }

  lemma EventOfPrefix(last: Baseline, snapshots: seq<Snapshot>, n: nat, k: nat, e: Usage)
    requires k < n <= |snapshots|
    ensures EventOf(last, snapshots[..n], k, e) <==> EventOf(last, snapshots, k, e)
  {
    assert snapshots[..n][..k] == snapshots[..k];
  }

  lemma DeltaBills(last: Baseline, s: Snapshot)
    requires Filed(last)
    ensures Delta(last, s) != [] <==> s.account in last && Forward(last[s.account], s) && last[s.account].rx + last[s.account].tx < s.rx + s.tx
    ensures Delta(last, s) != [] ==> |Delta(last, s)| == 1 && Bills(last[s.account], s, Delta(last, s)[0])
  {
  }

  /** Every event bills the way to one of the snapshots. */
  lemma {:induction false} EventsAreBills(last: Baseline, snapshots: seq<Snapshot>, j: nat) returns (k: nat)
    requires Filed(last) && j < |TrackEvents(last, snapshots)|
    ensures k < |snapshots| && EventOf(last, snapshots, k, TrackEvents(last, snapshots)[j])
    decreases |snapshots|
  {
    var n := |snapshots| - 1;
    var before := TrackEvents(last, snapshots[..n]);
    if j < |before| {
      k := EventsAreBills(last, snapshots[..n], j);
      EventOfPrefix(last, snapshots, n, k, before[j]);
    } else {
      k := n;
      TrackLastFiled(last, snapshots[..n]);
      DeltaBills(TrackLast(last, snapshots[..n]), snapshots[n]);
    }
  }

  /** Every snapshot that moves its account's counters forward has its event. */
  lemma {:induction false} ForwardIsBilled(last: Baseline, snapshots: seq<Snapshot>, k: nat) returns (j: nat)
    requires Filed(last) && k < |snapshots| && PreviousOf(last, snapshots, k).Some?
    requires var p, s := PreviousOf(last, snapshots, k).value, snapshots[k]; Forward(p, s) && p.rx + p.tx < s.rx + s.tx
    ensures j < |TrackEvents(last, snapshots)| && EventOf(last, snapshots, k, TrackEvents(last, snapshots)[j])
    decreases |snapshots|
  {
    var n := |snapshots| - 1;
    var before := TrackEvents(last, snapshots[..n]);
    if k < n {
      assert snapshots[..n][..k] == snapshots[..k];
      j := ForwardIsBilled(last, snapshots[..n], k);
      EventOfPrefix(last, snapshots, n, k, before[j]);
    } else {
      j := LastIsBilled(last, snapshots);
    }
  }

  lemma LastIsBilled(last: Baseline, snapshots: seq<Snapshot>) returns (j: nat)
    requires Filed(last) && snapshots != [] && PreviousOf(last, snapshots, |snapshots| - 1).Some?
    requires var p, s := PreviousOf(last, snapshots, |snapshots| - 1).value, snapshots[|snapshots| - 1];
             Forward(p, s) && p.rx + p.tx < s.rx + s.tx
    ensures j < |TrackEvents(last, snapshots)| && EventOf(last, snapshots, |snapshots| - 1, TrackEvents(last, snapshots)[j])
  {
    var n := |snapshots| - 1;
    var tracked := TrackLast(last, snapshots[..n]);
    j := |TrackEvents(last, snapshots[..n])|;
    TrackLastFiled(last, snapshots[..n]);
    DeltaBills(tracked, snapshots[n]);
    assert TrackEvents(last, snapshots)[j] == Delta(tracked, snapshots[n])[0];
  }

  // ---------------------------------------------------------------- conservation

  /** Bytes received by an account in a list of events. */
  function Received(events: seq<Usage>, account: string): nat
    decreases |events|
  {
    if events == [] then 0
    else Received(events[..|events| - 1], account) + (if events[|events| - 1].account == account then events[|events| - 1].rx else 0)
  }

  function Transmitted(events: seq<Usage>, account: string): nat
    decreases |events|
  {
    if events == [] then 0
    else Transmitted(events[..|events| - 1], account) + (if events[|events| - 1].account == account then events[|events| - 1].tx else 0)
  }

  lemma {:induction false} SumConcat(a: seq<Usage>, b: seq<Usage>, account: string)
    ensures Received(a + b, account) == Received(a, account) + Received(b, account)
    ensures Transmitted(a + b, account) == Transmitted(a, account) + Transmitted(b, account)
    decreases |b|
  {
    if b == [] { assert a + b == a; }
    else {
      var n := |b| - 1;
      assert (a + b)[..|a| + n] == a + b[..n] && (a + b)[|a| + n] == b[n];
      SumConcat(a, b[..n], account);
    }
  }

  /** The first snapshot of an account, which sets its baseline. */
  function First(hist: seq<Snapshot>, account: string): Option<Snapshot>
    decreases |hist|
  {
    if hist == [] then None
    else
      var f := First(hist[..|hist| - 1], account);
      if f.Some? then f else if hist[|hist| - 1].account == account then Some(hist[|hist| - 1]) else None
  }

  function Latest(hist: seq<Snapshot>, account: string): Option<Snapshot>
    decreases |hist|
  {
    if hist == [] then None
    else if hist[|hist| - 1].account == account then Some(hist[|hist| - 1])
    else Latest(hist[..|hist| - 1], account)
  }

  /** The signed change of a counter over the steps that are not billed because a counter went backwards. */
  function Skipped(hist: seq<Snapshot>, account: string, value: Snapshot -> int): int
    decreases |hist|
  {
    if hist == [] then 0
    else
      var n := |hist| - 1;
      var p := Latest(hist[..n], account);
      Skipped(hist[..n], account, value) +
      (if hist[n].account == account && p.Some? && !Forward(p.value, hist[n]) then value(hist[n]) - value(p.value) else 0)
  }

  /** Everything a counter ever grew by, step by step. */
  function Growth(hist: seq<Snapshot>, account: string, value: Snapshot -> int): int
    decreases |hist|
  {
    if hist == [] then 0
    else
      var n := |hist| - 1;
      var p := Latest(hist[..n], account);
      Growth(hist[..n], account, value) +
      (if hist[n].account == account && p.Some? && value(p.value) < value(hist[n]) then value(hist[n]) - value(p.value) else 0)
  }

  /** No step of the account's history runs backwards. */
  ghost predicate Monotone(hist: seq<Snapshot>, account: string)
    decreases |hist|
  {
    hist == [] ||
    (var n := |hist| - 1; var p := Latest(hist[..n], account);
     Monotone(hist[..n], account) && (hist[n].account == account && p.Some? ==> Forward(p.value, hist[n])))
  }

  lemma {:induction false} TrackLastIsLatest(hist: seq<Snapshot>, account: string)
    ensures Lookup(TrackLast(map[], hist), account) == Latest(hist, account)
    decreases |hist|
  {
    if hist != [] { TrackLastIsLatest(hist[..|hist| - 1], account); }
  }

  lemma {:induction false} FirstAndLatest(hist: seq<Snapshot>, account: string)
    ensures First(hist, account).Some? <==> Latest(hist, account).Some?
    decreases |hist|
  {
    if hist != [] { FirstAndLatest(hist[..|hist| - 1], account); }
  }

  const RX: Snapshot -> int := (s: Snapshot) => s.rx
  const TX: Snapshot -> int := (s: Snapshot) => s.tx

  /** How far a counter is from the baseline. */
  function Distance(hist: seq<Snapshot>, account: string, value: Snapshot -> int): int {
    if First(hist, account).Some? && Latest(hist, account).Some?
    then value(Latest(hist, account).value) - value(First(hist, account).value) else 0
  }

  /** One more snapshot, as far as one account is concerned. */
  lemma DeltaSum(last: Baseline, s: Snapshot, account: string)
    ensures var d := Delta(last, s);
            && Received(d, account) == (if s.account == account && account in last && Forward(last[account], s) then s.rx - last[account].rx else 0)
            && Transmitted(d, account) == (if s.account == account && account in last && Forward(last[account], s) then s.tx - last[account].tx else 0)
  {
    var d := Delta(last, s);
    if d != [] { assert d[..0] == []; }
  }

  /** Billed bytes plus the change over unbilled steps is the distance from the baseline. */
  lemma {:induction false} Conservation(hist: seq<Snapshot>, account: string)
    ensures var events := TrackEvents(map[], hist);
            && Received(events, account) + Skipped(hist, account, RX) == Distance(hist, account, RX)
            && Transmitted(events, account) + Skipped(hist, account, TX) == Distance(hist, account, TX)
    decreases |hist|
  {
    if hist != [] {
      var n := |hist| - 1;
      var before, last := TrackEvents(map[], hist[..n]), TrackLast(map[], hist[..n]);
      Conservation(hist[..n], account);
      SumConcat(before, Delta(last, hist[n]), account);
      DeltaSum(last, hist[n], account);
      TrackLastIsLatest(hist[..n], account);
      FirstAndLatest(hist[..n], account);
    }
  }

  /** Nothing is ever billed that the counters did not grow by. */
  lemma {:induction false} NeverOverbilled(hist: seq<Snapshot>, account: string)
    ensures var events := TrackEvents(map[], hist);
            Received(events, account) <= Growth(hist, account, RX) && Transmitted(events, account) <= Growth(hist, account, TX)
    decreases |hist|
  {
    if hist != [] {
      var n := |hist| - 1;
      var before, last := TrackEvents(map[], hist[..n]), TrackLast(map[], hist[..n]);
      NeverOverbilled(hist[..n], account);
      SumConcat(before, Delta(last, hist[n]), account);
      DeltaSum(last, hist[n], account);
      TrackLastIsLatest(hist[..n], account);
    }
  }

  lemma {:induction false} MonotoneSkipsNothing(hist: seq<Snapshot>, account: string, value: Snapshot -> int)
    requires Monotone(hist, account)
    ensures Skipped(hist, account, value) == 0
    decreases |hist|
  {
    if hist != [] { MonotoneSkipsNothing(hist[..|hist| - 1], account, value); }
  }
}
