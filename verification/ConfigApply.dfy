/**
  The multi-runtime configuration transaction: stage and validate every runtime, promote all of them,
  restart and check them, and roll the promoted files back in reverse order on any failure. What the
  disk, the validators and the services answer is an arbitrary environment.
 */
module ConfigApply {
  import opened Common
  import opened AdapterSelection

  /** The files of the transaction; that different constructors never collide is a premise of the model. */
  datatype Path =
    | Active(slot: Slot)
    | Backup(slot: Slot, version: string)
    | Staged(slot: Slot, version: string)
    | Temp(of: Path)

  datatype ApplyResult = ApplyResult(slot: Slot, backup: Option<Path>)

  /** A runtime with the bytes that were staged for it and, once promoted, what the promotion recorded. */
  datatype Runtime = Runtime(slot: Slot, candidate: string, applied: Option<ApplyResult>)

  datatype Stage = SelectStage | StageStage | ValidateStage | ApplyStage | RestartStage | ActiveStage | PersistenceStage | ListenerStage

  datatype RollbackStatus = NotAttempted | RollbackSkipped | RollbackSucceeded | RollbackFailed

  datatype Outcome = Applied(serviceControlSkipped: bool) | FailedAt(stage: Stage, rollback: RollbackStatus)

  /** What a runtime leaves in its staging directory. */
  datatype Staging = StagedBytes(bytes: string) | StagingFailed(leftover: Option<string>)

  /** How an atomic copy ends; a failed one may keep its temporary file. */
  datatype Fault = NoFault | OpenFault | WriteFault(written: string, kept: bool) | RenameFault(kept: bool)

  /** What the disk answers to a promotion. */
  datatype Promotion = Promotion(dirsOk: bool, inspectOk: bool, backup: Fault, promote: Fault)

  /** What the disk answers to a rollback, and whether the restored service restarts, or the new one stops. */
  datatype Recovery = Recovery(dirOk: bool, copy: Fault, removeOk: bool, serviceOk: bool)

  /** Every question of one transaction is asked at most once per runtime, so the answers are functions of the runtime. */
  datatype Environment = Environment(
    staging: Slot -> Staging,
    valid: (Slot, string) -> bool,
    promotion: Slot -> Promotion,
    restarts: Slot -> bool,
    active: Slot -> bool,
    enabled: Slot -> bool,
    listens: Slot -> bool,
    recovery: Slot -> Recovery)

  // ---------------------------------------------------------------- what goes wrong first

  /** The runtime stages a candidate that its validator accepts. */
  predicate Fit(env: Environment, s: Slot) { env.staging(s).StagedBytes? && env.valid(s, env.staging(s).bytes) }

  predicate Promotes(p: Promotion, blankVersion: bool, existed: bool) {
    !blankVersion && p.dirsOk && p.inspectOk && (existed ==> p.backup.NoFault?) && p.promote.NoFault?
  }

  predicate Recovers(r: Recovery, existed: bool) {
    (if existed then r.dirOk && r.copy.NoFault? else r.removeOk) && r.serviceOk
  }

  /** The service restarts, is active, is enabled, and its listener answers. */
  predicate Passes(env: Environment, s: Slot) { env.restarts(s) && env.active(s) && env.enabled(s) && env.listens(s) }

  /** The runtime was not promoted, or recovers. */
  predicate RecoversIn(r: Runtime, env: Environment, before: map<Path, string>) {
    r.applied.Some? ==> Recovers(env.recovery(r.slot), Active(r.slot) in before)
  }

  /** The first of the four checks that fails. */
  predicate FailsCheck(env: Environment, s: Slot, stage: Stage) {
    match stage
    case RestartStage => !env.restarts(s)
    case ActiveStage => env.restarts(s) && !env.active(s)
    case PersistenceStage => env.restarts(s) && env.active(s) && !env.enabled(s)
    case ListenerStage => env.restarts(s) && env.active(s) && env.enabled(s) && !env.listens(s)
    case _ => false
  }

  ghost predicate AllFit(slots: seq<Slot>, n: nat, env: Environment)
    requires n <= |slots|
  {
    forall i :: 0 <= i < n ==> Fit(env, slots[i])
  }

  ghost predicate PromotesAt(slots: seq<Slot>, i: nat, env: Environment, blankVersion: bool, before: map<Path, string>)
    requires i < |slots|
  {
    Promotes(env.promotion(slots[i]), blankVersion, Active(slots[i]) in before)
  }

  ghost predicate AllPromote(slots: seq<Slot>, n: nat, env: Environment, blankVersion: bool, before: map<Path, string>)
    requires n <= |slots|
  {
    forall i :: 0 <= i < n ==> PromotesAt(slots, i, env, blankVersion, before)
  }

  ghost predicate AllPass(slots: seq<Slot>, n: nat, env: Environment)
    requires n <= |slots|
  {
    forall i :: 0 <= i < n ==> Passes(env, slots[i])
  }

  ghost predicate AllRecover(slots: seq<Slot>, n: nat, env: Environment, before: map<Path, string>)
    requires n <= |slots|
  {
    forall i :: 0 <= i < n ==> Recovers(env.recovery(slots[i]), Active(slots[i]) in before)
  }

  /** What a rollback of the first n runtimes reports. */
  ghost function RollbackOf(slots: seq<Slot>, n: nat, env: Environment, before: map<Path, string>): RollbackStatus
    requires n <= |slots|
  {
    if n == 0 then RollbackSkipped else if AllRecover(slots, n, env, before) then RollbackSucceeded else RollbackFailed
  }

  /** Runtime k is the first whose candidate cannot be staged, or is not valid. */
  ghost predicate StopsStaging(slots: seq<Slot>, k: nat, env: Environment, stage: Stage) {
    && k < |slots| && AllFit(slots, k, env)
    && match stage
       case StageStage => env.staging(slots[k]).StagingFailed?
       case ValidateStage => env.staging(slots[k]).StagedBytes? && !env.valid(slots[k], env.staging(slots[k]).bytes)
       case _ => false
  }

  ghost predicate StopsPromotion(slots: seq<Slot>, k: nat, env: Environment, blankVersion: bool, before: map<Path, string>) {
    k < |slots| && AllPromote(slots, k, env, blankVersion, before) && !PromotesAt(slots, k, env, blankVersion, before)
  }

  ghost predicate StopsChecks(slots: seq<Slot>, k: nat, env: Environment, stage: Stage) {
    k < |slots| && AllPass(slots, k, env) && FailsCheck(env, slots[k], stage)
  }

  /** The outcome names the first thing that goes wrong and how the rollback went, or says that nothing did. */
  ghost predicate Explains(o: Outcome, slots: seq<Slot>, env: Environment, blankVersion: bool, control: bool, before: map<Path, string>) {
    match o
    case Applied(skipped) =>
      && slots != [] && AllFit(slots, |slots|, env) && AllPromote(slots, |slots|, env, blankVersion, before)
      && skipped == !control && (control ==> AllPass(slots, |slots|, env))
    case FailedAt(stage, rollback) =>
      match stage
      case SelectStage => slots == [] && rollback.NotAttempted?
      case StageStage => rollback.NotAttempted? && exists k :: StopsStaging(slots, k, env, stage)
      case ValidateStage => rollback.NotAttempted? && exists k :: StopsStaging(slots, k, env, stage)
      case ApplyStage =>
        AllFit(slots, |slots|, env)
        && exists k :: StopsPromotion(slots, k, env, blankVersion, before) && rollback == RollbackOf(slots, k, env, before)
      case _ =>
        && control && AllFit(slots, |slots|, env) && AllPromote(slots, |slots|, env, blankVersion, before)
        && rollback == RollbackOf(slots, |slots|, env, before) && exists k :: StopsChecks(slots, k, env, stage)
  }

  /** The same answers explain one outcome only, so a negative answer leads to its own stage and no other. */
  lemma ExplainsOne(o: Outcome, p: Outcome, slots: seq<Slot>, env: Environment, blankVersion: bool, control: bool, before: map<Path, string>)
    requires Explains(o, slots, env, blankVersion, control, before) && Explains(p, slots, env, blankVersion, control, before)
    ensures o == p
  {
    if o.FailedAt? && p.FailedAt? {
      StagingStopsOnce(slots, env, o.stage, p.stage);
      if o.stage.ApplyStage? && p.stage.ApplyStage? { PromotionStopsOnce(slots, env, blankVersion, before); }
      ChecksStopOnce(slots, env, o.stage, p.stage);
    }
  }

  lemma StagingStopsOnce(slots: seq<Slot>, env: Environment, stage: Stage, stage': Stage)
    ensures (exists k :: StopsStaging(slots, k, env, stage)) ==> !AllFit(slots, |slots|, env)
    ensures (exists k :: StopsStaging(slots, k, env, stage)) && (exists k :: StopsStaging(slots, k, env, stage')) ==> stage == stage'
  {
    if k, l :| StopsStaging(slots, k, env, stage) && StopsStaging(slots, l, env, stage') { assert k == l; }
  }

  lemma PromotionStopsOnce(slots: seq<Slot>, env: Environment, blankVersion: bool, before: map<Path, string>)
    ensures forall k, l :: StopsPromotion(slots, k, env, blankVersion, before) && StopsPromotion(slots, l, env, blankVersion, before) ==> k == l
  {
  }

  lemma ChecksStopOnce(slots: seq<Slot>, env: Environment, stage: Stage, stage': Stage)
    ensures (exists k :: StopsChecks(slots, k, env, stage)) && (exists k :: StopsChecks(slots, k, env, stage')) ==> stage == stage'
  {
    if k, l :| StopsChecks(slots, k, env, stage) && StopsChecks(slots, l, env, stage') { assert k == l; }
  }

  ghost predicate DistinctSlots(rs: seq<Runtime>) {
    forall i, k :: 0 <= i < k < |rs| ==> rs[i].slot != rs[k].slot
  }

  /** One of the first n runtimes is kept in the slot. */
  ghost predicate Uses(rs: seq<Runtime>, n: nat, slot: Slot)
    requires n <= |rs|
  {
    exists i :: 0 <= i < n && rs[i].slot == slot
  }

  /** The promotion recorded what it takes to bring the previous file, or its absence, back. */
  ghost predicate Restorable(r: Runtime, version: string, before: map<Path, string>, now: map<Path, string>) {
    && r.applied.Some? && r.applied.value.slot == r.slot
    && match r.applied.value.backup
       case None => Active(r.slot) !in before
       case Some(b) => b == Backup(r.slot, version) && Active(r.slot) in before && Lookup(now, b) == Some(before[Active(r.slot)])
  }

  /** Everything except the named files is as it was. */
  ghost predicate OnlyTouches(touched: set<Path>, before: map<Path, string>, now: map<Path, string>) {
    forall p :: p !in touched ==> Lookup(now, p) == Lookup(before, p)
  }

  /** Every active file holds what it held before or, in full, what was candidate for it. */
  ghost predicate NoTornFile(rs: seq<Runtime>, before: map<Path, string>, now: map<Path, string>) {
    forall i :: 0 <= i < |rs| ==>
      Lookup(now, Active(rs[i].slot)) == Lookup(before, Active(rs[i].slot)) || Lookup(now, Active(rs[i].slot)) == Some(rs[i].candidate)
  }

  class Disk {
    var files: map<Path, string>

    constructor (initial: map<Path, string>)
      ensures files == initial
    {
      files := initial;
    }

    /** An atomic copy through a temporary file: on any error the destination is untouched. */
    method CopyAtomic(src: Path, dst: Path, fault: Fault) returns (ok: bool)
      requires !src.Temp? && !dst.Temp?
      modifies this
      ensures OnlyTouches({dst, Temp(dst)}, old(files), files)
      ensures ok <==> src in old(files) && fault.NoFault?
      ensures ok ==> Lookup(files, dst) == Some(old(files)[src])
      ensures !ok ==> Lookup(files, dst) == old(Lookup(files, dst))
    {
      if src !in files || fault.OpenFault? { return false; }
      var content := files[src];
      files := files[Temp(dst) := if fault.WriteFault? then fault.written else content];
      if !fault.NoFault? {
        if !fault.kept { files := files - {Temp(dst)}; }
        return false;
      }
      files := (files - {Temp(dst)})[dst := content];
      return true;
    }

    /** Promotes a staged file, keeping the previous one in the backup directory. */
    method Apply(slot: Slot, version: string, blankVersion: bool, answers: Promotion) returns (r: Result<ApplyResult>)
      modifies this
      ensures OnlyTouches(TouchedBy(slot, version), old(files), files)
      ensures r.Ok? <==> Staged(slot, version) in old(files) && Promotes(answers, blankVersion, Active(slot) in old(files))
      ensures r.Err? ==> Lookup(files, Active(slot)) == old(Lookup(files, Active(slot)))
      ensures r.Ok? ==> Lookup(files, Active(slot)) == Some(old(files)[Staged(slot, version)])
      ensures r.Ok? ==> forall bytes :: Restorable(Runtime(slot, bytes, Some(r.value)), version, old(files), files)
    {
      if blankVersion { return Err("config version id is required"); }
      if Staged(slot, version) !in files || !answers.dirsOk { return Err("prepare apply"); }
      var backup: Option<Path> := None;
      if !answers.inspectOk { return Err("inspect active config"); }
      if Active(slot) in files {
        var copied := CopyAtomic(Active(slot), Backup(slot, version), answers.backup);
        if !copied { return Err("backup active config"); }
        backup := Some(Backup(slot, version));
      }
      assert Lookup(files, Staged(slot, version)) == old(Lookup(files, Staged(slot, version)));
      ghost var saved := Lookup(files, Backup(slot, version));
      var promoted := CopyAtomic(Staged(slot, version), Active(slot), answers.promote);
      assert Lookup(files, Backup(slot, version)) == saved;
      if !promoted { return Err("promote staged config"); }
      return Ok(ApplyResult(slot, backup));
    }

    /** Restores the previous file, or removes one that the promotion introduced. */
    method RollbackApply(a: ApplyResult, answers: Recovery) returns (ok: bool)
      requires a.backup.Some? ==> a.backup.value.Backup?
      modifies this
      ensures OnlyTouches({Active(a.slot), Temp(Active(a.slot))}, old(files), files)
      ensures ok <==> if a.backup.Some? then a.backup.value in old(files) && answers.dirOk && answers.copy.NoFault?
                      else answers.removeOk || Active(a.slot) !in old(files)
      ensures ok && a.backup.Some? ==> Lookup(files, Active(a.slot)) == old(Lookup(files, a.backup.value))
      ensures ok && a.backup.None? ==> Active(a.slot) !in files
      ensures !ok ==> Lookup(files, Active(a.slot)) == old(Lookup(files, Active(a.slot)))
    {
      if a.backup.Some? {
        if a.backup.value !in files || !answers.dirOk { return false; }
        ok := CopyAtomic(a.backup.value, Active(a.slot), answers.copy);
      } else {
        if !answers.removeOk && Active(a.slot) in files { return false; }
        files := files - {Active(a.slot)};
        return true;
      }
    }

    /** A runtime writes its candidate into its own staging directory. */
    method StageRuntime(slot: Slot, version: string, answer: Staging) returns (ok: bool)
      modifies this
      ensures OnlyTouches({Staged(slot, version), Temp(Staged(slot, version))}, old(files), files)
      ensures ok <==> answer.StagedBytes?
      ensures ok ==> Lookup(files, Staged(slot, version)) == Some(answer.bytes)
    {
      match answer
      case StagingFailed(leftover) =>
        if leftover.Some? { files := files[Temp(Staged(slot, version)) := leftover.value]; }
        return false;
      case StagedBytes(bytes) =>
        files := files[Staged(slot, version) := bytes];
        return true;
    }

    /** Restores the file of one promoted runtime and restarts its service, or stops one that was new. */
    method RollbackOne(item: Runtime, version: string, env: Environment, ghost before: map<Path, string>) returns (recovered: bool)
      requires Active(item.slot) in files && Restorable(item, version, before, files)
      modifies this
      ensures OnlyTouches({Active(item.slot), Temp(Active(item.slot))}, old(files), files)
      ensures recovered <==> RecoversIn(item, env, before)
      ensures recovered ==> Lookup(files, Active(item.slot)) == Lookup(before, Active(item.slot))
      ensures Lookup(files, Active(item.slot)) == old(Lookup(files, Active(item.slot))) ||
              Lookup(files, Active(item.slot)) == Lookup(before, Active(item.slot))
    {
      var answers := env.recovery(item.slot);
      recovered := RollbackApply(item.applied.value, answers);
      if recovered && !answers.serviceOk { return false; }
    }

    /**
      Rolls promoted runtimes back in reverse order and keeps going after a failure. It fails exactly if some
      runtime does not recover; otherwise every one of them has its previous file, or none as before.
     */
    method RollbackRuntimes(rs: seq<Runtime>, version: string, env: Environment, ghost before: map<Path, string>) returns (status: RollbackStatus)
      requires DistinctSlots(rs)
      requires forall i :: 0 <= i < |rs| && rs[i].applied.Some? ==> Active(rs[i].slot) in files && Restorable(rs[i], version, before, files)
      requires forall i :: 0 <= i < |rs| && rs[i].applied.None? ==> Lookup(files, Active(rs[i].slot)) == Lookup(before, Active(rs[i].slot))
      modifies this
      ensures !status.NotAttempted? && (status.RollbackSkipped? <==> rs == [])
      ensures status.RollbackFailed? <==> exists i :: 0 <= i < |rs| && !RecoversIn(rs[i], env, before)
      ensures !status.RollbackFailed? ==> forall i :: 0 <= i < |rs| ==> Lookup(files, Active(rs[i].slot)) == Lookup(before, Active(rs[i].slot))
      ensures forall s :: Lookup(files, Active(s)) == old(Lookup(files, Active(s))) ||
                          (Uses(rs, |rs|, s) && Lookup(files, Active(s)) == Lookup(before, Active(s)))
    {
      if rs == [] { return RollbackSkipped; }
      status := RollbackSucceeded;
      ghost var start := files;
      var index := |rs|;
      while index > 0
        invariant 0 <= index <= |rs|
        invariant status.RollbackSucceeded? || status.RollbackFailed?
        invariant forall i :: 0 <= i < index ==> Lookup(files, Active(rs[i].slot)) == Lookup(start, Active(rs[i].slot))
        invariant forall s, v :: Lookup(files, Backup(s, v)) == Lookup(start, Backup(s, v))
        invariant forall s :: Lookup(files, Active(s)) == Lookup(start, Active(s)) ||
                              (Uses(rs, |rs|, s) && Lookup(files, Active(s)) == Lookup(before, Active(s)))
        invariant status.RollbackSucceeded? <==> forall i :: index <= i < |rs| ==> RecoversIn(rs[i], env, before)
        invariant status.RollbackSucceeded? ==>
                    forall i :: index <= i < |rs| ==> Lookup(files, Active(rs[i].slot)) == Lookup(before, Active(rs[i].slot))
      {
        index := index - 1;
        var item := rs[index];
        assert Uses(rs, |rs|, item.slot);
        if item.applied.None? { continue; }
        assert Restorable(item, version, before, start);
        var recovered := RollbackOne(item, version, env, before);
        if !recovered { status := RollbackFailed; }
      }
    }

    /** Stages and validates the selected runtimes until one does not fit; no active file is touched. */
    method PrepareRuntimes(adapters: seq<Adapter>, version: string, env: Environment) returns (rs: seq<Runtime>, failed: Option<Stage>)
      requires forall i, k :: 0 <= i < k < |adapters| ==> Storage(adapters[i].core) != Storage(adapters[k].core)
      modifies this
      ensures forall s :: Lookup(files, Active(s)) == old(Lookup(files, Active(s)))
      ensures |rs| <= |adapters| && forall i :: 0 <= i < |rs| ==> rs[i].slot == Storage(adapters[i].core) && rs[i].applied.None?
      ensures forall i :: 0 <= i < |rs| ==> env.staging(rs[i].slot) == StagedBytes(rs[i].candidate)
      ensures failed.Some? ==> exists k :: StopsStaging(StorageOf(adapters), k, env, failed.value)
      ensures failed.None? ==> AllFit(StorageOf(adapters), |adapters|, env)
      ensures failed.None? ==> |rs| == |adapters| && forall i :: 0 <= i < |rs| ==> Lookup(files, Staged(rs[i].slot, version)) == Some(rs[i].candidate)
    {
      rs := [];
      for k := 0 to |adapters|
        invariant |rs| == k
        invariant forall s :: Lookup(files, Active(s)) == old(Lookup(files, Active(s)))
        invariant forall i :: 0 <= i < k ==> rs[i].slot == Storage(adapters[i].core) && rs[i].applied.None?
        invariant forall i :: 0 <= i < k ==> env.staging(rs[i].slot) == StagedBytes(rs[i].candidate)
        invariant forall i :: 0 <= i < k ==> Lookup(files, Staged(rs[i].slot, version)) == Some(rs[i].candidate)
        invariant AllFit(StorageOf(adapters), k, env)
      {
        var slot := Storage(adapters[k].core);
        assert slot == StorageOf(adapters)[k];
        var staged := StageRuntime(slot, version, env.staging(slot));
        if !staged {
          assert StopsStaging(StorageOf(adapters), k, env, StageStage);
          return rs, Some(StageStage);
        }
        var candidate := files[Staged(slot, version)];
        rs := rs + [Runtime(slot, candidate, None)];
        if !env.valid(slot, candidate) {
          assert StopsStaging(StorageOf(adapters), k, env, ValidateStage);
          return rs, Some(ValidateStage);
        }
      }
      failed := None;
    }

    /** Promotes the next runtime. */
    method PromoteNext(rs: seq<Runtime>, n: nat, version: string, blankVersion: bool, env: Environment, ghost before: map<Path, string>)
      returns (rs': seq<Runtime>, ok: bool)
      requires n < |rs| && DistinctSlots(rs) && Promoted(rs, n, version, before, files)
      modifies this
      ensures |rs'| == |rs| && forall i :: 0 <= i < |rs| ==> rs'[i].slot == rs[i].slot && rs'[i].candidate == rs[i].candidate
      ensures ok <==> Promotes(env.promotion(rs[n].slot), blankVersion, Active(rs[n].slot) in before)
      ensures ok ==> Promoted(rs', n + 1, version, before, files)
      ensures !ok ==> rs' == rs && PartlyPromoted(rs, n, version, before, files)
    {
      ghost var start := files;
      assert !Uses(rs, n, rs[n].slot);
      var r := Apply(rs[n].slot, version, blankVersion, env.promotion(rs[n].slot));
      if r.Err? {
        NotPromotedNext(rs, n, version, before, start, files);
        return rs, false;
      }
      assert Restorable(Runtime(rs[n].slot, rs[n].candidate, Some(r.value)), version, start, files);
      PromotedNext(rs, n, version, before, start, files, r.value);
      return rs[n := rs[n].(applied := Some(r.value))], true;
    }

    /** Rolls the first n runtimes, which are promoted, back. */
    method RollbackPromoted(rs: seq<Runtime>, n: nat, ghost slots: seq<Slot>, version: string, env: Environment, ghost before: map<Path, string>)
      returns (status: RollbackStatus)
      requires n <= |rs| && DistinctSlots(rs) && PartlyPromoted(rs, n, version, before, files) && slots == SlotsOf(rs)
      modifies this
      ensures status == RollbackOf(slots, n, env, before)
      ensures !status.RollbackFailed? ==> forall s :: Lookup(files, Active(s)) == Lookup(before, Active(s))
      ensures NoTornFile(rs, before, files)
      ensures forall s :: !Uses(rs, n, s) ==> Lookup(files, Active(s)) == Lookup(before, Active(s))
    {
      status := RollbackRuntimes(rs[..n], version, env, before);
      SameUses(rs, rs[..n], n);
      assert forall i :: n <= i < |rs| ==> !Uses(rs, n, rs[i].slot);
      RollbackMeans(rs[..n], slots, status, env, before);
    }

    /** Promotes every runtime, or rolls the promoted ones back. */
    method PromoteAll(rs: seq<Runtime>, version: string, blankVersion: bool, env: Environment, ghost before: map<Path, string>)
      returns (rs': seq<Runtime>, failure: Option<RollbackStatus>)
      requires DistinctSlots(rs) && Promoted(rs, 0, version, before, files)
      modifies this
      ensures |rs'| == |rs| && forall i :: 0 <= i < |rs| ==> rs'[i].slot == rs[i].slot && rs'[i].candidate == rs[i].candidate
      ensures failure.None? ==> AllPromote(SlotsOf(rs), |rs|, env, blankVersion, before) && Promoted(rs', |rs'|, version, before, files)
      ensures failure.Some? ==>
                exists k :: StopsPromotion(SlotsOf(rs), k, env, blankVersion, before) && failure.value == RollbackOf(SlotsOf(rs), k, env, before)
      ensures NoTornFile(rs', before, files)
      ensures failure.Some? && !failure.value.RollbackFailed? ==> forall s :: Lookup(files, Active(s)) == Lookup(before, Active(s))
      ensures forall s :: !Uses(rs, |rs|, s) ==> Lookup(files, Active(s)) == Lookup(before, Active(s))
    {
      rs' := rs;
      ghost var slots := SlotsOf(rs);
      for n := 0 to |rs|
        invariant |rs'| == |rs| && forall i :: 0 <= i < |rs| ==> rs'[i].slot == rs[i].slot && rs'[i].candidate == rs[i].candidate
        invariant DistinctSlots(rs') && Promoted(rs', n, version, before, files)
        invariant AllPromote(slots, n, env, blankVersion, before)
      {
        var ok: bool;
        rs', ok := PromoteNext(rs', n, version, blankVersion, env, before);
        assert ok <==> PromotesAt(slots, n, env, blankVersion, before);
        SameSlotsDistinct(rs, rs');
        if !ok {
          var status := RollbackPromoted(rs', n, slots, version, env, before);
          SameUses(rs, rs', |rs|);
          assert StopsPromotion(slots, n, env, blankVersion, before);
          return rs', Some(status);
        }
      }
      SameUses(rs, rs', |rs|);
      PromotedNotTorn(rs', version, before, files);
      failure := None;
    }

    /** Restarts and checks the runtimes one by one and reports the first check that fails. */
    method CheckRuntimes(rs: seq<Runtime>, env: Environment) returns (failed: Option<Stage>)
      ensures failed.None? <==> AllPass(SlotsOf(rs), |rs|, env)
      ensures failed.Some? ==> exists k :: StopsChecks(SlotsOf(rs), k, env, failed.value)
    {
      for k := 0 to |rs|
        invariant AllPass(SlotsOf(rs), k, env)
      {
        var slot := rs[k].slot;
        assert SlotsOf(rs)[k] == slot;
        if !env.restarts(slot) { failed := Some(RestartStage); }
        else if !env.active(slot) { failed := Some(ActiveStage); }
        else if !env.enabled(slot) { failed := Some(PersistenceStage); }
        else if !env.listens(slot) { failed := Some(ListenerStage); }
        else { continue; }
        assert StopsChecks(SlotsOf(rs), k, env, failed.value);
        return;
      }
      return None;
    }

    /**
      The whole transaction is all or nothing: after success every selected runtime's active file holds the
      bytes that its validator accepted, and after a failure whose rollback did not fail every active file is
      as before. The outcome names the first thing that went wrong. A runtime that is not selected is never
      touched, and no outcome leaves a partial file.
     */
    method ProcessConfigApply(descriptors: seq<Descriptor>, candidates: seq<Option<Adapter>>, blank: string -> bool,
                              version: string, serviceControl: bool, env: Environment) returns (outcome: Outcome, rs: seq<Runtime>)
      requires candidates != [] && forall c :: c in candidates && c.Some? ==> c.value.core in MANAGED_CORES
      modifies this
      ensures Explains(outcome, SelectedSlots(descriptors, candidates, blank), env, blank(version), serviceControl, old(files))
      ensures outcome.Applied? ==>
                && SlotsOf(rs) == SelectedSlots(descriptors, candidates, blank) && DistinctSlots(rs)
                && forall i :: 0 <= i < |rs| ==> Lookup(files, Active(rs[i].slot)) == Some(rs[i].candidate) && env.valid(rs[i].slot, rs[i].candidate)
      ensures outcome.FailedAt? && !outcome.rollback.RollbackFailed? ==>
                forall s :: Lookup(files, Active(s)) == old(Lookup(files, Active(s)))
      ensures forall s :: !Uses(rs, |rs|, s) ==> Lookup(files, Active(s)) == old(Lookup(files, Active(s)))
      ensures NoTornFile(rs, old(files), files)
    {
      ghost var before := files;
      ghost var slots := SelectedSlots(descriptors, candidates, blank);
      var selection := SelectAdapters(descriptors, candidates, blank);
      if selection.Err? { return FailedAt(SelectStage, NotAttempted), []; }
      var adapters := selection.value;
      SelectionDistinct(descriptors, candidates, blank);
      var failed: Option<Stage>;
      rs, failed := PrepareRuntimes(adapters, version, env);
      if failed.Some? { return FailedAt(failed.value, NotAttempted), rs; }
      ghost var prepared := rs;
      assert SlotsOf(rs) == slots;
      var failure: Option<RollbackStatus>;
      rs, failure := PromoteAll(rs, version, blank(version), env, before);
      SameUses(prepared, rs, |rs|);
      assert SlotsOf(rs) == slots;
      if failure.Some? { return FailedAt(ApplyStage, failure.value), rs; }
      FitIsValid(prepared, rs, slots, env);
      if !serviceControl { return Applied(true), rs; }
      failed := CheckRuntimes(rs, env);
      if failed.Some? {
        var status := RollbackPromoted(rs, |rs|, slots, version, env, before);
        return FailedAt(failed.value, status), rs;
      }
      outcome := Applied(false);
    }
  }

  function SlotsOf(rs: seq<Runtime>): seq<Slot> { seq(|rs|, i requires 0 <= i < |rs| => rs[i].slot) }

  function StorageOf(adapters: seq<Adapter>): seq<Slot> { seq(|adapters|, i requires 0 <= i < |adapters| => Storage(adapters[i].core)) }

  /** The runtimes that the configuration selects, or none if it selects an unsupported one. */
  function SelectedSlots(descriptors: seq<Descriptor>, candidates: seq<Option<Adapter>>, blank: string -> bool): seq<Slot>
    requires candidates != []
  {
    var selected := Select(descriptors, ServingBy(candidates, blank));
    if selected.None? then [] else StorageOf(selected.value)
  }

  lemma FitIsValid(prepared: seq<Runtime>, rs: seq<Runtime>, slots: seq<Slot>, env: Environment)
    requires SlotsOf(prepared) == slots == SlotsOf(rs) && AllFit(slots, |slots|, env)
    requires forall i :: 0 <= i < |prepared| ==> env.staging(prepared[i].slot) == StagedBytes(prepared[i].candidate)
    requires |rs| == |prepared| && forall i :: 0 <= i < |rs| ==> rs[i].candidate == prepared[i].candidate
    ensures forall i :: 0 <= i < |rs| ==> env.valid(rs[i].slot, rs[i].candidate)
  {
    forall i | 0 <= i < |rs| ensures env.valid(rs[i].slot, rs[i].candidate) {
      assert slots[i] == rs[i].slot && slots[i] == prepared[i].slot && Fit(env, slots[i]);
    }
  }

  /** What a rollback of promoted runtimes reports. */
  lemma RollbackMeans(rs: seq<Runtime>, slots: seq<Slot>, status: RollbackStatus, env: Environment, before: map<Path, string>)
    requires |rs| <= |slots| && forall i :: 0 <= i < |rs| ==> rs[i].slot == slots[i] && rs[i].applied.Some?
    requires !status.NotAttempted? && (status.RollbackSkipped? <==> rs == [])
    requires status.RollbackFailed? <==> exists i :: 0 <= i < |rs| && !RecoversIn(rs[i], env, before)
    ensures status == RollbackOf(slots, |rs|, env, before)
  {
    if !status.RollbackFailed? {
      forall i | 0 <= i < |rs| ensures Recovers(env.recovery(slots[i]), Active(slots[i]) in before) { assert RecoversIn(rs[i], env, before); }
    }
  }

  /** The first n runtimes are promoted and can be rolled back; no other active file has changed. */
  ghost predicate PartlyPromoted(rs: seq<Runtime>, n: nat, version: string, before: map<Path, string>, now: map<Path, string>)
    requires n <= |rs|
  {
    && (forall i :: 0 <= i < n ==> Lookup(now, Active(rs[i].slot)) == Some(rs[i].candidate) && Restorable(rs[i], version, before, now))
    && (forall s :: !Uses(rs, n, s) ==> Lookup(now, Active(s)) == Lookup(before, Active(s)))
  }

  /** The same, and the others still have the bytes that were candidate in their staging directories. */
  ghost predicate Promoted(rs: seq<Runtime>, n: nat, version: string, before: map<Path, string>, now: map<Path, string>)
    requires n <= |rs|
  {
    && PartlyPromoted(rs, n, version, before, now)
    && (forall i :: n <= i < |rs| ==> rs[i].applied.None? && Lookup(now, Staged(rs[i].slot, version)) == Some(rs[i].candidate))
  }

  lemma PromotedNotTorn(rs: seq<Runtime>, version: string, before: map<Path, string>, now: map<Path, string>)
    requires Promoted(rs, |rs|, version, before, now)
    ensures NoTornFile(rs, before, now)
  {
  }

  lemma SameSlotsDistinct(rs: seq<Runtime>, rs': seq<Runtime>)
    requires DistinctSlots(rs) && |rs'| == |rs| && forall i :: 0 <= i < |rs| ==> rs'[i].slot == rs[i].slot
    ensures DistinctSlots(rs') && SlotsOf(rs') == SlotsOf(rs)
  {
  }

  /** The files that a promotion may touch. */
  function TouchedBy(slot: Slot, version: string): set<Path> {
    {Active(slot), Temp(Active(slot)), Backup(slot, version), Temp(Backup(slot, version))}
  }

  lemma NotPromotedNext(rs: seq<Runtime>, n: nat, version: string, before: map<Path, string>, start: map<Path, string>, now: map<Path, string>)
    requires n < |rs| && DistinctSlots(rs) && PartlyPromoted(rs, n, version, before, start)
    requires OnlyTouches(TouchedBy(rs[n].slot, version), start, now) && Lookup(now, Active(rs[n].slot)) == Lookup(start, Active(rs[n].slot))
    ensures PartlyPromoted(rs, n, version, before, now)
  {
    forall i | 0 <= i < n ensures Lookup(now, Active(rs[i].slot)) == Some(rs[i].candidate) && Restorable(rs[i], version, before, now) {
      assert rs[i].slot != rs[n].slot;
      assert Lookup(now, Active(rs[i].slot)) == Lookup(start, Active(rs[i].slot));
      assert Lookup(now, Backup(rs[i].slot, version)) == Lookup(start, Backup(rs[i].slot, version));
    }
    forall s | !Uses(rs, n, s) ensures Lookup(now, Active(s)) == Lookup(before, Active(s)) {
      assert Lookup(now, Active(s)) == Lookup(start, Active(s));
    }
  }

  lemma PromotedNext(rs: seq<Runtime>, n: nat, version: string, before: map<Path, string>, start: map<Path, string>, now: map<Path, string>, a: ApplyResult)
    requires n < |rs| && DistinctSlots(rs) && Promoted(rs, n, version, before, start)
    requires OnlyTouches(TouchedBy(rs[n].slot, version), start, now)
    requires Lookup(now, Active(rs[n].slot)) == Some(rs[n].candidate)
    requires Restorable(rs[n].(applied := Some(a)), version, start, now)
    ensures Promoted(rs[n := rs[n].(applied := Some(a))], n + 1, version, before, now)
  {
    var rs' := rs[n := rs[n].(applied := Some(a))];
    var slot := rs[n].slot;
    assert !Uses(rs, n, slot);
    assert Lookup(start, Active(slot)) == Lookup(before, Active(slot));
    forall i | 0 <= i < n + 1 ensures Lookup(now, Active(rs'[i].slot)) == Some(rs'[i].candidate) && Restorable(rs'[i], version, before, now) {
      if i < n {
        assert rs'[i] == rs[i] && rs[i].slot != slot;
        assert Lookup(now, Active(rs[i].slot)) == Lookup(start, Active(rs[i].slot));
        assert Lookup(now, Backup(rs[i].slot, version)) == Lookup(start, Backup(rs[i].slot, version));
      }
    }
    forall i | n + 1 <= i < |rs'| ensures rs'[i].applied.None? && Lookup(now, Staged(rs'[i].slot, version)) == Some(rs'[i].candidate) {
      assert rs'[i] == rs[i];
      assert Lookup(now, Staged(rs[i].slot, version)) == Lookup(start, Staged(rs[i].slot, version));
    }
    forall s | !Uses(rs', n + 1, s) ensures Lookup(now, Active(s)) == Lookup(before, Active(s)) {
      assert rs'[n].slot == slot && s != slot;
      assert forall i :: 0 <= i < n ==> rs'[i] == rs[i];
      assert !Uses(rs, n, s);
      assert Lookup(now, Active(s)) == Lookup(start, Active(s));
    }
  }

  lemma SelectionDistinct(descriptors: seq<Descriptor>, candidates: seq<Option<Adapter>>, blank: string -> bool)
    requires candidates != [] && forall c :: c in candidates && c.Some? ==> c.value.core in MANAGED_CORES
    requires Select(descriptors, ServingBy(candidates, blank)).Some?
    ensures var selected := Select(descriptors, ServingBy(candidates, blank)).value;
            forall i, k :: 0 <= i < k < |selected| ==> Storage(selected[i].core) != Storage(selected[k].core)
  {
    var serving := ServingBy(candidates, blank);
    SelectExact(descriptors, serving);
    var selected := Select(descriptors, serving).value;
    forall i | 0 <= i < |selected| ensures selected[i].core in MANAGED_CORES {
      assert selected[i] in selected;
      var k :| 0 <= k < |descriptors| && serving(descriptors[k]) == Some(selected[i]);
      assert serving(descriptors[k]) == Serving(descriptors[k], blank(descriptors[k].core), candidates);
      assert Some(selected[i]) in candidates;
    }
    SelectedStorageDistinct(selected);
  }

  lemma SameUses(rs: seq<Runtime>, rs': seq<Runtime>, n: nat)
    requires n <= |rs| && n <= |rs'| && forall i :: 0 <= i < n ==> rs[i].slot == rs'[i].slot
    ensures forall s :: Uses(rs, n, s) <==> Uses(rs', n, s)
  {
    forall s ensures Uses(rs, n, s) <==> Uses(rs', n, s) {
      if Uses(rs, n, s) { var i :| 0 <= i < n && rs[i].slot == s; assert rs'[i].slot == s; }
      if Uses(rs', n, s) { var i :| 0 <= i < n && rs'[i].slot == s; assert rs[i].slot == s; }
    }
  }
}
