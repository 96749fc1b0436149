/** Whole histories with crashes: operations that finish, and operations cut off between any
    two filesystem calls and followed by a fresh open. */
module CrashRuns {
  import opened Basics
  import opened Names
  import opened Manifests
  import opened Tree
  import opened StoreSpec
  import opened StoreCache
  import opened StoreInvariant
  import opened StoreRuns
  import opened Crash
  import opened CrashAtomicity
  import opened CrashServing

  /** `at` counts the filesystem calls of `op` that reached the disk; the names drawn and the
      orders in which directory entries are deleted are arbitrary. */
  datatype Happening =
    | Finished(op: Op)
    | Cut(op: Op, draw: Draw, clear: seq<string>, sweep: seq<string>, at: nat)

  /** The filesystem calls `op` makes from `s`, in program order. */
  ghost function PlanOf(env: Env, s: State, op: Op, draw: Draw, clear: seq<string>, sweep: seq<string>): seq<FsStep> {
    match op
    case StageOp(fw, who) => SubmitPlan(env, s, Staging, fw, Some(who), draw, clear, sweep)
    case PublishOp(fw) => SubmitPlan(env, s, Live, fw, None, draw, clear, sweep)
    case ApproveOp(device, version) =>
      var key := Key(device, version);
      if key in s.index.live || key !in s.index.staged then RejectPlan(s, key, clear)
      else if RenameBlocked(s.disk, key) then []
      else ApprovePlan(key)
    case RejectOp(device, version) => RejectPlan(s, Key(device, version), clear)
    case PutBlobOp(content, now) =>
      if PutBlob(env, s, content, now).1.Err? || env.digest(content) in s.disk.incoming then []
      else UploadPlan(env.digest(content), content, now, draw.tmp, draw.torn)
    case GcOp(_) => SweepSteps(sweep)
    case _ => []
  }

  /** Nothing for a refused manifest; for one whose copies cannot all be made, the build up to the
      first that fails, and its removal. */
  ghost function SubmitPlan(env: Env, s: State, area: Area, fw: Firmware, who: Option<string>, draw: Draw,
                            clear: seq<string>, sweep: seq<string>): seq<FsStep> {
    match Verdict(env, s.index, fw, true)
    case Err(_) => []
    case Ok(key) =>
      if who.Some? && OverQuota(s.index.staged, key, who.value) then []
      else if Copyable(s.disk, s.index.blobPaths, fw.blobs) then
        WritePlan(env, s, area, key, fw, who, draw, clear, sweep)
      else FailedPlan(s, area, TmpKey(key, draw), fw.blobs, draw, clear)
  }

  ghost function FailedPlan(s: State, area: Area, tmp: Key, blobs: seq<Blob>, draw: Draw,
                            clear: seq<string>): seq<FsStep> {
    [MakeDir(area, tmp)]
    + CopySteps(s.disk, s.index.blobPaths, area, tmp, blobs[..Leading(s.disk, s.index.blobPaths, blobs)], draw)
    + ClearSteps(area, tmp, clear)
  }

  /** How many copies succeed before the first that fails. */
  ghost function Leading(disk: Disk, paths: map<string, Path>, blobs: seq<Blob>): (n: nat)
    ensures n <= |blobs|
  {
    if blobs == [] then 0
    else if Copyable(disk, paths, blobs) then |blobs|
    else Leading(disk, paths, blobs[..|blobs| - 1])
  }

  ghost function RejectPlan(s: State, key: Key, clear: seq<string>): seq<FsStep> {
    if key in s.index.staged then ClearSteps(Staging, key, clear) else []
  }

  ghost function After(env: Env, s: State, h: Happening): State {
    match h
    case Finished(op) => Step(env, s, op)
    case Cut(op, draw, clear, sweep, at) =>
      var plan := PlanOf(env, s, op, draw, clear, sweep);
      Opened(env, ApplyAll(s.disk, if at <= |plan| then plan[..at] else plan))
  }

  ghost function History(env: Env, s: State, hs: seq<Happening>): State {
    if hs == [] then s else After(env, History(env, s, hs[..|hs| - 1]), hs[|hs| - 1])
  }

  // ----- no call touches a live version directory -----

  /** The call leaves the given directories of `firmware/` alone. */
  predicate Spares(step: FsStep, keys: set<Key>) {
    match step
    case MakeDir(area, key) => area == Live ==> key !in keys
    case WriteFile(area, key, _, _) => area == Live ==> key !in keys
    case MoveFile(area, key, _, _) => area == Live ==> key !in keys
    case RemoveFile(area, key, _) => area == Live ==> key !in keys
    case RemoveDir(area, key) => area == Live ==> key !in keys
    case MoveDir(area, key, toArea, toKey) => (area == Live ==> key !in keys) && (toArea == Live ==> toKey !in keys)
    case _ => true
  }

  ghost predicate SparesAll(steps: seq<FsStep>, keys: set<Key>) {
    forall st :: st in steps ==> Spares(st, keys)
  }

  ghost predicate SameDirs(d: Disk, e: Disk, keys: set<Key>) {
    forall k :: k in keys && k in d.live ==> k in e.live && e.live[k] == d.live[k]
  }

  lemma {:induction false} SparedPrefix(d: Disk, steps: seq<FsStep>, keys: set<Key>, i: nat)
    requires i <= |steps| && SparesAll(steps, keys)
    ensures SameDirs(d, ApplyAll(d, steps[..i]), keys)
  {
    if i > 0 {
      SparedPrefix(d, steps, keys, i - 1);
      assert steps[..i][..i - 1] == steps[..i - 1] && steps[..i][i - 1] == steps[i - 1];
      assert Spares(steps[i - 1], keys);
    }
  }

  /** The keys a scan finds in `firmware/` are never temporary names. */
  lemma LiveNotTemporary(env: Env, s: State, key: Key, draw: Draw)
    requires Grounded(env, s)
    ensures TmpKey(key, draw) !in s.index.live
  {
  }

  lemma BuildSpares(env: Env, s: State, area: Area, key: Key, fw: Firmware, who: Option<string>, draw: Draw)
    requires Grounded(env, s)
    ensures SparesAll(BuildSteps(env, s, area, key, fw, who, draw), s.index.live.Keys)
  {
    hide BuildSteps, Grounded, TmpKey;
    LiveNotTemporary(env, s, key, draw);
    BuildConfined(env, s, area, key, fw, who, draw);
  }

  lemma ClearSpares(area: Area, key: Key, order: seq<string>, keys: set<Key>)
    requires key !in keys || area == Staging
    ensures SparesAll(ClearSteps(area, key, order), keys)
  {
  }

  lemma WriteSpares(env: Env, s: State, area: Area, key: Key, fw: Firmware, who: Option<string>, draw: Draw,
                    clear: seq<string>, sweep: seq<string>)
    requires Grounded(env, s) && key !in s.index.live
    ensures SparesAll(WritePlan(env, s, area, key, fw, who, draw, clear, sweep), s.index.live.Keys)
  {
    hide BuildSteps, ClearSteps, Grounded, TmpKey;
    BuildSpares(env, s, area, key, fw, who, draw);
    ClearSpares(area, key, clear, s.index.live.Keys);
    LiveNotTemporary(env, s, key, draw);
  }

  lemma PlanSpares(env: Env, s: State, op: Op, draw: Draw, clear: seq<string>, sweep: seq<string>)
    requires Grounded(env, s)
    ensures SparesAll(PlanOf(env, s, op, draw, clear, sweep), s.index.live.Keys)
  {
    hide WritePlan, ClearSteps, Grounded, Verdict;
    match op
    case StageOp(fw, who) => SubmitSpares(env, s, Staging, fw, Some(who), draw, clear, sweep);
    case PublishOp(fw) => SubmitSpares(env, s, Live, fw, None, draw, clear, sweep);
    case ApproveOp(device, version) => ClearSpares(Staging, Key(device, version), clear, s.index.live.Keys);
    case RejectOp(device, version) => ClearSpares(Staging, Key(device, version), clear, s.index.live.Keys);
    case _ =>
  }

  lemma FailedTemporary(s: State, area: Area, tmp: Key, blobs: seq<Blob>, draw: Draw, clear: seq<string>)
    requires StartsWith(tmp.version, TMP_PREFIX)
    ensures forall st :: st in FailedPlan(s, area, tmp, blobs, draw, clear) ==> Temporary(st)
  {
    CopyTemporary(s.disk, s.index.blobPaths, area, tmp, blobs[..Leading(s.disk, s.index.blobPaths, blobs)], draw);
  }

  lemma FailedSpares(env: Env, s: State, area: Area, key: Key, blobs: seq<Blob>, draw: Draw, clear: seq<string>)
    requires Grounded(env, s)
    ensures SparesAll(FailedPlan(s, area, TmpKey(key, draw), blobs, draw, clear), s.index.live.Keys)
  {
    hide Grounded, TmpKey, ClearSteps;
    LiveNotTemporary(env, s, key, draw);
    CopyConfined(s.disk, s.index.blobPaths, area, TmpKey(key, draw),
                 blobs[..Leading(s.disk, s.index.blobPaths, blobs)], draw);
    ClearSpares(area, TmpKey(key, draw), clear, s.index.live.Keys);
  }

  lemma SubmitSpares(env: Env, s: State, area: Area, fw: Firmware, who: Option<string>, draw: Draw,
                     clear: seq<string>, sweep: seq<string>)
    requires Grounded(env, s)
    ensures SparesAll(SubmitPlan(env, s, area, fw, who, draw, clear, sweep), s.index.live.Keys)
  {
    hide WritePlan, FailedPlan, Grounded, FirstFault, Copyable, OverQuota;
    if Verdict(env, s.index, fw, true).Ok? {
      WriteSpares(env, s, area, Verdict(env, s.index, fw, true).value, fw, who, draw, clear, sweep);
      FailedSpares(env, s, area, Verdict(env, s.index, fw, true).value, fw.blobs, draw, clear);
    }
  }

  // ----- opening what a crash left -----

  /** Whatever else happened to the tree, live directories that were spared are live again. */
  lemma OpenedPreserves(env: Env, s: State, disk: Disk)
    requires Grounded(env, s) && SameDirs(s.disk, disk, s.index.live.Keys)
    ensures Grounded(env, Opened(env, disk)) && LivePreserved(s, Opened(env, disk))
  {
    hide EnvOk, Rebuild, SubmitterIn;
  }

  lemma AfterPreserves(env: Env, s: State, h: Happening)
    requires Grounded(env, s)
    ensures Grounded(env, After(env, s, h)) && LivePreserved(s, After(env, s, h))
  {
    hide Step, Grounded, LivePreserved, PlanOf, Opened;
    match h
    case Finished(op) => StepPreserves(env, s, op);
    case Cut(op, draw, clear, sweep, at) =>
      var plan := PlanOf(env, s, op, draw, clear, sweep);
      var i := if at <= |plan| then at else |plan|;
      PlanSpares(env, s, op, draw, clear, sweep);
      SparedPrefix(s.disk, plan, s.index.live.Keys, i);
      assert plan[..|plan|] == plan;
      OpenedPreserves(env, s, ApplyAll(s.disk, plan[..i]));
  }

  /** Once live, a version keeps its manifest and its files through any operations, restarts and
      crashes, however many and wherever they strike. */
  lemma {:induction false} LiveSurvivesCrashes(env: Env, s: State, hs: seq<Happening>)
    requires Grounded(env, s)
    ensures Grounded(env, History(env, s, hs)) && LivePreserved(s, History(env, s, hs))
  {
    if hs != [] {
      LiveSurvivesCrashes(env, s, hs[..|hs| - 1]);
      AfterPreserves(env, History(env, s, hs[..|hs| - 1]), hs[|hs| - 1]);
    }
  }

  // ----- the cache over histories -----

  ghost predicate OrderlyHistory(env: Env, s: State, hs: seq<Happening>) {
    hs == []
    || (&& OrderlyHistory(env, s, hs[..|hs| - 1])
        && (hs[|hs| - 1].Finished? ==> Orderly(History(env, s, hs[..|hs| - 1]), hs[|hs| - 1].op)))
  }

  /** Crashes never spoil the cache: every open rescans what is there. */
  lemma {:induction false} HistoryCached(env: Env, s: State, hs: seq<Happening>)
    requires Cached(env, s) && OrderlyHistory(env, s, hs)
    ensures Cached(env, History(env, s, hs))
  {
    if hs != [] {
      var before, h := History(env, s, hs[..|hs| - 1]), hs[|hs| - 1];
      HistoryCached(env, s, hs[..|hs| - 1]);
      match h
      case Finished(op) => StepCached(env, before, op);
      case Cut(op, draw, clear, sweep, at) =>
        var plan := PlanOf(env, before, op, draw, clear, sweep);
        OpenedCached(env, ApplyAll(before.disk, if at <= |plan| then plan[..at] else plan));
    }
  }

  lemma OpenedCached(env: Env, disk: Disk)
    requires EnvOk(env)
    ensures Cached(env, Opened(env, disk))
  {
  }

  // ----- the whole invariant over histories -----

  /** The operation removes the directory of an indexed submission file by file. */
  ghost predicate Removes(s: State, op: Op) {
    match op
    case StageOp(fw, _) => KeyOf(fw).Ok? && KeyOf(fw).value in s.index.staged
    case RejectOp(device, version) => Key(device, version) in s.index.staged
    case _ => false
  }

  /** The names drawn are unused. */
  ghost predicate FreshNames(env: Env, s: State, op: Op, draw: Draw) {
    match op
    case StageOp(fw, _) => KeyOf(fw).Ok? ==> FreshDraw(s, Staging, KeyOf(fw).value, fw, draw)
    case PublishOp(fw) => KeyOf(fw).Ok? ==> FreshDraw(s, Live, KeyOf(fw).value, fw, draw)
    case PutBlobOp(content, _) => env.digest(content) + TMP_PREFIX + draw.tmp !in s.disk.incoming
    case _ => true
  }

  /** `sweep` lists exactly the uploads the operation deletes. */
  ghost predicate Sweeps(env: Env, s: State, op: Op, sweep: seq<string>) {
    match op
    case StageOp(fw, who) =>
      Elements(sweep) == s.disk.incoming.Keys * Owned(s.index.live, Stage(env, s, fw, who).state.index.staged)
    case PublishOp(fw) =>
      Elements(sweep) == s.disk.incoming.Keys * Owned(Publish(env, s, fw).state.index.live, s.index.staged)
    case GcOp(cutoff) => Elements(sweep) == Abandoned(s, cutoff)
    case _ => true
  }

  /** What keeps the contents sound: admissible operations, and no crash while a submission's
      directory is being removed. */
  ghost predicate Sheltered(env: Env, s: State, h: Happening) {
    && Admissible(s, h.op)
    && (h.Cut? ==> !Removes(s, h.op) && FreshNames(env, s, h.op, h.draw) && Sweeps(env, s, h.op, h.sweep))
  }

  ghost predicate ShelteredHistory(env: Env, s: State, hs: seq<Happening>) {
    hs == []
    || (&& ShelteredHistory(env, s, hs[..|hs| - 1])
        && Sheltered(env, History(env, s, hs[..|hs| - 1]), hs[|hs| - 1]))
  }

  lemma SubmitOutcome(env: Env, s: State, fw: Firmware, who: string)
    ensures Verdict(env, s.index, fw, true).Ok? ==>
      && KeyOf(fw) == Ok(Verdict(env, s.index, fw, true).value) && KeyOf(fw).value !in s.index.live
      && (Copyable(s.disk, s.index.blobPaths, fw.blobs) ==>
            && Publish(env, s, fw).result.Ok?
            && (!OverQuota(s.index.staged, KeyOf(fw).value, who) ==> Stage(env, s, fw, who).result.Ok?))
  {
    hide FirstFault, VersionDir, Rebuild, Copyable, OverQuota;
  }

  lemma TemporaryCut(env: Env, s: State, steps: seq<FsStep>, i: nat)
    requires Invariant(env, s) && i <= |steps| && forall st :: st in steps ==> Temporary(st)
    ensures Invariant(env, Opened(env, ApplyAll(s.disk, steps[..i])))
  {
    hide Invariant, Opened, Reap;
    InvariantCached(env, s);
    TemporaryPrefix(s.disk, steps, i);
    RecoversState(env, ApplyAll(s.disk, steps[..i]), s);
  }

  lemma StageCut(env: Env, s: State, fw: Firmware, who: string, draw: Draw, clear: seq<string>, sweep: seq<string>,
                 i: nat)
    requires Invariant(env, s) && Sheltered(env, s, Cut(StageOp(fw, who), draw, clear, sweep, i))
    requires i <= |SubmitPlan(env, s, Staging, fw, Some(who), draw, clear, sweep)|
    ensures var plan := SubmitPlan(env, s, Staging, fw, Some(who), draw, clear, sweep);
      Invariant(env, Opened(env, ApplyAll(s.disk, plan[..i])))
  {
    hide Invariant, Opened, Reap, WritePlan, FailedPlan, Copyable, OverQuota, Verdict, Stage, FreshDraw,
      RecoversTorn, KeyOf, TmpKey, SameFileSameSha, Owned;
    InvariantCached(env, s);
    SubmitOutcome(env, s, fw, who);
    var plan := SubmitPlan(env, s, Staging, fw, Some(who), draw, clear, sweep);
    if Verdict(env, s.index, fw, true).Err? || OverQuota(s.index.staged, KeyOf(fw).value, who) {
      TemporaryCut(env, s, plan, i);
    } else if Copyable(s.disk, s.index.blobPaths, fw.blobs) {
      StageCrash(env, s, fw, who, draw, clear, sweep, i);
    } else {
      TmpStarts(KeyOf(fw).value, draw);
      FailedTemporary(s, Staging, TmpKey(KeyOf(fw).value, draw), fw.blobs, draw, clear);
      TemporaryCut(env, s, plan, i);
    }
  }

  lemma TmpStarts(key: Key, draw: Draw)
    ensures StartsWith(TmpKey(key, draw).version, TMP_PREFIX)
  {
  }

  lemma PublishCut(env: Env, s: State, fw: Firmware, draw: Draw, clear: seq<string>, sweep: seq<string>, i: nat)
    requires Invariant(env, s) && Sheltered(env, s, Cut(PublishOp(fw), draw, clear, sweep, i))
    requires i <= |SubmitPlan(env, s, Live, fw, None, draw, clear, sweep)|
    ensures var plan := SubmitPlan(env, s, Live, fw, None, draw, clear, sweep);
      Invariant(env, Opened(env, ApplyAll(s.disk, plan[..i])))
  {
    hide Invariant, Opened, Reap, WritePlan, FailedPlan, Copyable, Verdict, Publish, FreshDraw, KeyOf, TmpKey,
      SameFileSameSha, Owned;
    InvariantCached(env, s);
    SubmitOutcome(env, s, fw, "");
    var plan := SubmitPlan(env, s, Live, fw, None, draw, clear, sweep);
    if Verdict(env, s.index, fw, true).Err? {
      TemporaryCut(env, s, plan, i);
    } else if Copyable(s.disk, s.index.blobPaths, fw.blobs) {
      PublishCrash(env, s, fw, draw, clear, sweep, i);
    } else {
      TmpStarts(KeyOf(fw).value, draw);
      FailedTemporary(s, Live, TmpKey(KeyOf(fw).value, draw), fw.blobs, draw, clear);
      TemporaryCut(env, s, plan, i);
    }
  }

  lemma ReviewCut(env: Env, s: State, device: string, version: string, draw: Draw, clear: seq<string>, i: nat)
    requires Invariant(env, s) && i <= |PlanOf(env, s, ApproveOp(device, version), draw, clear, [])|
    ensures var plan := PlanOf(env, s, ApproveOp(device, version), draw, clear, []);
      Invariant(env, Opened(env, ApplyAll(s.disk, plan[..i])))
  {
    hide Invariant, Cached, Opened, Reap, Approve, ClearSteps, ApprovePlan, KeyFor;
    InvariantCached(env, s);
    var key, plan := Key(device, version), PlanOf(env, s, ApproveOp(device, version), draw, clear, []);
    if key in s.index.staged && !RenameBlocked(s.disk, key) {
      ApproveSucceeds(env, s, device, version);
      PlanOfApprove(key);
      ApproveCrash(env, s, device, version, i);
    } else {
      TemporaryCut(env, s, plan, i);
    }
  }

  lemma PlanOfApprove(key: Key)
    ensures |ApprovePlan(key)| == 2
  {
  }

  lemma ApproveSucceeds(env: Env, s: State, device: string, version: string)
    requires Settled(env, s) && Key(device, version) in s.index.staged && !RenameBlocked(s.disk, Key(device, version))
    ensures Approve(s, device, version).result.Ok?
  {
    hide Rebuild;
  }

  lemma UploadCut(env: Env, s: State, content: Bytes, now: int, draw: Draw, i: nat)
    requires Invariant(env, s) && i <= |PlanOf(env, s, PutBlobOp(content, now), draw, [], [])|
    requires env.digest(content) + TMP_PREFIX + draw.tmp !in s.disk.incoming
    ensures Invariant(env, Opened(env, ApplyAll(s.disk, PlanOf(env, s, PutBlobOp(content, now), draw, [], [])[..i])))
  {
    hide Invariant, Cached, Opened, Reap, PutBlob;
    InvariantCached(env, s);
    if PutBlob(env, s, content, now).1.Err? || env.digest(content) in s.disk.incoming {
      TemporaryCut(env, s, [], i);
    } else {
      UploadCrash(env, s, content, now, draw.tmp, draw.torn, i);
    }
  }

  lemma GcCut(env: Env, s: State, cutoff: int, sweep: seq<string>, i: nat)
    requires Invariant(env, s) && Elements(sweep) == Abandoned(s, cutoff) && i <= |SweepSteps(sweep)|
    ensures Invariant(env, Opened(env, ApplyAll(s.disk, SweepSteps(sweep)[..i])))
  {
    hide Invariant, Cached, Opened, Abandoned;
    InvariantCached(env, s);
    GcCrash(env, s, cutoff, sweep, i);
  }

  lemma CutKeeps(env: Env, s: State, h: Happening)
    requires Invariant(env, s) && Sheltered(env, s, h) && h.Cut?
    ensures Invariant(env, After(env, s, h))
  {
    hide Invariant, Opened, SubmitPlan, Admissible, FreshNames, Sweeps;
    var Cut(op, draw, clear, sweep, at) := h;
    var plan := PlanOf(env, s, op, draw, clear, sweep);
    var i := if at <= |plan| then at else |plan|;
    assert plan[..|plan|] == plan;
    assert Sheltered(env, s, Cut(op, draw, clear, sweep, i));
    match op
    case StageOp(fw, who) => StageCut(env, s, fw, who, draw, clear, sweep, i);
    case PublishOp(fw) => PublishCut(env, s, fw, draw, clear, sweep, i);
    case ApproveOp(device, version) => ReviewCut(env, s, device, version, draw, clear, i);
    case PutBlobOp(content, now) => FreshUpload(env, s, content, now, draw); UploadCut(env, s, content, now, draw, i);
    case GcOp(cutoff) => SweepsAbandoned(env, s, cutoff, sweep); GcCut(env, s, cutoff, sweep, i);
    case _ => TemporaryCut(env, s, [], 0);
  }

  lemma FreshUpload(env: Env, s: State, content: Bytes, now: int, draw: Draw)
    requires FreshNames(env, s, PutBlobOp(content, now), draw)
    ensures env.digest(content) + TMP_PREFIX + draw.tmp !in s.disk.incoming
  {
  }

  lemma SweepsAbandoned(env: Env, s: State, cutoff: int, sweep: seq<string>)
    requires Sweeps(env, s, GcOp(cutoff), sweep)
    ensures Elements(sweep) == Abandoned(s, cutoff)
  {
  }

  /** The whole store invariant survives any history of operations, restarts and crashes, as long as
      no crash strikes while a submission's directory is being removed. */
  lemma {:induction false} HistoryKeeps(env: Env, s: State, hs: seq<Happening>)
    requires Invariant(env, s) && ShelteredHistory(env, s, hs)
    ensures Invariant(env, History(env, s, hs))
  {
    hide Invariant, Sheltered, After;
    if hs != [] {
      var before, h := History(env, s, hs[..|hs| - 1]), hs[|hs| - 1];
      HistoryKeeps(env, s, hs[..|hs| - 1]);
      if h.Cut? {
        CutKeeps(env, before, h);
      } else {
        FinishKeeps(env, before, h);
      }
    }
  }

  lemma FinishKeeps(env: Env, s: State, h: Happening)
    requires Invariant(env, s) && Sheltered(env, s, h) && h.Finished?
    ensures Invariant(env, After(env, s, h))
  {
    hide Invariant, Step;
    StepKeeps(env, s, h.op);
  }

  /** After any such history every blob of a live version is served, intact. */
  lemma HistoryServes(env: Env, s: State, hs: seq<Happening>)
    requires Invariant(env, s) && ShelteredHistory(env, s, hs)
    ensures LiveServed(env, History(env, s, hs), History(env, s, hs).index.live)
  {
    hide Invariant, LiveServed;
    HistoryKeeps(env, s, hs);
    SoundServes(env, History(env, s, hs));
  }
}
