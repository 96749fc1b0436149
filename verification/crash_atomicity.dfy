/** Crash atomicity: whatever prefix of an operation's filesystem calls reached the
    disk, reopening recovers the catalogue from before or after the operation. */
module CrashAtomicity {
  import opened Basics
  import opened Names
  import opened Manifests
  import opened Tree
  import opened StoreSpec
  import opened StoreCache
  import opened StoreInvariant
  import opened StoreRuns
  import opened Crash

  /** Reopening recovers exactly the index of `from`, and sound contents if those were sound. */
  ghost predicate Recovers(env: Env, disk: Disk, from: State) {
    && Opened(env, disk).index == from.index
    && (Invariant(env, from) ==> Invariant(env, Opened(env, disk)))
  }

  /** A tree that reaps to the tree of a cached state recovers that state. */
  lemma RecoversState(env: Env, disk: Disk, s: State)
    requires Cached(env, s) && Reap(disk) == Reap(s.disk)
    ensures Recovers(env, disk, s)
  {
    hide Cached, Invariant, Reap;
    ReopenCached(env, s);
    assert Opened(env, disk) == Opened(env, s.disk);
    if Invariant(env, s) {
      ReopenKeeps(env, s);
    }
  }

  /** A reap, removing temporary directories and uploads in any order, may itself be cut short, any
      number of times: the next open ends in the same state. */
  lemma ReapInterrupted(env: Env, d: Disk, steps: seq<FsStep>, i: nat)
    requires i <= |steps| && forall st :: st in steps ==> Temporary(st)
    ensures Opened(env, ApplyAll(d, steps[..i])) == Opened(env, d)
  {
    hide Reap;
    TemporaryPrefix(d, steps, i);
  }

  // ----- writing a version directory -----

  /** The commit: the state after the rename and before the sweep. */
  ghost predicate IsCommitOf(env: Env, s: State, p: State, area: Area, key: Key, fw: Firmware, who: Option<string>)
    requires Copyable(s.disk, s.index.blobPaths, fw.blobs)
  {
    p.disk == PutDir(s.disk, area, key, VersionDir(env, s, fw, who))
  }

  /** Every other staged directory and every upload is there, byte for byte. */
  ghost predicate OthersKept(s: State, t: State, key: Key) {
    && (forall k :: k in s.index.staged && k != key ==>
          k in s.disk.staging && k in t.disk.staging && t.disk.staging[k] == s.disk.staging[k])
    && ReapIncoming(s.disk.incoming) == t.disk.incoming
  }

  /** Reopened after a crash while the directory of an indexed staged entry was being cleared. */
  ghost predicate RecoversTorn(env: Env, disk: Disk, s: State, area: Area, key: Key) {
    && area == Staging
    && OnlyEntryTorn(s.index, Opened(env, disk).index, key)
    && LivePreserved(s, Opened(env, disk))
    && OthersKept(s, Opened(env, disk), key)
  }

  /** Where a prefix of the plan can leave the tree: nothing but temporary names touched,
      the old directory partly cleared, or committed with part of the sweep done. */
  ghost predicate WritePhase(s: State, disk: Disk, area: Area, key: Key, tmp: Key, dir: Dir, sweep: seq<string>) {
    || Reap(disk) == Reap(s.disk)
    || (key in s.disk.In(area) && Shrunk(PutDir(s.disk, area, tmp, dir), disk, area, key))
    || exists m :: 0 <= m <= |sweep| && disk == CommitDisk(s, area, key, dir, sweep, m)
  }

  ghost function CommitDisk(s: State, area: Area, key: Key, dir: Dir, sweep: seq<string>, m: nat): Disk
    requires m <= |sweep|
  {
    PutDir(s.disk, area, key, dir).(incoming := s.disk.incoming - Elements(sweep[..m]))
  }

  lemma WritePrefix(env: Env, s: State, area: Area, key: Key, fw: Firmware, who: Option<string>,
                    draw: Draw, clear: seq<string>, sweep: seq<string>, i: nat)
    requires Copyable(s.disk, s.index.blobPaths, fw.blobs) && FreshDraw(s, area, key, fw, draw) && key.Valid()
    requires i <= |WritePlan(env, s, area, key, fw, who, draw, clear, sweep)|
    ensures var plan := WritePlan(env, s, area, key, fw, who, draw, clear, sweep);
      && WritePhase(s, ApplyAll(s.disk, plan[..i]), area, key, TmpKey(key, draw), VersionDir(env, s, fw, who), sweep)
      && (i == |plan| ==>
            ApplyAll(s.disk, plan[..i]) == CommitDisk(s, area, key, VersionDir(env, s, fw, who), sweep, |sweep|))
  {
    hide BuildSteps, VersionDir, Copyable, WritePhase, Reap, Apply, ValidVersion, ValidDevice, PutDir, TmpKey;
    var tmp, dir := TmpKey(key, draw), VersionDir(env, s, fw, who);
    var build := BuildSteps(env, s, area, key, fw, who, draw);
    var erase := if key in s.disk.In(area) then ClearSteps(area, key, clear) else [];
    var rest := [MoveDir(area, tmp, area, key)] + SweepSteps(sweep);
    TmpNotKey(key, draw);
    BuildBuilds(env, s, area, key, fw, who, draw);
    PrefixSplit(s.disk, build, erase + rest, i);
    if i <= |build| {
      BuildTemporary(env, s, area, key, fw, who, draw);
      TemporaryPrefix(s.disk, build, i);
      UntouchedPhase(s, ApplyAll(s.disk, build[..i]), area, key, tmp, dir, sweep);
    } else {
      ReplacePrefix(s, area, key, tmp, dir, clear, sweep, i - |build|);
    }
  }

  lemma UntouchedPhase(s: State, disk: Disk, area: Area, key: Key, tmp: Key, dir: Dir, sweep: seq<string>)
    requires Reap(disk) == Reap(s.disk)
    ensures WritePhase(s, disk, area, key, tmp, dir, sweep)
  {
  }

  lemma ClearedPhase(s: State, disk: Disk, area: Area, key: Key, tmp: Key, dir: Dir, sweep: seq<string>)
    requires key in s.disk.In(area) && Shrunk(PutDir(s.disk, area, tmp, dir), disk, area, key)
    ensures WritePhase(s, disk, area, key, tmp, dir, sweep)
  {
  }

  lemma CommittedPhase(s: State, area: Area, key: Key, tmp: Key, dir: Dir, sweep: seq<string>, m: nat)
    requires m <= |sweep|
    ensures WritePhase(s, CommitDisk(s, area, key, dir, sweep, m), area, key, tmp, dir, sweep)
    ensures CommitDisk(s, area, key, dir, sweep, m)
         == PutDir(s.disk, area, key, dir).(incoming := s.disk.incoming - Elements(sweep[..m]))
  {
  }

  lemma BuiltStill(d: Disk, area: Area, key: Key, tmp: Key, dir: Dir)
    requires key in d.In(area)
    ensures key in PutDir(d, area, tmp, dir).In(area)
  {
  }

  /** After the build: clear, rename and sweep. */
  lemma ReplacePrefix(s: State, area: Area, key: Key, tmp: Key, dir: Dir, clear: seq<string>, sweep: seq<string>,
                      j: nat)
    requires tmp != key && tmp !in s.disk.In(area) && 0 < j
    requires j <= |(if key in s.disk.In(area) then ClearSteps(area, key, clear) else [])
                   + ([MoveDir(area, tmp, area, key)] + SweepSteps(sweep))|
    ensures var plan := (if key in s.disk.In(area) then ClearSteps(area, key, clear) else [])
                        + ([MoveDir(area, tmp, area, key)] + SweepSteps(sweep));
      var disk := ApplyAll(PutDir(s.disk, area, tmp, dir), plan[..j]);
      && WritePhase(s, disk, area, key, tmp, dir, sweep)
      && (j == |plan| ==> disk == CommitDisk(s, area, key, dir, sweep, |sweep|))
  {
    hide Apply, Reap, PutDir, DropDir, WritePhase, Shrunk, CommitDisk;
    var built := PutDir(s.disk, area, tmp, dir);
    var erase := if key in s.disk.In(area) then ClearSteps(area, key, clear) else [];
    var rest := [MoveDir(area, tmp, area, key)] + SweepSteps(sweep);
    PrefixSplit(built, erase, rest, j);
    EraseThenCommit(s, area, key, tmp, dir, clear, sweep, if j > |erase| then j - |erase| else 0);
    if j < |erase| {
      BuiltStill(s.disk, area, key, tmp, dir);
      ClearPrefix(built, area, key, clear, j);
      ClearedPhase(s, ApplyAll(built, erase[..j]), area, key, tmp, dir, sweep);
    } else if j > |erase| {
      var m := j - |erase| - 1;
      CommittedPhase(s, area, key, tmp, dir, sweep, m);
      assert m == |sweep| ==> sweep[..m] == sweep;
    } else {
      assert rest[..0] == [];
      DropShrinks(built, area, key);
      ClearedPhase(s, DropDir(built, area, key), area, key, tmp, dir, sweep);
    }
  }

  lemma WriteCrash(env: Env, s: State, p: State, area: Area, key: Key, fw: Firmware, who: Option<string>,
                   draw: Draw, clear: seq<string>, sweep: seq<string>, i: nat)
    requires Cached(env, s) && Cached(env, p)
    requires Copyable(s.disk, s.index.blobPaths, fw.blobs) && FreshDraw(s, area, key, fw, draw)
    requires IsCommitOf(env, s, p, area, key, fw, who) && key !in s.index.live && key.Valid()
    requires Elements(sweep) <= Owned(p.index.live, p.index.staged)
    requires i <= |WritePlan(env, s, area, key, fw, who, draw, clear, sweep)|
    ensures var disk := ApplyAll(s.disk, WritePlan(env, s, area, key, fw, who, draw, clear, sweep)[..i]);
      || Recovers(env, disk, s)
      || Recovers(env, disk, p)
      || (key in s.index.staged && RecoversTorn(env, disk, s, area, key))
  {
    hide Cached, Recovers, RecoversTorn, WritePlan, WritePhase, ApplyAll, VersionDir, Copyable, Owned, FreshDraw,
      ValidDevice, ValidVersion;
    var disk := ApplyAll(s.disk, WritePlan(env, s, area, key, fw, who, draw, clear, sweep)[..i]);
    TmpUnused(s, area, key, fw, draw);
    WritePrefix(env, s, area, key, fw, who, draw, clear, sweep, i);
    PhaseRecovers(env, s, p, area, key, TmpKey(key, draw), VersionDir(env, s, fw, who), sweep, disk);
  }

  lemma TmpUnused(s: State, area: Area, key: Key, fw: Firmware, draw: Draw)
    requires FreshDraw(s, area, key, fw, draw)
    ensures TmpKey(key, draw) !in s.disk.In(area) && StartsWith(TmpKey(key, draw).version, TMP_PREFIX)
  {
  }

  /** Run to the end, the plan leaves the committed tree without the swept uploads. */
  lemma WriteCompletes(env: Env, s: State, p: State, area: Area, key: Key, fw: Firmware, who: Option<string>,
                       draw: Draw, clear: seq<string>, sweep: seq<string>)
    requires Copyable(s.disk, s.index.blobPaths, fw.blobs) && FreshDraw(s, area, key, fw, draw)
    requires IsCommitOf(env, s, p, area, key, fw, who) && key.Valid()
    ensures ApplyAll(s.disk, WritePlan(env, s, area, key, fw, who, draw, clear, sweep))
         == p.disk.(incoming := p.disk.incoming - Elements(sweep))
  {
    var plan := WritePlan(env, s, area, key, fw, who, draw, clear, sweep);
    WritePrefix(env, s, area, key, fw, who, draw, clear, sweep, |plan|);
    assert plan[..|plan|] == plan && sweep[..|sweep|] == sweep;
  }

  lemma PhaseRecovers(env: Env, s: State, p: State, area: Area, key: Key, tmp: Key, dir: Dir, sweep: seq<string>,
                      disk: Disk)
    requires Cached(env, s) && Cached(env, p) && p.disk == PutDir(s.disk, area, key, dir)
    requires StartsWith(tmp.version, TMP_PREFIX) && tmp !in s.disk.In(area) && key !in s.index.live && key.Valid()
    requires Elements(sweep) <= Owned(p.index.live, p.index.staged)
    requires WritePhase(s, disk, area, key, tmp, dir, sweep)
    ensures || Recovers(env, disk, s)
            || Recovers(env, disk, p)
            || (key in s.index.staged && RecoversTorn(env, disk, s, area, key))
  {
    hide Cached, Invariant, Recovers, RecoversTorn, Shrunk, Reap, Owned, ValidDevice, ValidVersion;
    if Reap(disk) == Reap(s.disk) {
      RecoversState(env, disk, s);
    } else if key in s.disk.In(area) && Shrunk(PutDir(s.disk, area, tmp, dir), disk, area, key) {
      ClearingCrash(env, s, area, key, tmp, dir, disk);
    } else {
      var m :| 0 <= m <= |sweep| && disk == CommitDisk(s, area, key, dir, sweep, m);
      SweepingCrash(env, p, sweep, m);
    }
  }

  lemma TmpNotKey(key: Key, draw: Draw)
    requires key.Valid()
    ensures TmpKey(key, draw) != key && !StartsWith(key.version, TMP_PREFIX)
  {
    NameSpacesDisjoint(key.version, "", "");
  }

  /** The disk once the old directory is gone, and after the rename and `m - 1` removals. */
  lemma EraseThenCommit(s: State, area: Area, key: Key, tmp: Key, dir: Dir, clear: seq<string>, sweep: seq<string>,
                        m: nat)
    requires tmp != key && tmp !in s.disk.In(area)
    requires m <= 1 + |sweep|
    ensures var built := PutDir(s.disk, area, tmp, dir);
      var erased := ApplyAll(built, if key in s.disk.In(area) then ClearSteps(area, key, clear) else []);
      && erased == (if key in s.disk.In(area) then DropDir(built, area, key) else built)
      && (m > 0 ==> ApplyAll(erased, ([MoveDir(area, tmp, area, key)] + SweepSteps(sweep))[..m])
                    == PutDir(s.disk, area, key, dir).(incoming := s.disk.incoming - Elements(sweep[..m - 1])))
  {
    var built := PutDir(s.disk, area, tmp, dir);
    if key in s.disk.In(area) {
      ClearClears(built, area, key, clear);
    }
    MoveCommits(s.disk, area, key, tmp, dir);
    var erased := ApplyAll(built, if key in s.disk.In(area) then ClearSteps(area, key, clear) else []);
    if m > 0 {
      var commit := [MoveDir(area, tmp, area, key)];
      PrefixSplit(erased, commit, SweepSteps(sweep), m);
      ApplyOne(erased, commit[0]);
      SweepPrefix(PutDir(s.disk, area, key, dir), sweep, m - 1);
    }
  }

  lemma SweepingCrash(env: Env, p: State, sweep: seq<string>, m: nat)
    requires Cached(env, p) && m <= |sweep| && Elements(sweep) <= Owned(p.index.live, p.index.staged)
    ensures Recovers(env, p.disk.(incoming := p.disk.incoming - Elements(sweep[..m])), p)
  {
    hide Cached, Invariant, Owned;
    PartialSweepKeeps(env, p, Elements(sweep[..m]));
    var disk := p.disk.(incoming := p.disk.incoming - Elements(sweep[..m]));
    RecoversState(env, disk, State(disk, p.index, p.bumps));
  }

  /** A build directory changes nothing a scan sees. */
  lemma BuiltScans(env: Env, d: Disk, area: Area, tmp: Key, dir: Dir)
    requires StartsWith(tmp.version, TMP_PREFIX)
    ensures Scan(env, PutDir(d, area, tmp, dir)) == Scan(env, d)
  {
    hide ManifestIn, SubmitterIn, Rebuild, ScanLive, ScanStaged;
    ReapPut(d.In(area), tmp, dir);
    assert Reap(PutDir(d, area, tmp, dir)) == Reap(d);
    ReapInvisible(env, PutDir(d, area, tmp, dir));
    ReapInvisible(env, d);
  }

  lemma ShrunkKeepsLive(d: Disk, area: Area, tmp: Key, dir: Dir, e: Disk, key: Key)
    requires area == Staging && Shrunk(PutDir(d, area, tmp, dir), e, area, key)
    ensures e.live == d.live
  {
  }

  /** Stopped while the old directory is being cleared. */
  lemma ClearingCrash(env: Env, s: State, area: Area, key: Key, tmp: Key, dir: Dir, e: Disk)
    requires Cached(env, s) && key !in s.index.live && key.Valid()
    requires StartsWith(tmp.version, TMP_PREFIX) && tmp !in s.disk.In(area)
    requires Shrunk(PutDir(s.disk, area, tmp, dir), e, area, key)
    ensures Recovers(env, e, s) || (key in s.index.staged && RecoversTorn(env, e, s, area, key))
  {
    hide Invariant, Recovers, RecoversTorn, OnlyEntryTorn, Reap, PutDir, Shrunk, ScanLive, ScanStaged, Rebuild, EnvOk;
    var built := PutDir(s.disk, area, tmp, dir);
    BuiltScans(env, s.disk, area, tmp, dir);
    ClearingKeepsDirs(s.disk, area, tmp, dir, e, key);
    if area == Live || key !in s.index.staged {
      ClearingUnindexed(env, built, e, area, key);
      var q := State(e, s.index, s.bumps);
      RecoversState(env, e, q);
      if Invariant(env, s) {
        SameIndexedDirs(env, s, e);
      }
      RecoversSame(env, e, q, s);
    } else {
      ClearingStaged(env, built, e, key);
      ShrunkKeepsLive(s.disk, area, tmp, dir, e, key);
      TornRecovers(env, s, e, key);
    }
  }

  lemma RecoversSame(env: Env, disk: Disk, q: State, s: State)
    requires Recovers(env, disk, q) && q.index == s.index && (Invariant(env, s) ==> Invariant(env, q))
    ensures Recovers(env, disk, s)
  {
    hide Invariant;
  }

  /** A tree in which only the staged directory `key` suffered. */
  lemma TornRecovers(env: Env, s: State, e: Disk, key: Key)
    requires Cached(env, s) && OnlyEntryTorn(s.index, Scan(env, e), key)
    requires e.live == s.disk.live && e.incoming == s.disk.incoming
    requires forall k :: k in s.disk.staging && k != key ==> k in e.staging && e.staging[k] == s.disk.staging[k]
    ensures RecoversTorn(env, e, s, Staging, key)
  {
    hide OnlyEntryTorn, Rebuild, EnvOk;
    ReapInvisible(env, e);
    LiveUntouched(env, s, e);
    forall k | k in s.index.staged ensures k in s.disk.staging && !StartsWith(k.version, TMP_PREFIX) {
      IndexedProper(env, s, k);
    }
  }

  lemma IndexedProper(env: Env, s: State, k: Key)
    requires Cached(env, s) && k in s.index.staged
    ensures k in s.disk.staging && !StartsWith(k.version, TMP_PREFIX)
    ensures ManifestIn(env, k, s.disk.staging[k]) == Some(s.index.staged[k].firmware)
    ensures SubmitterIn(env, s.disk.staging[k]) == s.index.staged[k].submittedBy
  {
  }

  lemma LiveUntouched(env: Env, s: State, e: Disk)
    requires Cached(env, s) && e.live == s.disk.live
    ensures LivePreserved(s, Opened(env, e))
  {
    ReapInvisible(env, e);
  }

  /** A tree with the same scan and the same indexed directories is as sound. */
  lemma SameIndexedDirs(env: Env, s: State, e: Disk)
    requires Invariant(env, s) && Scan(env, e) == s.index && e.incoming == s.disk.incoming
    requires forall k :: k in s.index.live && k in s.disk.live ==> k in e.live && e.live[k] == s.disk.live[k]
    requires forall k :: k in s.index.staged && k in s.disk.staging ==>
      k in e.staging && e.staging[k] == s.disk.staging[k]
    ensures Invariant(env, State(e, s.index, s.bumps))
  {
    AllHoldKept(env, s.disk.live, e.live, s.index.live);
    AllHoldKept(env, s.disk.staging, e.staging, StagedManifests(s.index.staged));
  }

  lemma ClearingKeepsDirs(d: Disk, area: Area, tmp: Key, dir: Dir, e: Disk, key: Key)
    requires tmp !in d.In(area) && Shrunk(PutDir(d, area, tmp, dir), e, area, key)
    ensures e.incoming == d.incoming
    ensures forall k :: k in d.live && (area == Live ==> k != key) ==> k in e.live && e.live[k] == d.live[k]
    ensures forall k :: k in d.staging && (area == Staging ==> k != key) ==>
      k in e.staging && e.staging[k] == d.staging[k]
  {
    ShrunkKeepsOthers(PutDir(d, area, tmp, dir), e, area, key);
  }

  lemma ShrunkKeepsOthers(d: Disk, e: Disk, area: Area, key: Key)
    requires Shrunk(d, e, area, key)
    ensures forall k :: k in d.In(area) && k != key ==> k in e.In(area) && e.In(area)[k] == d.In(area)[k]
    ensures forall other :: other != area ==> e.In(other) == d.In(other)
    ensures e.incoming == d.incoming
  {
    forall k | k in d.In(area) && k != key ensures k in e.In(area) && e.In(area)[k] == d.In(area)[k] {
      assert k in d.In(area) - {key} && (e.In(area) - {key})[k] == (d.In(area) - {key})[k];
    }
  }

  lemma AllHoldKept(env: Env, d: map<Key, Dir>, e: map<Key, Dir>, fws: map<Key, Firmware>)
    requires AllHold(env, d, fws) && forall k :: k in fws && k in d ==> k in e && e[k] == d[k]
    ensures AllHold(env, e, fws)
  {
  }

  // ----- the operations -----

  /** The state just before `stage` sweeps the incoming pool. */
  ghost function SubmittedState(env: Env, s: State, fw: Firmware, who: string): State
    requires KeyOf(fw).Ok? && Copyable(s.disk, s.index.blobPaths, fw.blobs)
  {
    var key := KeyOf(fw).value;
    WithIndex(s.disk.(staging := s.disk.staging[key := VersionDir(env, s, fw, Some(who))]),
              s.index.live, s.index.staged[key := Staged(fw, who)], s.bumps + 1)
  }

  lemma StagePlaced(env: Env, s: State, fw: Firmware, who: string)
    requires Cached(env, s) && Stage(env, s, fw, who).result.Ok? && Trimmed(who)
    ensures KeyOf(fw).Ok? && Copyable(s.disk, s.index.blobPaths, fw.blobs)
    ensures var key, p := KeyOf(fw).value, SubmittedState(env, s, fw, who);
      && key.Valid() && key !in s.index.live && Cached(env, p) && IsCommitOf(env, s, p, Staging, key, fw, Some(who))
      && (Invariant(env, s) && SameFileSameSha(fw) ==> Invariant(env, p))
      && Stage(env, s, fw, who).state == Swept(p)
      && p.index.live == s.index.live && p.index.staged == Stage(env, s, fw, who).state.index.staged
      && p.disk.incoming == s.disk.incoming
  {
    hide Invariant, Rebuild, ManifestIn, SubmitterIn, VersionDir, Holds, SameFileSameSha, FirstFault, EnvOk, ScanLive,
      ScanStaged;
    VerdictOk(env, s.index, fw);
    var key, dir := KeyOf(fw).value, VersionDir(env, s, fw, Some(who));
    VersionDirScans(env, s, fw, Some(who), key);
    ScanPut(env, s.disk.staging, key, dir);
    if Invariant(env, s) && SameFileSameSha(fw) {
      VersionDirHolds(env, s, fw, Some(who));
      PlaceStaged(env, s, key, dir, Staged(fw, who), s.bumps + 1);
    }
  }

  lemma PublishPlaced(env: Env, s: State, fw: Firmware)
    requires Cached(env, s) && Publish(env, s, fw).result.Ok? && Orderly(s, PublishOp(fw))
    ensures KeyOf(fw).Ok? && Copyable(s.disk, s.index.blobPaths, fw.blobs)
    ensures var key, p := KeyOf(fw).value, Published(env, s, fw);
      && key.Valid() && key !in s.index.live && Cached(env, p) && IsCommitOf(env, s, p, Live, key, fw, None)
      && (Invariant(env, s) && SameFileSameSha(fw) ==> Invariant(env, p))
      && Publish(env, s, fw).state == Swept(p)
      && p.index.live == Publish(env, s, fw).state.index.live && p.index.staged == s.index.staged
      && p.disk.incoming == s.disk.incoming
  {
    hide Invariant, Rebuild, ManifestIn, SubmitterIn, VersionDir, Holds, SameFileSameSha, FirstFault, EnvOk, ScanLive,
      ScanStaged;
    VerdictOk(env, s.index, fw);
    var key, dir := KeyOf(fw).value, VersionDir(env, s, fw, None);
    VersionDirScans(env, s, fw, None, key);
    ScanPut(env, s.disk.live, key, dir);
    DropAbsent(s.index.staged, key);
    if Invariant(env, s) && SameFileSameSha(fw) {
      PublishPlaces(env, s, fw);
    }
  }

  /** `stage` interrupted after any number of filesystem calls. The index of a fresh key is
      all-or-nothing, and its contents are sound; a re-staged key can also be torn, and then that
      entry alone. Run to the end, the plan leaves exactly the tree the operation specifies. */
  lemma StageCrash(env: Env, s: State, fw: Firmware, who: string, draw: Draw, clear: seq<string>, sweep: seq<string>,
                   i: nat)
    requires Cached(env, s) && Stage(env, s, fw, who).result.Ok? && Trimmed(who)
    requires KeyOf(fw).Ok? && FreshDraw(s, Staging, KeyOf(fw).value, fw, draw)
    requires Elements(sweep) == s.disk.incoming.Keys * Owned(s.index.live, Stage(env, s, fw, who).state.index.staged)
    requires i <= |WritePlan(env, s, Staging, KeyOf(fw).value, fw, Some(who), draw, clear, sweep)|
    ensures var key, after := KeyOf(fw).value, Stage(env, s, fw, who).state;
      var plan := WritePlan(env, s, Staging, key, fw, Some(who), draw, clear, sweep);
      var disk := ApplyAll(s.disk, plan[..i]);
      && (|| RecoversEither(env, disk, s, after, SameFileSameSha(fw))
          || (key in s.index.staged && RecoversTorn(env, disk, s, Staging, key)))
      && ApplyAll(s.disk, plan) == after.disk
  {
    hide Cached, Invariant, Stage, SubmittedState, Swept, Recovers, RecoversTorn, WritePlan, ApplyAll, Copyable,
      FreshDraw, KeyOf, SameFileSameSha;
    StagePlaced(env, s, fw, who);
    var key, p := KeyOf(fw).value, SubmittedState(env, s, fw, who);
    SweepMatches(env, p, sweep);
    WriteCrash(env, s, p, Staging, key, fw, Some(who), draw, clear, sweep, i);
    WriteCompletes(env, s, p, Staging, key, fw, Some(who), draw, clear, sweep);
    var disk := ApplyAll(s.disk, WritePlan(env, s, Staging, key, fw, Some(who), draw, clear, sweep)[..i]);
    EitherOf(env, disk, s, p, Stage(env, s, fw, who).state, SameFileSameSha(fw));
  }

  /** The index is the one before or the one after; the contents are sound if they were and the
      new manifest's are. */
  ghost predicate RecoversEither(env: Env, disk: Disk, before: State, after: State, sound: bool) {
    && (Opened(env, disk).index == before.index || Opened(env, disk).index == after.index)
    && (Invariant(env, before) && sound ==> Invariant(env, Opened(env, disk)))
  }

  lemma EitherOf(env: Env, disk: Disk, before: State, p: State, after: State, sound: bool)
    requires p.index == after.index && (Invariant(env, before) && sound ==> Invariant(env, p))
    ensures Recovers(env, disk, before) || Recovers(env, disk, p) ==> RecoversEither(env, disk, before, after, sound)
  {
    hide Invariant;
  }

  lemma SweepMatches(env: Env, p: State, sweep: seq<string>)
    requires Cached(env, p)
    requires Elements(sweep) == p.disk.incoming.Keys * Owned(p.index.live, p.index.staged)
    ensures Swept(p).disk == p.disk.(incoming := p.disk.incoming - Elements(sweep)) && Swept(p).index == p.index
  {
    SweptCached(env, p);
    OwnedPaths(p.disk.incoming.Keys, p.index.live, p.index.staged);
    forall n | n in Owned(p.index.live, p.index.staged) ensures ValidSha(n) {
      OwnedValid(p, n);
    }
    assert SweptIncoming(p.disk.incoming, PathOwned(p.index.blobPaths)) == p.disk.incoming - Elements(sweep);
  }

  lemma OwnedValid(p: State, n: string)
    requires n in Owned(p.index.live, p.index.staged)
    ensures ValidSha(n)
  {
  }

  /** `publish` interrupted after any number of filesystem calls: the index is all-or-nothing,
      whatever the file names, and the contents are sound when equal names mean equal content. */
  lemma PublishCrash(env: Env, s: State, fw: Firmware, draw: Draw, clear: seq<string>, sweep: seq<string>, i: nat)
    requires Cached(env, s) && Publish(env, s, fw).result.Ok? && Orderly(s, PublishOp(fw))
    requires KeyOf(fw).Ok? && FreshDraw(s, Live, KeyOf(fw).value, fw, draw)
    requires Elements(sweep) == s.disk.incoming.Keys * Owned(Publish(env, s, fw).state.index.live, s.index.staged)
    requires i <= |WritePlan(env, s, Live, KeyOf(fw).value, fw, None, draw, clear, sweep)|
    ensures var key, after := KeyOf(fw).value, Publish(env, s, fw).state;
      var plan := WritePlan(env, s, Live, key, fw, None, draw, clear, sweep);
      && RecoversEither(env, ApplyAll(s.disk, plan[..i]), s, after, SameFileSameSha(fw))
      && ApplyAll(s.disk, plan) == after.disk
  {
    hide Cached, Invariant, Publish, Published, Swept, Recovers, WritePlan, ApplyAll, Copyable, FreshDraw, KeyOf,
      SameFileSameSha;
    PublishPlaced(env, s, fw);
    var key, p := KeyOf(fw).value, Published(env, s, fw);
    SweepMatches(env, p, sweep);
    WriteCrash(env, s, p, Live, key, fw, None, draw, clear, sweep, i);
    WriteCompletes(env, s, p, Live, key, fw, None, draw, clear, sweep);
    var disk := ApplyAll(s.disk, WritePlan(env, s, Live, key, fw, None, draw, clear, sweep)[..i]);
    EitherOf(env, disk, s, p, Publish(env, s, fw).state, SameFileSameSha(fw));
  }

  /** `approve`: the rename commits; the submitter file is removed afterwards. */
  function ApprovePlan(key: Key): seq<FsStep> {
    [MoveDir(Staging, key, Live, key), RemoveFile(Live, key, SUBMITTED_BY)]
  }

  lemma ApproveCrash(env: Env, s: State, device: string, version: string, i: nat)
    requires Cached(env, s) && Approve(s, device, version).result.Ok? && i <= 2
    ensures var plan, after := ApprovePlan(Key(device, version)), Approve(s, device, version).state;
      var t := Opened(env, ApplyAll(s.disk, plan[..i]));
      && t.index == (if i == 0 then s.index else after.index)
      && (Invariant(env, s) ==> Invariant(env, t))
      && ApplyAll(s.disk, plan) == after.disk
  {
    hide Approve, Invariant, Cached, WithIndex, Opened, Reap, PutDir, DropDir;
    var plan, after := ApprovePlan(Key(device, version)), Approve(s, device, version).state;
    ApproveDisk(env, s, device, version);
    ApproveApplied(s.disk, Key(device, version));
    assert plan[..0] == [] && plan[..1] == [plan[0]] && plan[..2] == plan;
    if i == 0 {
      RecoversState(env, s.disk, s);
    } else if i == 1 {
      ApproveMoved(env, s, Key(device, version));
      var mid := MovedState(s, Key(device, version));
      RecoversState(env, mid.disk, mid);
    } else {
      ApproveCached(env, s, device, version);
      if Invariant(env, s) { ApproveKeeps(env, s, device, version); }
      RecoversState(env, after.disk, after);
    }
  }

  lemma ApproveApplied(d: Disk, key: Key)
    requires key in d.staging
    ensures var moved := PutDir(DropDir(d, Staging, key), Live, key, d.staging[key]);
      && ApplyAll(d, [ApprovePlan(key)[0]]) == moved
      && ApplyAll(d, ApprovePlan(key)) == PutDir(DropDir(d, Staging, key), Live, key, d.staging[key] - {SUBMITTED_BY})
  {
    var plan := ApprovePlan(key);
    ApplyOne(d, plan[0]);
    ApplyTwo(d, plan[0], plan[1]);
    assert d.live[key := d.staging[key]][key := d.staging[key] - {SUBMITTED_BY}]
        == d.live[key := d.staging[key] - {SUBMITTED_BY}];
  }

  /** Between the rename and the removal of the submitter file. */
  ghost function MovedState(s: State, key: Key): State
    requires key in s.index.staged && key in s.disk.staging
  {
    WithIndex(PutDir(DropDir(s.disk, Staging, key), Live, key, s.disk.staging[key]),
              s.index.live[key := s.index.staged[key].firmware], s.index.staged - {key}, 0)
  }

  lemma ApproveDisk(env: Env, s: State, device: string, version: string)
    requires Approve(s, device, version).result.Ok?
    ensures var key, after := Key(device, version), Approve(s, device, version).state;
      && key in s.disk.staging && key in s.index.staged && key !in s.index.live
      && after.disk == PutDir(DropDir(s.disk, Staging, key), Live, key, s.disk.staging[key] - {SUBMITTED_BY})
      && MovedState(s, key).disk == PutDir(DropDir(s.disk, Staging, key), Live, key, s.disk.staging[key])
      && after.index == MovedState(s, key).index
  {
  }

  /** Right after the rename the submitter file is still there, and does not matter. */
  lemma ApproveMoved(env: Env, s: State, key: Key)
    requires Cached(env, s) && key in s.index.staged && key !in s.index.live && key in s.disk.staging
    ensures Cached(env, MovedState(s, key))
    ensures Invariant(env, s) ==> Invariant(env, MovedState(s, key))
  {
    hide Invariant, ManifestIn, SubmitterIn, Rebuild, EnvOk, ScanLive, ScanStaged;
    IndexedProper(env, s, key);
    ScanDrop(env, s.disk.staging, key);
    ScanPut(env, s.disk.live, key, s.disk.staging[key]);
    if Invariant(env, s) {
      ApproveMovedSound(env, s, key);
    }
  }

  lemma ApproveMovedSound(env: Env, s: State, key: Key)
    requires Invariant(env, s) && key in s.index.staged && key in s.disk.staging
    ensures Invariant(env, MovedState(s, key))
  {
    var fw := s.index.staged[key].firmware;
    assert StagedManifests(s.index.staged)[key] == fw;
    RemoveStaged(env, s, key, 0);
    var removed := WithIndex(s.disk.(staging := s.disk.staging - {key}), s.index.live, s.index.staged - {key}, 0);
    PlaceLive(env, removed, key, s.disk.staging[key], fw, 0);
  }

  /** Opening while a staged directory is half removed. */
  lemma TornByClearing(env: Env, s: State, disk: Disk, key: Key)
    requires Cached(env, s) && key in s.index.staged && Shrunk(s.disk, disk, Staging, key)
    ensures RecoversTorn(env, disk, s, Staging, key)
  {
    hide OnlyEntryTorn, Rebuild, ManifestIn, EnvOk, RecoversTorn;
    ClearingStaged(env, s.disk, disk, key);
    ShrunkKeepsOthers(s.disk, disk, Staging, key);
    assert disk.live == disk.In(Live) == s.disk.In(Live);
    TornRecovers(env, s, disk, key);
  }

  /** `reject` is not atomic, but only the rejected entry can be torn; run to the end it is gone. */
  lemma RejectCrash(env: Env, s: State, device: string, version: string, order: seq<string>, i: nat)
    requires Cached(env, s) && Reject(s, device, version).1.Ok?
    requires i <= |ClearSteps(Staging, Key(device, version), order)|
    ensures var key, plan := Key(device, version), ClearSteps(Staging, Key(device, version), order);
      var disk := ApplyAll(s.disk, plan[..i]);
      && RecoversTorn(env, disk, s, Staging, key)
      && (i == |plan| ==>
            && disk == Reject(s, device, version).0.disk
            && Recovers(env, disk, Reject(s, device, version).0)
            && (Invariant(env, s) ==> Invariant(env, Reject(s, device, version).0)))
  {
    hide Invariant, Cached, Shrunk, RecoversTorn, Opened, Recovers, Apply, Rebuild;
    var key, plan := Key(device, version), ClearSteps(Staging, Key(device, version), order);
    var disk := ApplyAll(s.disk, plan[..i]);
    IndexedProper(env, s, key);
    if i <= |order| {
      ClearPrefix(s.disk, Staging, key, order, i);
    } else {
      assert plan[..i] == plan;
      ClearClears(s.disk, Staging, key, order);
      DropShrinks(s.disk, Staging, key);
      RejectCached(env, s, device, version);
      RecoversState(env, disk, Reject(s, device, version).0);
      if Invariant(env, s) { RejectKeeps(env, s, device, version); }
    }
    TornByClearing(env, s, disk, key);
  }

  /** `put_blob` of new content: a temporary upload, then the rename. */
  function UploadPlan(sha: string, content: Bytes, now: int, suffix: string, torn: Bytes -> Bytes): seq<FsStep> {
    var scratch := sha + TMP_PREFIX + suffix;
    [WriteUpload(scratch, Upload(torn(content), now)), WriteUpload(scratch, Upload(content, now)),
     MoveUpload(scratch, sha)]
  }

  lemma {:induction false} ContainsMiddle(a: string, sub: string, b: string)
    ensures Contains(a + sub + b, sub)
  {
    if a == "" {
      assert sub <= a + sub + b;
    } else {
      assert (a + sub + b)[1..] == a[1..] + sub + b;
      ContainsMiddle(a[1..], sub, b);
    }
  }

  lemma UploadCrash(env: Env, s: State, content: Bytes, now: int, suffix: string, torn: Bytes -> Bytes, i: nat)
    requires Cached(env, s) && PutBlob(env, s, content, now).1.Ok? && i <= 3
    requires env.digest(content) !in s.disk.incoming
    requires env.digest(content) + TMP_PREFIX + suffix !in s.disk.incoming
    ensures var plan := UploadPlan(env.digest(content), content, now, suffix, torn);
      var t, after := Opened(env, ApplyAll(s.disk, plan[..i])), PutBlob(env, s, content, now).0;
      && t.index == (if i < 3 then s.index else after.index)
      && (Invariant(env, s) ==> Invariant(env, t))
      && ApplyAll(s.disk, plan) == after.disk
  {
    hide Cached, Invariant, PutBlob, Opened, Reap;
    var sha := env.digest(content);
    var plan := UploadPlan(sha, content, now, suffix, torn);
    UploadDisk(env, s, content, now);
    UploadApplied(s.disk, sha, content, now, suffix, torn);
    if i < 3 {
      UploadEarly(s.disk, sha, content, now, suffix, torn, i);
      RecoversState(env, ApplyAll(s.disk, plan[..i]), s);
    } else {
      var after := PutBlob(env, s, content, now).0;
      assert plan[..3] == plan;
      PutBlobCached(env, s, content, now);
      if Invariant(env, s) { PutBlobKeeps(env, s, content, now); }
      RecoversState(env, after.disk, after);
    }
  }

  lemma UploadDisk(env: Env, s: State, content: Bytes, now: int)
    requires PutBlob(env, s, content, now).1.Ok? && env.digest(content) !in s.disk.incoming
    ensures PutBlob(env, s, content, now).0.disk
         == s.disk.(incoming := s.disk.incoming[env.digest(content) := Upload(content, now)])
  {
  }

  lemma UploadEarly(d: Disk, sha: string, content: Bytes, now: int, suffix: string, torn: Bytes -> Bytes, i: nat)
    requires i < 3
    ensures Reap(ApplyAll(d, UploadPlan(sha, content, now, suffix, torn)[..i])) == Reap(d)
  {
    var plan := UploadPlan(sha, content, now, suffix, torn);
    ContainsMiddle(sha, TMP_PREFIX, suffix);
    assert plan[..2][..i] == plan[..i];
    TemporaryPrefix(d, plan[..2], i);
  }

  lemma UploadApplied(d: Disk, sha: string, content: Bytes, now: int, suffix: string, torn: Bytes -> Bytes)
    requires sha + TMP_PREFIX + suffix !in d.incoming
    ensures ApplyAll(d, UploadPlan(sha, content, now, suffix, torn))
         == d.(incoming := d.incoming[sha := Upload(content, now)])
  {
    var scratch := sha + TMP_PREFIX + suffix;
    var plan := UploadPlan(sha, content, now, suffix, torn);
    var two := plan[..2];
    assert plan == two + [plan[2]] && two == [plan[0], plan[1]];
    ApplyTwo(d, plan[0], plan[1]);
    ApplyConcat(d, two, [plan[2]]);
    var written := ApplyAll(d, two);
    ApplyOne(written, plan[2]);
    assert written.incoming[scratch] == Upload(content, now);
    assert (written.incoming - {scratch})[sha := Upload(content, now)] == d.incoming[sha := Upload(content, now)];
  }

  /** `gc_incoming_before` interrupted after any number of deletions: the catalogue is untouched, and
      exactly the uploads deleted so far are unavailable. */
  lemma GcCrash(env: Env, s: State, cutoff: int, order: seq<string>, i: nat)
    requires Cached(env, s) && Elements(order) == Abandoned(s, cutoff) && i <= |order|
    ensures var disk := ApplyAll(s.disk, SweepSteps(order)[..i]);
      var t := Opened(env, disk);
      && t.index.live == s.index.live && t.index.staged == s.index.staged
      && Available(t) == Available(s) - Elements(order[..i])
      && (Invariant(env, s) ==> Invariant(env, t))
      && (i == |order| ==> disk == Gc(s, cutoff).0.disk)
  {
    hide Rebuild, Abandoned, Opened, Reap;
    var gone := Elements(order[..i]);
    var disk := s.disk.(incoming := s.disk.incoming - gone);
    SweepPrefix(s.disk, order, i);
    assert gone <= Elements(order);
    assert i == |order| ==> order[..i] == order;
    GcShape(s, cutoff);
    var q := WithIndex(disk, s.index.live, s.index.staged, s.bumps);
    FewerUploads(env, s, gone);
    RecoversState(env, disk, q);
    AvailableShape(s);
    AvailableShape(q);
    OwnedReferenced(s);
    RemoveUploads(s.disk.incoming, disk.incoming, gone, Owned(s.index.live, s.index.staged));
  }

  lemma FewerUploads(env: Env, s: State, gone: set<string>)
    requires Cached(env, s)
    ensures var q := WithIndex(s.disk.(incoming := s.disk.incoming - gone), s.index.live, s.index.staged, s.bumps);
      Cached(env, q) && (Invariant(env, s) ==> Invariant(env, q))
  {
    hide Rebuild, EnvOk, ScanLive, ScanStaged;
  }

  /** An early return before the rename drops the build directory: the tree is untouched. */
  lemma {:induction false} AbandonedBuild(env: Env, s: State, area: Area, key: Key, fw: Firmware, who: Option<string>,
                                          draw: Draw, i: nat)
    requires FreshDraw(s, area, key, fw, draw) && i <= |BuildSteps(env, s, area, key, fw, who, draw)|
    ensures var steps := BuildSteps(env, s, area, key, fw, who, draw);
      DropDir(ApplyAll(s.disk, steps[..i]), area, TmpKey(key, draw)) == s.disk
  {
    var steps, tmp := BuildSteps(env, s, area, key, fw, who, draw), TmpKey(key, draw);
    if i == 0 {
      assert s.disk.In(area) - {tmp} == s.disk.In(area);
    } else {
      AbandonedBuild(env, s, area, key, fw, who, draw, i - 1);
      assert steps[..i][..i - 1] == steps[..i - 1];
      BuildConfined(env, s, area, key, fw, who, draw);
      ConfinedDrop(ApplyAll(s.disk, steps[..i - 1]), area, tmp, steps[i - 1]);
    }
  }

  /** The step works inside one directory. */
  predicate Confined(step: FsStep, area: Area, key: Key) {
    || step == MakeDir(area, key)
    || (step.WriteFile? && step.area == area && step.key == key)
    || (step.MoveFile? && step.area == area && step.key == key)
  }

  lemma ConfinedDrop(d: Disk, area: Area, key: Key, step: FsStep)
    requires Confined(step, area, key)
    ensures DropDir(Apply(d, step), area, key) == DropDir(d, area, key)
  {
    var touched := Apply(d, step).In(area);
    assert touched - {key} == d.In(area) - {key};
  }

  lemma {:induction false} CopyConfined(disk: Disk, paths: map<string, Path>, area: Area, tmp: Key, blobs: seq<Blob>,
                                        draw: Draw)
    ensures forall st :: st in CopySteps(disk, paths, area, tmp, blobs, draw) ==> Confined(st, area, tmp)
  {
    if blobs != [] {
      CopyConfined(disk, paths, area, tmp, blobs[..|blobs| - 1], draw);
    }
  }

  lemma BuildConfined(env: Env, s: State, area: Area, key: Key, fw: Firmware, who: Option<string>, draw: Draw)
    ensures forall st :: st in BuildSteps(env, s, area, key, fw, who, draw) ==> Confined(st, area, TmpKey(key, draw))
  {
    CopyConfined(s.disk, s.index.blobPaths, area, TmpKey(key, draw), fw.blobs, draw);
  }
}
