/** The index as a cache of the tree: every operation patches it, and it stays what a
    full rescan would build. File contents play no part in this. */
module StoreCache {
  import opened Basics
  import opened Names
  import opened Manifests
  import opened Tree
  import opened StoreSpec

  ghost predicate Cached(env: Env, s: State) {
    EnvOk(env) && s.index == Scan(env, s.disk)
  }

  /** The cache is right and no key is both live and staged. */
  ghost predicate Settled(env: Env, s: State) {
    Cached(env, s) && s.index.live.Keys !! s.index.staged.Keys
  }

  /** What the cache needs of a caller: submitters are trimmed, and only an unstaged key
      is published directly. */
  ghost predicate Orderly(s: State, op: Op) {
    match op
    case StageOp(fw, who) => Trimmed(who)
    case PublishOp(fw) => KeyOf(fw).Ok? ==> KeyOf(fw).value !in s.index.staged
    case _ => true
  }

  // ----- scanning a patched tree -----

  lemma ScanPut(env: Env, dirs: map<Key, Dir>, key: Key, dir: Dir)
    requires ManifestIn(env, key, dir).Some?
    ensures ScanLive(env, dirs[key := dir]) == ScanLive(env, dirs)[key := ManifestIn(env, key, dir).value]
    ensures ScanStaged(env, dirs[key := dir]) ==
            ScanStaged(env, dirs)[key := Staged(ManifestIn(env, key, dir).value, SubmitterIn(env, dir))]
  {
    hide ManifestIn, SubmitterIn;
  }

  lemma ScanDrop(env: Env, dirs: map<Key, Dir>, key: Key)
    ensures ScanLive(env, dirs - {key}) == ScanLive(env, dirs) - {key}
    ensures ScanStaged(env, dirs - {key}) == ScanStaged(env, dirs) - {key}
  {
    hide ManifestIn, SubmitterIn;
  }

  lemma VerdictOk(env: Env, index: Index, fw: Firmware)
    requires Verdict(env, index, fw, true).Ok?
    ensures var key := Verdict(env, index, fw, true).value;
      && KeyOf(fw) == Ok(key) && key.Valid() && key.device in env.slots && Claims(fw, key) && key !in index.live
      && AllNamed(fw)
      && fw.blobs != [] && |fw.blobs| <= env.slots[key.device]
      && forall b :: b in fw.blobs ==> b.Sha() in index.blobPaths && b.slot.GetOr(0) < env.slots[key.device]
  {
    var key := KeyOf(fw).value;
    forall b | b in fw.blobs
      ensures b.Named() && b.Sha() in index.blobPaths && b.slot.GetOr(0) < env.slots[key.device]
    {
      assert Fault(b, env.slots[key.device], index.blobPaths).None?;
      assert b.File() != "";
    }
  }

  /** A freshly written directory is found by the next scan, with its submitter trimmed. */
  lemma VersionDirScans(env: Env, s: State, fw: Firmware, who: Option<string>, key: Key)
    requires EnvOk(env) && Copyable(s.disk, s.index.blobPaths, fw.blobs) && AllNamed(fw)
    requires key.Valid() && key.device in env.slots && Claims(fw, key)
    ensures ManifestIn(env, key, VersionDir(env, s, fw, who)) == Some(fw)
    ensures who.Some? ==> SubmitterIn(env, VersionDir(env, s, fw, who)) == Trim(who.value)
  {
    NameSpacesDisjoint(key.version, "", "");
  }

  /** Rebuilding from a tree and manifest maps that agree with its scan gives the scan. */
  lemma IndexIsScan(env: Env, disk: Disk, live: map<Key, Firmware>, staged: map<Key, Staged>, bumps: nat)
    requires live == ScanLive(env, disk.live) && staged == ScanStaged(env, disk.staging)
    ensures WithIndex(disk, live, staged, bumps).index == Scan(env, disk)
  {
  }

  lemma DropAbsent(staged: map<Key, Staged>, key: Key)
    requires key !in staged
    ensures staged - {key} == staged
  {
  }

  // ----- the upload pool -----

  lemma RebuildAdd(incoming: set<string>, sha: string, live: map<Key, Firmware>, staged: map<Key, Staged>)
    requires ValidSha(sha) && sha !in Owned(live, staged)
    ensures Rebuild(incoming + {sha}, live, staged) == Rebuild(incoming, live, staged)[sha := Incoming(sha)]
  {
    var a, b := IncomingPaths(incoming + {sha}), IncomingPaths(incoming)[sha := Incoming(sha)];
    assert a == b;
    OverlayAdd(IncomingPaths(incoming), Live, live, sha);
    OverlayAdd(Overlay(IncomingPaths(incoming), Live, live), Staging, StagedManifests(staged), sha);
  }

  lemma OverlayAdd(base: map<string, Path>, area: Area, fws: map<Key, Firmware>, sha: string)
    requires sha !in CarriedBy(fws)
    ensures Overlay(base[sha := Incoming(sha)], area, fws) == Overlay(base, area, fws)[sha := Incoming(sha)]
  {
    var a, b := Overlay(base[sha := Incoming(sha)], area, fws), Overlay(base, area, fws)[sha := Incoming(sha)];
    assert a.Keys == b.Keys;
    forall x | x in a ensures a[x] == b[x] {
      assert a[x] == Choose(base[sha := Incoming(sha)], area, fws, x);
      if x != sha { assert Overlay(base, area, fws)[x] == Choose(base, area, fws, x); }
    }
  }

  lemma OwnedPaths(incoming: set<string>, live: map<Key, Firmware>, staged: map<Key, Staged>)
    ensures PathOwned(Rebuild(incoming, live, staged)) == Owned(live, staged)
  {
    RebuildShape(incoming, live, staged);
  }

  /** The sweep removes redundant copies only: the sha to path map is the same before and after. */
  lemma SweepKeepsPaths(s: State)
    requires s.index.blobPaths == Rebuild(s.disk.incoming.Keys, s.index.live, s.index.staged)
    ensures Swept(s).index == s.index
    ensures Swept(s).disk.incoming.Keys <= s.disk.incoming.Keys
  {
    OwnedPaths(s.disk.incoming.Keys, s.index.live, s.index.staged);
    RebuildIgnoresOwned(s.disk.incoming.Keys, Swept(s).disk.incoming.Keys, s.index.live, s.index.staged);
  }

  // ----- each operation keeps the cache -----

  lemma PutBlobCached(env: Env, s: State, content: Bytes, now: int)
    requires Cached(env, s)
    ensures Cached(env, PutBlob(env, s, content, now).0)
  {
    hide EnvOk, Rebuild, ScanLive, ScanStaged;
    if content != [] && |content| <= env.maxBlobBytes {
      var sha := env.digest(content);
      var t := PutBlob(env, s, content, now).0;
      var live, staged := s.index.live, s.index.staged;
      DigestValid(env, content);
      RebuildShape(s.disk.incoming.Keys, live, staged);
      if sha in s.index.blobPaths {
        RebuildIgnoresOwned(s.disk.incoming.Keys, t.disk.incoming.Keys, live, staged);
      } else {
        RebuildAdd(s.disk.incoming.Keys, sha, live, staged);
        assert t.disk.incoming.Keys == s.disk.incoming.Keys + {sha};
      }
    }
  }

  lemma DigestValid(env: Env, content: Bytes)
    requires EnvOk(env)
    ensures ValidSha(env.digest(content))
  {
  }

  lemma SweptCached(env: Env, s: State)
    requires Cached(env, s)
    ensures Cached(env, Swept(s)) && Swept(s).index == s.index
  {
    SweepKeepsPaths(s);
    IndexIsScan(env, Swept(s).disk, s.index.live, s.index.staged, s.bumps);
  }

  lemma StageCached(env: Env, s: State, fw: Firmware, who: string)
    requires Cached(env, s) && Trimmed(who)
    ensures Cached(env, Stage(env, s, fw, who).state)
  {
    hide EnvOk, ManifestIn, SubmitterIn, Rebuild, VersionDir, Swept, FirstFault, OverQuota, ScanLive, ScanStaged;
    if Stage(env, s, fw, who).result.Ok? {
      var key := Verdict(env, s.index, fw, true).value;
      VerdictOk(env, s.index, fw);
      VersionDirScans(env, s, fw, Some(who), key);
      var dir := VersionDir(env, s, fw, Some(who));
      ScanPut(env, s.disk.staging, key, dir);
      SweptCached(env, WithIndex(s.disk.(staging := s.disk.staging[key := dir]),
                                 s.index.live, s.index.staged[key := Staged(fw, who)], s.bumps + 1));
    }
  }

  lemma PublishCached(env: Env, s: State, fw: Firmware)
    requires Cached(env, s) && Orderly(s, PublishOp(fw))
    ensures Cached(env, Publish(env, s, fw).state)
  {
    hide EnvOk, ManifestIn, SubmitterIn, Rebuild, VersionDir, Swept, FirstFault, OverQuota, ScanLive, ScanStaged;
    if Publish(env, s, fw).result.Ok? {
      var key := Verdict(env, s.index, fw, true).value;
      VerdictOk(env, s.index, fw);
      VersionDirScans(env, s, fw, None, key);
      var dir := VersionDir(env, s, fw, None);
      ScanPut(env, s.disk.live, key, dir);
      DropAbsent(s.index.staged, key);
      SweptCached(env, WithIndex(s.disk.(live := s.disk.live[key := dir]),
                                 s.index.live[key := fw], s.index.staged - {key}, s.bumps + 1));
    }
  }

  lemma RejectCached(env: Env, s: State, device: string, version: string)
    requires Cached(env, s)
    ensures Cached(env, Reject(s, device, version).0)
  {
    ScanDrop(env, s.disk.staging, Key(device, version));
  }

  lemma ApproveCached(env: Env, s: State, device: string, version: string)
    requires Cached(env, s)
    ensures Cached(env, Approve(s, device, version).state)
  {
    hide EnvOk, ManifestIn, SubmitterIn, Rebuild, Reject;
    RejectCached(env, s, device, version);
    if Approve(s, device, version).result.Ok? {
      var key := Key(device, version);
      ScanDrop(env, s.disk.staging, key);
      SubmitterIrrelevant(env, key, s.disk.staging[key]);
      ScanPut(env, s.disk.live, key, s.disk.staging[key] - {SUBMITTED_BY});
    }
  }

  lemma SubmitterIrrelevant(env: Env, key: Key, dir: Dir)
    ensures ManifestIn(env, key, dir - {SUBMITTED_BY}) == ManifestIn(env, key, dir)
  {
  }

  lemma GcCached(env: Env, s: State, cutoff: int)
    requires Cached(env, s)
    ensures Cached(env, Gc(s, cutoff).0)
  {
    hide EnvOk, Rebuild, Abandoned;
  }

  /** A rescan of an intact tree changes nothing and wakes nobody. */
  lemma ReloadIdle(env: Env, s: State)
    requires s.index == Scan(env, s.disk)
    ensures Reload(env, s) == (s, false)
  {
  }

  lemma TemporarySkipped(env: Env, key: Key, dir: Dir)
    requires StartsWith(key.version, TMP_PREFIX)
    ensures ManifestIn(env, key, dir).None?
  {
  }

  lemma ReapScans(env: Env, dirs: map<Key, Dir>)
    ensures ScanLive(env, ReapDirs(dirs)) == ScanLive(env, dirs)
    ensures ScanStaged(env, ReapDirs(dirs)) == ScanStaged(env, dirs)
  {
    hide ManifestIn, SubmitterIn, StartsWith;
    forall k | k in dirs && StartsWith(k.version, TMP_PREFIX) ensures ManifestIn(env, k, dirs[k]).None? {
      TemporarySkipped(env, k, dirs[k]);
    }
  }

  lemma ReapUploads(incoming: map<string, Upload>)
    ensures forall n :: ValidSha(n) ==> (n in incoming <==> n in ReapIncoming(incoming))
  {
    hide ValidSha;
    forall n | ValidSha(n) ensures n in incoming <==> n in ReapIncoming(incoming) {
      NameSpacesDisjoint("", n, "");
    }
  }

  /** Reaping temporary names is invisible to the scan, whatever the tree contains. */
  lemma ReapInvisible(env: Env, disk: Disk)
    ensures Scan(env, Reap(disk)) == Scan(env, disk)
  {
    hide ManifestIn, SubmitterIn, Rebuild;
    ReapScans(env, disk.live);
    ReapScans(env, disk.staging);
    ReapUploads(disk.incoming);
    RebuildIgnoresOwned(disk.incoming.Keys, Reap(disk).incoming.Keys, ScanLive(env, disk.live),
                        ScanStaged(env, disk.staging));
  }

  lemma ReopenCached(env: Env, s: State)
    requires Cached(env, s)
    ensures Cached(env, Opened(env, s.disk)) && Opened(env, s.disk).index == s.index
  {
    ReapInvisible(env, s.disk);
  }

  lemma StepCached(env: Env, s: State, op: Op)
    requires Cached(env, s) && Orderly(s, op)
    ensures Cached(env, Step(env, s, op))
  {
    hide Cached, PutBlob, Stage, Publish, Approve, Reject, Gc, Reload, Opened;
    match op
    case PutBlobOp(content, now) => PutBlobCached(env, s, content, now);
    case StageOp(fw, who) => StageCached(env, s, fw, who);
    case PublishOp(fw) => PublishCached(env, s, fw);
    case ApproveOp(device, version) => ApproveCached(env, s, device, version);
    case RejectOp(device, version) => RejectCached(env, s, device, version);
    case GcOp(cutoff) => GcCached(env, s, cutoff);
    case ReloadOp => ReloadCached(env, s);
    case ReopenOp => ReopenCached(env, s);
  }

  lemma ReloadCached(env: Env, s: State)
    requires Cached(env, s)
    ensures Reload(env, s) == (s, false)
  {
    ReloadIdle(env, s);
  }

  // ----- whole runs -----

  ghost predicate OrderlyRun(env: Env, s: State, ops: seq<Op>) {
    ops == [] ||
    (OrderlyRun(env, s, ops[..|ops| - 1]) && Orderly(Run(env, s, ops[..|ops| - 1]), ops[|ops| - 1]))
  }

  lemma {:induction false} RunCached(env: Env, s: State, ops: seq<Op>)
    requires Cached(env, s) && OrderlyRun(env, s, ops)
    ensures Cached(env, Run(env, s, ops))
  {
    if ops != [] {
      RunCached(env, s, ops[..|ops| - 1]);
      StepCached(env, Run(env, s, ops[..|ops| - 1]), ops[|ops| - 1]);
    }
  }

  /** After any orderly run the patched index equals a full rescan: a reload changes
      nothing and notifies nobody, and a restart recovers the same index. */
  lemma CacheEqualsRescan(env: Env, s: State, ops: seq<Op>)
    requires Cached(env, s) && OrderlyRun(env, s, ops)
    ensures var t := Run(env, s, ops);
      && t.index == Scan(env, t.disk)
      && Reload(env, t) == (t, false)
      && Opened(env, t.disk).index == t.index
  {
    RunCached(env, s, ops);
    var t := Run(env, s, ops);
    ReloadIdle(env, t);
    ReopenCached(env, t);
  }

  /** Publishing leaves the index equal to a rescan exactly when the key was not staged:
      a staged key leaves the index while its directory stays on disk. */
  lemma PublishCacheIff(env: Env, s: State, fw: Firmware)
    requires Cached(env, s) && Publish(env, s, fw).result.Ok?
    ensures var t := Publish(env, s, fw).state;
      t.index == Scan(env, t.disk) <==> KeyOf(fw).value !in s.index.staged
  {
    var key, t := KeyOf(fw).value, Publish(env, s, fw).state;
    PublishLeavesStaging(env, s, fw);
    if key in s.index.staged {
      StagedStaysOnDisk(env, s, t, key);
    } else {
      PublishCached(env, s, fw);
    }
  }

  lemma PublishLeavesStaging(env: Env, s: State, fw: Firmware)
    requires Publish(env, s, fw).result.Ok?
    ensures KeyOf(fw).Ok?
    ensures Publish(env, s, fw).state.disk.staging == s.disk.staging
    ensures Publish(env, s, fw).state.index.staged == s.index.staged - {KeyOf(fw).value}
    ensures Publish(env, s, fw).state.index.live == s.index.live[KeyOf(fw).value := fw]
  {
  }

  lemma StagedStaysOnDisk(env: Env, s: State, t: State, key: Key)
    requires s.index == Scan(env, s.disk) && key in s.index.staged
    requires t.disk.staging == s.disk.staging && key !in t.index.staged
    ensures t.index != Scan(env, t.disk)
  {
    assert key in Scan(env, t.disk).staged;
  }

  /** Staging leaves the index equal to a rescan exactly when the submitter is trimmed. */
  lemma StageCacheIff(env: Env, s: State, fw: Firmware, who: string)
    requires Cached(env, s) && Stage(env, s, fw, who).result.Ok?
    ensures var t := Stage(env, s, fw, who).state;
      t.index == Scan(env, t.disk) <==> Trimmed(who)
  {
    if Trimmed(who) {
      StageCached(env, s, fw, who);
    } else {
      var key, t := KeyOf(fw).value, Stage(env, s, fw, who).state;
      VerdictOk(env, s.index, fw);
      VersionDirScans(env, s, fw, Some(who), key);
      ScannedSubmitter(env, t.disk.staging, key);
      assert t.index.staged[key].submittedBy == who;
    }
  }

  lemma ScannedSubmitter(env: Env, dirs: map<Key, Dir>, key: Key)
    requires key in dirs && ManifestIn(env, key, dirs[key]).Some?
    ensures key in ScanStaged(env, dirs) && ScanStaged(env, dirs)[key].submittedBy == SubmitterIn(env, dirs[key])
  {
  }
}
