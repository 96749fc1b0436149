/** The store invariant: the patched index is what a rescan would build, every
    file named by a manifest has the content its digest promises, and no key is
    both live and staged. Each operation keeps it. */
module StoreInvariant {
  import opened Basics
  import opened Names
  import opened Manifests
  import opened Tree
  import opened StoreSpec
  import opened StoreCache

  /** The directory holds, for every blob of the manifest, bytes with the promised digest. */
  ghost predicate Holds(env: Env, dir: Dir, fw: Firmware) {
    && AllNamed(fw)
    && forall b :: b in fw.blobs ==> b.File() in dir && env.digest(dir[b.File()]) == b.Sha()
  }

  ghost predicate AllHold(env: Env, dirs: map<Key, Dir>, fws: map<Key, Firmware>) {
    forall k :: k in fws ==> k in dirs && Holds(env, dirs[k], fws[k])
  }

  ghost predicate IncomingHolds(env: Env, incoming: map<string, Upload>) {
    forall n :: n in incoming && ValidSha(n) ==> env.digest(incoming[n].bytes) == n
  }

  ghost predicate Content(env: Env, disk: Disk, live: map<Key, Firmware>, staged: map<Key, Staged>) {
    && IncomingHolds(env, disk.incoming)
    && AllHold(env, disk.live, live)
    && AllHold(env, disk.staging, StagedManifests(staged))
  }

  ghost predicate Invariant(env: Env, s: State) {
    && Cached(env, s)
    && Content(env, s.disk, s.index.live, s.index.staged)
    && s.index.live.Keys !! s.index.staged.Keys
  }

  lemma InvariantCached(env: Env, s: State)
    requires Invariant(env, s)
    ensures Cached(env, s) && Settled(env, s)
  {
  }

  /** What a caller must respect: submitters are trimmed, equal file names mean
      equal content, and only an unstaged key is published directly. */
  ghost predicate Admissible(s: State, op: Op) {
    match op
    case StageOp(fw, who) => SameFileSameSha(fw) && Orderly(s, op)
    case PublishOp(fw) => SameFileSameSha(fw) && Orderly(s, op)
    case _ => true
  }

  // ----- admission and copying -----

  /** Exactly which manifests are admitted. */
  lemma AdmittedIff(env: Env, index: Index, fw: Firmware)
    ensures Verdict(env, index, fw, true).Ok? <==>
      && KeyOf(fw).Ok?
      && var key := KeyOf(fw).value;
         && key.device in env.slots && key !in index.live
         && 0 < |fw.blobs| <= env.slots[key.device]
         && forall b :: b in fw.blobs ==>
              b.Named() && b.Sha() in index.blobPaths && b.slot.GetOr(0) < env.slots[key.device]
  {
    if Verdict(env, index, fw, true).Ok? {
      VerdictOk(env, index, fw);
    }
  }

  /** `bytes` is what some blob named `f` had in the pool. */
  ghost predicate HasSource(f: string, bytes: Bytes, disk: Disk, paths: map<string, Path>, blobs: seq<Blob>)
    requires Copyable(disk, paths, blobs)
  {
    exists b :: b in blobs && b.File() == f && bytes == Read(disk, paths[b.Sha()]).value
  }

  ghost predicate CopyOf(files: Dir, disk: Disk, paths: map<string, Path>, blobs: seq<Blob>)
    requires Copyable(disk, paths, blobs)
  {
    && (forall b :: b in blobs ==> b.File() in files)
    && (forall f :: f in files ==> HasSource(f, files[f], disk, paths, blobs))
  }

  lemma {:induction false} CopiedFiles(disk: Disk, paths: map<string, Path>, blobs: seq<Blob>)
    requires Copyable(disk, paths, blobs)
    ensures CopyOf(Copied(disk, paths, blobs), disk, paths, blobs)
  {
    if blobs != [] {
      var rest, last := blobs[..|blobs| - 1], blobs[|blobs| - 1];
      assert forall b :: b in blobs <==> b in rest || b == last;
      CopiedFiles(disk, paths, rest);
      var files, before := Copied(disk, paths, blobs), Copied(disk, paths, rest);
      assert files == before[last.File() := Read(disk, paths[last.Sha()]).value];
      forall f | f in files ensures HasSource(f, files[f], disk, paths, blobs) {
        if f != last.File() {
          assert HasSource(f, before[f], disk, paths, rest);
        }
      }
    }
  }

  // ----- content -----

  /** Every indexed path leads to bytes with the indexed digest. */
  lemma PathContent(env: Env, s: State, sha: string)
    requires Content(env, s.disk, s.index.live, s.index.staged)
    requires s.index.blobPaths == Rebuild(s.disk.incoming.Keys, s.index.live, s.index.staged)
    requires sha in s.index.blobPaths
    ensures Read(s.disk, s.index.blobPaths[sha]).Some?
    ensures env.digest(Read(s.disk, s.index.blobPaths[sha]).value) == sha
  {
    RebuildShape(s.disk.incoming.Keys, s.index.live, s.index.staged);
    if sha in Owned(s.index.live, s.index.staged) {
      PointedContent(env, s, s.index.blobPaths[sha], sha);
    }
  }

  lemma PointedContent(env: Env, s: State, path: Path, sha: string)
    requires Content(env, s.disk, s.index.live, s.index.staged)
    requires PointsInto(path, s.index.live, s.index.staged, sha)
    ensures Read(s.disk, path).Some? && env.digest(Read(s.disk, path).value) == sha
  {
  }

  /** Once admitted, a manifest can fail to be written only for a name no file can have. */
  lemma AllCopyable(env: Env, s: State, fw: Firmware)
    requires Invariant(env, s) && Verdict(env, s.index, fw, true).Ok?
    ensures Copyable(s.disk, s.index.blobPaths, fw.blobs) <==> forall b :: b in fw.blobs ==> Creatable(b.File())
  {
    VerdictOk(env, s.index, fw);
    forall b | b in fw.blobs ensures Read(s.disk, s.index.blobPaths[b.Sha()]).Some? {
      PathContent(env, s, b.Sha());
    }
  }

  /** Bytes found under a blob's name carry the digest of some blob of that name. */
  ghost predicate HashesToSibling(env: Env, bytes: Bytes, fw: Firmware, file: string) {
    exists c :: c in fw.blobs && c.File() == file && env.digest(bytes) == c.Sha()
  }

  lemma VersionDirFile(env: Env, s: State, fw: Firmware, who: Option<string>, b: Blob)
    requires Invariant(env, s) && AllNamed(fw)
    requires Copyable(s.disk, s.index.blobPaths, fw.blobs) && b in fw.blobs
    ensures b.File() in VersionDir(env, s, fw, who)
    ensures HashesToSibling(env, VersionDir(env, s, fw, who)[b.File()], fw, b.File())
  {
    VersionDirCopies(env, s, fw, who, b);
    SourceHashes(env, s, fw, b.File(), VersionDir(env, s, fw, who)[b.File()]);
  }

  /** The manifest and submitter files never displace a blob. */
  lemma VersionDirCopies(env: Env, s: State, fw: Firmware, who: Option<string>, b: Blob)
    requires AllNamed(fw) && Copyable(s.disk, s.index.blobPaths, fw.blobs) && b in fw.blobs
    ensures b.File() in VersionDir(env, s, fw, who)
    ensures HasSource(b.File(), VersionDir(env, s, fw, who)[b.File()], s.disk, s.index.blobPaths, fw.blobs)
  {
    CopiedFiles(s.disk, s.index.blobPaths, fw.blobs);
    assert b.Named();
  }

  lemma SourceHashes(env: Env, s: State, fw: Firmware, file: string, bytes: Bytes)
    requires Invariant(env, s) && Copyable(s.disk, s.index.blobPaths, fw.blobs)
    requires HasSource(file, bytes, s.disk, s.index.blobPaths, fw.blobs)
    ensures HashesToSibling(env, bytes, fw, file)
  {
    var c :| c in fw.blobs && c.File() == file && bytes == Read(s.disk, s.index.blobPaths[c.Sha()]).value;
    PathContent(env, s, c.Sha());
  }

  /** The directory `write_version_dir` builds is sound exactly when equal names mean equal content. */
  lemma VersionDirHolds(env: Env, s: State, fw: Firmware, who: Option<string>)
    requires Invariant(env, s) && AllNamed(fw)
    requires Copyable(s.disk, s.index.blobPaths, fw.blobs)
    ensures Holds(env, VersionDir(env, s, fw, who), fw) <==> SameFileSameSha(fw)
  {
    var dir := VersionDir(env, s, fw, who);
    forall b | b in fw.blobs
      ensures b.File() in dir && HashesToSibling(env, dir[b.File()], fw, b.File())
    {
      VersionDirFile(env, s, fw, who, b);
    }
    HoldsIff(env, dir, fw);
  }

  lemma HoldsIff(env: Env, dir: Dir, fw: Firmware)
    requires AllNamed(fw)
    requires forall b :: b in fw.blobs ==> b.File() in dir && HashesToSibling(env, dir[b.File()], fw, b.File())
    ensures Holds(env, dir, fw) <==> SameFileSameSha(fw)
  {
  }

  // ----- each operation keeps the invariant -----

  lemma PutBlobKeeps(env: Env, s: State, content: Bytes, now: int)
    requires Invariant(env, s)
    ensures Invariant(env, PutBlob(env, s, content, now).0)
  {
    PutBlobCached(env, s, content, now);
  }

  lemma SweptKeeps(env: Env, s: State)
    requires Invariant(env, s)
    ensures Invariant(env, Swept(s)) && Swept(s).index == s.index
  {
    SweptCached(env, s);
  }

  /** The index agrees with one area of the tree, and the area's files are sound. */
  ghost predicate LiveSound(env: Env, dirs: map<Key, Dir>, live: map<Key, Firmware>) {
    live == ScanLive(env, dirs) && AllHold(env, dirs, live)
  }

  ghost predicate StagedSound(env: Env, dirs: map<Key, Dir>, staged: map<Key, Staged>) {
    staged == ScanStaged(env, dirs) && AllHold(env, dirs, StagedManifests(staged))
  }

  lemma InvariantParts(env: Env, disk: Disk, live: map<Key, Firmware>, staged: map<Key, Staged>, bumps: nat)
    ensures Invariant(env, WithIndex(disk, live, staged, bumps)) <==>
      && EnvOk(env) && LiveSound(env, disk.live, live) && StagedSound(env, disk.staging, staged)
      && IncomingHolds(env, disk.incoming) && live.Keys !! staged.Keys
  {
  }

  lemma InvariantHasIndex(env: Env, s: State)
    requires Invariant(env, s)
    ensures s == WithIndex(s.disk, s.index.live, s.index.staged, s.bumps)
  {
  }

  lemma StagedManifestsPatch(staged: map<Key, Staged>, key: Key, entry: Staged)
    ensures StagedManifests(staged[key := entry]) == StagedManifests(staged)[key := entry.firmware]
    ensures StagedManifests(staged - {key}) == StagedManifests(staged) - {key}
  {
  }

  lemma StagedPut(env: Env, dirs: map<Key, Dir>, staged: map<Key, Staged>, key: Key, dir: Dir, entry: Staged)
    requires StagedSound(env, dirs, staged)
    requires ManifestIn(env, key, dir) == Some(entry.firmware) && SubmitterIn(env, dir) == entry.submittedBy
    requires Holds(env, dir, entry.firmware)
    ensures StagedSound(env, dirs[key := dir], staged[key := entry])
  {
    ScanPut(env, dirs, key, dir);
    StagedManifestsPatch(staged, key, entry);
    AllHoldPut(env, dirs, StagedManifests(staged), key, dir, entry.firmware);
  }

  lemma StagedDrop(env: Env, dirs: map<Key, Dir>, staged: map<Key, Staged>, key: Key)
    requires StagedSound(env, dirs, staged)
    ensures StagedSound(env, dirs - {key}, staged - {key})
  {
    ScanDrop(env, dirs, key);
    StagedManifestsPatch(staged, key, Staged(Firmware(None, None, [], ""), ""));
  }

  lemma LivePut(env: Env, dirs: map<Key, Dir>, live: map<Key, Firmware>, key: Key, dir: Dir, fw: Firmware)
    requires LiveSound(env, dirs, live)
    requires ManifestIn(env, key, dir) == Some(fw) && Holds(env, dir, fw)
    ensures LiveSound(env, dirs[key := dir], live[key := fw])
  {
    ScanPut(env, dirs, key, dir);
    AllHoldPut(env, dirs, live, key, dir, fw);
  }

  /** A sound directory placed under a key of the given area, and indexed there. */
  lemma PlaceStaged(env: Env, s: State, key: Key, dir: Dir, entry: Staged, bumps: nat)
    requires Invariant(env, s) && key !in s.index.live
    requires ManifestIn(env, key, dir) == Some(entry.firmware) && SubmitterIn(env, dir) == entry.submittedBy
    requires Holds(env, dir, entry.firmware)
    ensures Invariant(env, WithIndex(s.disk.(staging := s.disk.staging[key := dir]),
                                     s.index.live, s.index.staged[key := entry], bumps))
  {
    InvariantHasIndex(env, s);
    InvariantParts(env, s.disk, s.index.live, s.index.staged, s.bumps);
    StagedPut(env, s.disk.staging, s.index.staged, key, dir, entry);
    InvariantParts(env, s.disk.(staging := s.disk.staging[key := dir]), s.index.live, s.index.staged[key := entry],
                   bumps);
  }

  lemma PlaceLive(env: Env, s: State, key: Key, dir: Dir, fw: Firmware, bumps: nat)
    requires Invariant(env, s) && key !in s.index.staged
    requires ManifestIn(env, key, dir) == Some(fw) && Holds(env, dir, fw)
    ensures Invariant(env, WithIndex(s.disk.(live := s.disk.live[key := dir]),
                                     s.index.live[key := fw], s.index.staged, bumps))
  {
    InvariantHasIndex(env, s);
    InvariantParts(env, s.disk, s.index.live, s.index.staged, s.bumps);
    LivePut(env, s.disk.live, s.index.live, key, dir, fw);
    InvariantParts(env, s.disk.(live := s.disk.live[key := dir]), s.index.live[key := fw], s.index.staged, bumps);
  }

  lemma RemoveStaged(env: Env, s: State, key: Key, bumps: nat)
    requires Invariant(env, s)
    ensures Invariant(env, WithIndex(s.disk.(staging := s.disk.staging - {key}),
                                     s.index.live, s.index.staged - {key}, bumps))
  {
    InvariantHasIndex(env, s);
    InvariantParts(env, s.disk, s.index.live, s.index.staged, s.bumps);
    StagedDrop(env, s.disk.staging, s.index.staged, key);
    InvariantParts(env, s.disk.(staging := s.disk.staging - {key}), s.index.live, s.index.staged - {key}, bumps);
  }

  lemma AllHoldPut(env: Env, dirs: map<Key, Dir>, fws: map<Key, Firmware>, key: Key, dir: Dir, fw: Firmware)
    requires AllHold(env, dirs, fws) && Holds(env, dir, fw)
    ensures AllHold(env, dirs[key := dir], fws[key := fw])
  {
  }

  lemma StageKeeps(env: Env, s: State, fw: Firmware, who: string)
    requires Invariant(env, s) && SameFileSameSha(fw) && Trimmed(who)
    ensures Invariant(env, Stage(env, s, fw, who).state)
  {
    var out := Stage(env, s, fw, who);
    if out.result.Ok? {
      var key := Verdict(env, s.index, fw, true).value;
      VerdictOk(env, s.index, fw);
      VersionDirScans(env, s, fw, Some(who), key);
      VersionDirHolds(env, s, fw, Some(who));
      var dir := VersionDir(env, s, fw, Some(who));
      PlaceStaged(env, s, key, dir, Staged(fw, who), s.bumps + 1);
      SweptKeeps(env, WithIndex(s.disk.(staging := s.disk.staging[key := dir]),
                                s.index.live, s.index.staged[key := Staged(fw, who)], s.bumps + 1));
    }
  }

  lemma PublishKeeps(env: Env, s: State, fw: Firmware)
    requires Invariant(env, s) && Admissible(s, PublishOp(fw))
    ensures Invariant(env, Publish(env, s, fw).state)
  {
    var out := Publish(env, s, fw);
    if out.result.Ok? {
      VerdictOk(env, s.index, fw);
      PublishPlaces(env, s, fw);
      SweptKeeps(env, Published(env, s, fw));
    }
  }

  /** The state just before `publish` sweeps the incoming pool. */
  ghost function Published(env: Env, s: State, fw: Firmware): State
    requires KeyOf(fw).Ok? && Copyable(s.disk, s.index.blobPaths, fw.blobs)
  {
    var key := KeyOf(fw).value;
    WithIndex(s.disk.(live := s.disk.live[key := VersionDir(env, s, fw, None)]),
              s.index.live[key := fw], s.index.staged - {key}, s.bumps + 1)
  }

  lemma PublishPlaces(env: Env, s: State, fw: Firmware)
    requires Invariant(env, s) && SameFileSameSha(fw) && AllNamed(fw)
    requires KeyOf(fw).Ok? && KeyOf(fw).value.device in env.slots && KeyOf(fw).value !in s.index.staged
    requires Copyable(s.disk, s.index.blobPaths, fw.blobs)
    ensures Invariant(env, Published(env, s, fw))
  {
    var key := KeyOf(fw).value;
    VersionDirScans(env, s, fw, None, key);
    VersionDirHolds(env, s, fw, None);
    PlaceLive(env, s, key, VersionDir(env, s, fw, None), fw, s.bumps + 1);
    DropAbsent(s.index.staged, key);
  }

  lemma RejectKeeps(env: Env, s: State, device: string, version: string)
    requires Invariant(env, s)
    ensures Invariant(env, Reject(s, device, version).0)
  {
    RemoveStaged(env, s, Key(device, version), s.bumps + 1);
  }

  lemma ApprovedDir(env: Env, key: Key, dir: Dir, fw: Firmware)
    requires ManifestIn(env, key, dir) == Some(fw) && Holds(env, dir, fw)
    ensures ManifestIn(env, key, dir - {SUBMITTED_BY}) == Some(fw) && Holds(env, dir - {SUBMITTED_BY}, fw)
  {
    forall b | b in fw.blobs ensures b.File() in dir - {SUBMITTED_BY} {
      assert b.Named();
    }
  }

  lemma ApproveKeeps(env: Env, s: State, device: string, version: string)
    requires Invariant(env, s)
    ensures Invariant(env, Approve(s, device, version).state)
  {
    var key := Key(device, version);
    RejectKeeps(env, s, device, version);
    if Approve(s, device, version).result.Ok? {
      var fw, dir := s.index.staged[key].firmware, s.disk.staging[key] - {SUBMITTED_BY};
      assert StagedManifests(s.index.staged)[key] == fw;
      ApprovedDir(env, key, s.disk.staging[key], fw);
      RemoveStaged(env, s, key, s.bumps + 1);
      PlaceLive(env, Reject(s, device, version).0, key, dir, fw, s.bumps + 1);
    }
  }

  lemma GcKeeps(env: Env, s: State, cutoff: int)
    requires Invariant(env, s)
    ensures Invariant(env, Gc(s, cutoff).0)
  {
  }

  /** A restart recovers the same index. */
  lemma ReopenKeeps(env: Env, s: State)
    requires Invariant(env, s)
    ensures Invariant(env, Opened(env, s.disk)) && Opened(env, s.disk).index == s.index
  {
    ReopenCached(env, s);
    var t := Reap(s.disk);
    forall k | k in s.index.live ensures k in t.live && t.live[k] == s.disk.live[k] {
      assert !StartsWith(k.version, TMP_PREFIX);
    }
    forall k | k in s.index.staged ensures k in t.staging && t.staging[k] == s.disk.staging[k] {
      assert !StartsWith(k.version, TMP_PREFIX);
    }
  }

  lemma StepKeeps(env: Env, s: State, op: Op)
    requires Invariant(env, s) && Admissible(s, op)
    ensures Invariant(env, Step(env, s, op))
  {
    hide Invariant, PutBlob, Stage, Publish, Approve, Reject, Gc, Reload, Opened;
    InvariantCached(env, s);
    match op
    case PutBlobOp(content, now) => PutBlobKeeps(env, s, content, now);
    case StageOp(fw, who) => StageKeeps(env, s, fw, who);
    case PublishOp(fw) => PublishKeeps(env, s, fw);
    case ApproveOp(device, version) => ApproveKeeps(env, s, device, version);
    case RejectOp(device, version) => RejectKeeps(env, s, device, version);
    case GcOp(cutoff) => GcKeeps(env, s, cutoff);
    case ReloadOp => ReloadCached(env, s);
    case ReopenOp => ReopenKeeps(env, s);
  }
}
