/** Concrete runs in which a crash during a rejection costs a live version one of its blobs. */
module CrashLimits {
  import opened Basics
  import opened Names
  import opened Manifests
  import opened Tree
  import opened StoreSpec
  import opened StoreCache
  import opened StoreInvariant
  import opened StoreRuns
  import opened StoreLimits
  import opened Crash
  import opened CrashAtomicity
  import opened CrashServing
  import opened CrashRuns

  /** Upload, publish as `a`, stage the same content as `b`, start rejecting `b` and crash after the
      first file is gone: `a` is still live, but its blob can no longer be read. */
  lemma LiveBlobLost(env: Env, a: Key, b: Key, file: string, content: Bytes, who: string, draw: Draw, rest: seq<string>)
    requires Usable(env, a, file, [content]) && Usable(env, b, file, [content]) && a != b && Trimmed(who)
    ensures var sha := env.digest(content);
      var fw := Manifest(a, file, [sha]);
      var t := History(env, EMPTY, [
        Finished(PutBlobOp(content, 0)), Finished(PublishOp(fw)), Finished(StageOp(Manifest(b, file, [sha]), who)),
        Cut(RejectOp(b.device, b.version), draw, [file] + rest, [], 1)]);
      && a in t.index.live && t.index.live[a] == fw && GetBlob(env, t, sha) == Err(Io)
  {
    hide Verdict, KeyOf, Copyable, Invariant, EnvOk, ValidBasename, ValidSha, VersionDir, Swept, Opened, Publish,
      Stage, PutBlob, GetBlob, Cached, Rebuild, FirstFault;
    var sha := env.digest(content);
    var fwA, fwB := Manifest(a, file, [sha]), Manifest(b, file, [sha]);
    var s2 := Publish(env, PutBlob(env, EMPTY, content, 0).0, fwA).state;
    var s3 := Stage(env, s2, fwB, who).state;
    PublishedOne(env, a, file, content);
    StagedAlone(env, s2, b, file, content, who);
    var order := [file] + rest;
    CutOnce(env, s3, b, draw, order);
    FirstUnlink(s3, b, order);
    NibbledLoses(env, s3, RejectStop(s3, b, order, 1), b, sha);
    FourHappenings(env, Finished(PutBlobOp(content, 0)), Finished(PublishOp(fwA)), Finished(StageOp(fwB, who)),
                   Cut(RejectOp(b.device, b.version), draw, order, [], 1));
  }

  lemma PublishedOne(env: Env, a: Key, file: string, content: Bytes)
    requires Usable(env, a, file, [content])
    ensures var sha, s1 := env.digest(content), PutBlob(env, EMPTY, content, 0).0;
      var s2 := Publish(env, s1, Manifest(a, file, [sha])).state;
      && Invariant(env, s2) && sha in s2.index.blobPaths && ValidSha(sha)
      && s2.index.live == map[a := Manifest(a, file, [sha])] && s2.index.staged == map[]
  {
    hide Verdict, KeyOf, Copyable, Invariant, EnvOk, ValidBasename, ValidSha, Publish, PutBlob, FirstFault, Rebuild;
    var sha, s1 := env.digest(content), PutBlob(env, EMPTY, content, 0).0;
    var fw := Manifest(a, file, [sha]);
    assert content in [content];
    DigestValid(env, content);
    EmptyInvariant(env);
    UploadIndexes(env, EMPTY, content, 0);
    ManifestAccepted(env, s1, a, file, [sha]);
    PublishSucceeds(env, s1, fw, a);
    OneNameOneSha(a, file, sha);
    PublishKeeps(env, s1, fw);
    PublishLeavesStaging(env, s1, fw);
    var s2 := Publish(env, s1, fw).state;
    assert s2.index.live == map[a := fw] && s2.index.staged == map[];
    assert a in s2.index.live && fw in s2.index.live.Values;
    ManifestShasIndexed(env, s2, fw, fw.blobs[0]);
  }

  lemma OneNameOneSha(k: Key, file: string, sha: string)
    ensures SameFileSameSha(Manifest(k, file, [sha]))
  {
  }

  lemma PublishSucceeds(env: Env, s: State, fw: Firmware, k: Key)
    requires Verdict(env, s.index, fw, true) == Ok(k) && Copyable(s.disk, s.index.blobPaths, fw.blobs)
    ensures Publish(env, s, fw).result == Ok(fw)
  {
    hide Verdict, Copyable;
  }

  lemma StageSucceeds(env: Env, s: State, fw: Firmware, k: Key, who: string)
    requires Verdict(env, s.index, fw, true) == Ok(k) && Copyable(s.disk, s.index.blobPaths, fw.blobs)
    requires !OverQuota(s.index.staged, k, who)
    ensures Stage(env, s, fw, who).result == Ok(fw)
  {
    hide Verdict, Copyable, OverQuota;
  }

  /** Staged alone, the content is read from the staged directory, whatever is live beside it. */
  lemma StagedAlone(env: Env, s: State, b: Key, file: string, content: Bytes, who: string)
    requires Usable(env, b, file, [content]) && Trimmed(who)
    requires var sha := env.digest(content);
      && Invariant(env, s) && sha in s.index.blobPaths && ValidSha(sha)
      && b !in s.index.live && s.index.staged == map[]
    ensures var sha := env.digest(content);
      var t := Stage(env, s, Manifest(b, file, [sha]), who).state;
      && Cached(env, t) && t.index.live == s.index.live && t.disk.live == s.disk.live
      && t.index.staged == map[b := Staged(Manifest(b, file, [sha]), who)] && b in t.disk.staging
      && sha in t.index.blobPaths && t.index.blobPaths[sha] == InDir(Staging, b, file)
  {
    hide Verdict, KeyOf, Copyable, Invariant, EnvOk, ValidBasename, ValidSha, Stage, FirstFault, Rebuild, Cached;
    var sha := env.digest(content);
    var fw := Manifest(b, file, [sha]);
    ManifestAccepted(env, s, b, file, [sha]);
    NothingStaged(b, who);
    StageSucceeds(env, s, fw, b, who);
    InvariantCached(env, s);
    StageCached(env, s, fw, who);
    StagedState(env, s, fw, who, b);
    StageSparesLive(env, s, fw, who);
    var t := Stage(env, s, fw, who).state;
    IndexedProper(env, t, b);
    CachedPaths(env, t);
    assert fw.blobs == [Blob(Some(0), Some(file), Some(sha), None)];
    OnlyStagedOwner(t, b, fw, who, file, sha);
  }

  lemma StageSparesLive(env: Env, s: State, fw: Firmware, who: string)
    ensures Stage(env, s, fw, who).state.disk.live == s.disk.live
  {
    hide Verdict, VersionDir, Rebuild, Copyable, OverQuota;
  }

  lemma OnlyStagedOwner(t: State, b: Key, fw: Firmware, who: string, file: string, sha: string)
    requires PathsCurrent(t) && t.index.staged == map[b := Staged(fw, who)]
    requires fw.blobs == [Blob(Some(0), Some(file), Some(sha), None)] && ValidSha(sha) && ValidBasename(file)
    ensures sha in t.index.blobPaths && t.index.blobPaths[sha] == InDir(Staging, b, file)
  {
    hide Rebuild, ValidSha, ValidBasename;
    var fws := StagedManifests(t.index.staged);
    assert b in fws && fws[b] == fw && fw.blobs[0] in fws[b].blobs && fw.blobs[0].Named();
    assert sha in CarriedBy(fws);
    RebuildOwner(t.disk.incoming.Keys, t.index.live, t.index.staged, sha);
    assert MaxKey(Owners(fws, sha)) in Owners(fws, sha);
  }

  lemma CutOnce(env: Env, s: State, b: Key, draw: Draw, order: seq<string>)
    requires b in s.index.staged && order != []
    ensures |ClearSteps(Staging, b, order)| >= 1
    ensures After(env, s, Cut(RejectOp(b.device, b.version), draw, order, [], 1))
         == Opened(env, RejectStop(s, b, order, 1))
  {
    hide Opened;
    assert Key(b.device, b.version) == b;
  }

  /** Upload, stage as `b`, start rejecting `b`, crash after the first file is gone, and approve what
      the restart shows as staged: `b` is live, and its blob cannot be read. */
  lemma TornApproved(env: Env, b: Key, file: string, content: Bytes, who: string, draw: Draw, rest: seq<string>)
    requires Usable(env, b, file, [content]) && Trimmed(who)
    ensures var sha := env.digest(content);
      var fw := Manifest(b, file, [sha]);
      var t := History(env, EMPTY, [
        Finished(PutBlobOp(content, 0)), Finished(StageOp(fw, who)),
        Cut(RejectOp(b.device, b.version), draw, [file] + rest, [], 1), Finished(ApproveOp(b.device, b.version))]);
      && b in t.index.live && t.index.live[b] == fw && GetBlob(env, t, sha) == Err(Io)
  {
    hide Verdict, KeyOf, Copyable, Invariant, EnvOk, ValidBasename, ValidSha, VersionDir, Swept, Opened, Publish,
      Stage, PutBlob, GetBlob, Cached, Rebuild, FirstFault, Approve;
    var sha, order := env.digest(content), [file] + rest;
    var fw, s1 := Manifest(b, file, [sha]), PutBlob(env, EMPTY, content, 0).0;
    var s2 := Stage(env, s1, fw, who).state;
    UploadedOnly(env, content);
    assert content in [content];
    DigestValid(env, content);
    StagedAlone(env, s1, b, file, content, who);
    CutOnce(env, s2, b, draw, order);
    FirstUnlink(s2, b, order);
    var torn := Opened(env, RejectStop(s2, b, order, 1));
    NibbledLoses(env, s2, RejectStop(s2, b, order, 1), b, sha);
    TornOnDisk(env, s2, b, file);
    ApprovedUnread(env, torn, b, fw, file, sha, who);
    FourHappenings(env, Finished(PutBlobOp(content, 0)), Finished(StageOp(fw, who)),
                   Cut(RejectOp(b.device, b.version), draw, order, [], 1), Finished(ApproveOp(b.device, b.version)));
  }

  lemma UploadedOnly(env: Env, content: Bytes)
    requires EnvOk(env) && content != [] && |content| <= env.maxBlobBytes
    ensures var s1 := PutBlob(env, EMPTY, content, 0).0;
      && Invariant(env, s1) && env.digest(content) in s1.index.blobPaths
      && s1.index.live == map[] && s1.index.staged == map[] && s1.disk.live == map[]
  {
    hide Invariant;
    EmptyInvariant(env);
    UploadIndexes(env, EMPTY, content, 0);
  }

  /** What the restart leaves: the entry without its first file, and still nothing live. */
  lemma TornOnDisk(env: Env, s: State, b: Key, file: string)
    requires Cached(env, s) && b in s.index.staged && b in s.disk.staging && s.disk.live == map[]
    ensures var t := Opened(env, Nibbled(s.disk, b, file));
      t.disk.live == map[] && b in t.disk.staging && file !in t.disk.staging[b]
  {
    hide Cached, Scan;
    IndexedProper(env, s, b);
    ReapedKeeps(Nibbled(s.disk, b, file), b);
  }

  lemma ApprovedUnread(env: Env, s: State, b: Key, fw: Firmware, file: string, sha: string, who: string)
    requires b.Valid() && ValidSha(sha) && ValidBasename(file) && fw == Manifest(b, file, [sha])
    requires s.index.live == map[] && s.index.staged == map[b := Staged(fw, who)]
    requires s.disk.live == map[] && b in s.disk.staging && file !in s.disk.staging[b]
    ensures var t := Approve(s, b.device, b.version).state;
      b in t.index.live && t.index.live[b] == fw && GetBlob(env, t, sha) == Err(Io)
  {
    hide ValidSha, ValidBasename, Rebuild;
    var t := Approve(s, b.device, b.version).state;
    assert Key(b.device, b.version) == b;
    assert t.index.live == map[b := fw] && t.index.staged == map[];
    assert fw.blobs == [Blob(Some(0), Some(file), Some(sha), None)];
    OnlyLiveOwner(t, b, fw, file, sha);
  }

  lemma OnlyLiveOwner(t: State, b: Key, fw: Firmware, file: string, sha: string)
    requires PathsCurrent(t) && t.index.live == map[b := fw] && t.index.staged == map[]
    requires fw.blobs == [Blob(Some(0), Some(file), Some(sha), None)] && ValidSha(sha) && ValidBasename(file)
    ensures sha in t.index.blobPaths && t.index.blobPaths[sha] == InDir(Live, b, file)
  {
    hide Rebuild, ValidSha, ValidBasename;
    assert fw.blobs[0] in t.index.live[b].blobs && fw.blobs[0].Named();
    assert sha in CarriedBy(t.index.live);
    RebuildOwner(t.disk.incoming.Keys, t.index.live, t.index.staged, sha);
    assert MaxKey(Owners(t.index.live, sha)) in Owners(t.index.live, sha);
  }

  lemma FourHappenings(env: Env, a: Happening, b: Happening, c: Happening, d: Happening)
    ensures History(env, EMPTY, [a, b, c, d])
         == After(env, After(env, After(env, After(env, EMPTY, a), b), c), d)
  {
    hide After;
    assert [a, b, c, d][..3] == [a, b, c] && [a, b, c][..2] == [a, b] && [a, b][..1] == [a] && [a][..0] == [];
    assert History(env, EMPTY, []) == EMPTY;
    assert History(env, EMPTY, [a]) == After(env, EMPTY, a);
    assert History(env, EMPTY, [a, b]) == After(env, After(env, EMPTY, a), b);
    assert History(env, EMPTY, [a, b, c]) == After(env, After(env, After(env, EMPTY, a), b), c);
  }
}
