/** Where the store's guarantees stop: concrete runs that break them when a caller does
    what the operations do not check. */
module StoreLimits {
  import opened Basics
  import opened Names
  import opened Manifests
  import opened Tree
  import opened StoreSpec
  import opened StoreCache
  import opened StoreInvariant
  import opened StoreRuns

  /** A device with room for the blobs, a version, a file name and uploads the store accepts. */
  ghost predicate Usable(env: Env, key: Key, file: string, contents: seq<Bytes>) {
    && EnvOk(env) && key.Valid() && ValidBasename(file) && Creatable(file)
    && key.device in env.slots && env.slots[key.device] >= |contents|
    && forall c :: c in contents ==> c != [] && |c| <= env.maxBlobBytes
  }

  function Manifest(key: Key, file: string, shas: seq<string>): Firmware {
    Firmware(Some(key.device), Some(key.version),
             seq(|shas|, i requires 0 <= i < |shas| => Blob(Some(i), Some(file), Some(shas[i]), None)), "")
  }

  lemma UploadIndexes(env: Env, s: State, content: Bytes, now: int)
    requires Invariant(env, s) && content != [] && |content| <= env.maxBlobBytes
    ensures var t := PutBlob(env, s, content, now).0;
      && Invariant(env, t) && t.index.blobPaths.Keys == s.index.blobPaths.Keys + {env.digest(content)}
      && t.index.live == s.index.live && t.index.staged == s.index.staged
  {
    hide Invariant;
    PutBlobKeeps(env, s, content, now);
  }

  /** A manifest of uploaded blobs for a key that is not live is accepted. */
  lemma ManifestAccepted(env: Env, s: State, key: Key, file: string, shas: seq<string>)
    requires Invariant(env, s) && key.Valid() && ValidBasename(file) && Creatable(file) && key !in s.index.live
    requires key.device in env.slots && 0 < |shas| <= env.slots[key.device]
    requires forall sha :: sha in shas ==> ValidSha(sha) && sha in s.index.blobPaths
    ensures var fw := Manifest(key, file, shas);
      && Verdict(env, s.index, fw, true) == Ok(key) && KeyOf(fw) == Ok(key)
      && Copyable(s.disk, s.index.blobPaths, fw.blobs)
  {
    var fw := Manifest(key, file, shas);
    assert KeyOf(fw) == Ok(key) by { assert key.device != "" && key.version != ""; }
    forall b | b in fw.blobs
      ensures b.Named() && b.Sha() in s.index.blobPaths && b.slot.GetOr(0) < env.slots[key.device]
    {
      var i :| 0 <= i < |fw.blobs| && fw.blobs[i] == b;
      assert b.Sha() == shas[i] && shas[i] in shas;
    }
    AdmittedIff(env, s.index, fw);
    AllCopyable(env, s, fw);
  }

  lemma TwoOps(env: Env, a: Op, b: Op)
    ensures Run(env, EMPTY, [a, b]) == Step(env, Step(env, EMPTY, a), b)
  {
    hide Step;
    assert [a, b][..1] == [a] && [a][..0] == [];
    assert Run(env, EMPTY, []) == EMPTY;
    assert Run(env, EMPTY, [a]) == Step(env, EMPTY, a);
  }

  /** Upload and stage under a name with outer spaces: a rescan reads back another submitter. */
  lemma StagingUntrimmed(env: Env, key: Key, file: string, content: Bytes, who: string)
    requires Usable(env, key, file, [content]) && !Trimmed(who)
    ensures var fw := Manifest(key, file, [env.digest(content)]);
      var t := Run(env, EMPTY, [PutBlobOp(content, 0), StageOp(fw, who)]);
      t.index != Scan(env, t.disk)
  {
    hide Verdict, KeyOf, Copyable, Invariant, EnvOk, ValidBasename, ValidSha, VersionDir, Scan, Swept;
    var fw := Manifest(key, file, [env.digest(content)]);
    assert content in [content];
    DigestValid(env, content);
    EmptyInvariant(env);
    UploadIndexes(env, EMPTY, content, 0);
    var s1 := PutBlob(env, EMPTY, content, 0).0;
    ManifestAccepted(env, s1, key, file, [env.digest(content)]);
    InvariantCached(env, s1);
    NothingStaged(key, who);
    assert Stage(env, s1, fw, who).result == Ok(fw);
    StageCacheIff(env, s1, fw, who);
    TwoOps(env, PutBlobOp(content, 0), StageOp(fw, who));
  }

  lemma ThreeOps(env: Env, a: Op, b: Op, c: Op)
    ensures Run(env, EMPTY, [a, b, c]) == Step(env, Step(env, Step(env, EMPTY, a), b), c)
  {
    hide Step;
    assert [a, b, c][..2] == [a, b] && [a, b][..1] == [a] && [a][..0] == [];
    assert Run(env, EMPTY, []) == EMPTY;
    assert Run(env, EMPTY, [a]) == Step(env, EMPTY, a);
    assert Run(env, EMPTY, [a, b]) == Step(env, Step(env, EMPTY, a), b);
  }

  /** Upload, stage, then publish the same key directly: the index no longer matches the tree,
      and after a restart the key is both live and staged. */
  lemma PublishingStagedKey(env: Env, key: Key, file: string, content: Bytes, who: string)
    requires Usable(env, key, file, [content]) && Trimmed(who)
    ensures var fw := Manifest(key, file, [env.digest(content)]);
      var t := Run(env, EMPTY, [PutBlobOp(content, 0), StageOp(fw, who), PublishOp(fw)]);
      && t.index != Scan(env, t.disk)
      && key in Opened(env, t.disk).index.live && key in Opened(env, t.disk).index.staged
  {
    hide Verdict, KeyOf, Copyable, Invariant, EnvOk, ValidBasename, ValidSha, VersionDir, Scan, Opened, Rebuild, Swept;
    var sha := env.digest(content);
    var fw := Manifest(key, file, [sha]);
    assert content in [content];
    DigestValid(env, content);
    EmptyInvariant(env);
    UploadIndexes(env, EMPTY, content, 0);
    var s1 := PutBlob(env, EMPTY, content, 0).0;
    ManifestAccepted(env, s1, key, file, [sha]);
    var staged := Stage(env, s1, fw, who);
    NothingStaged(key, who);
    assert staged.result == Ok(fw);
    StageKeeps(env, s1, fw, who);
    var s2 := staged.state;
    StagedState(env, s1, fw, who, key);
    StagedShaIndexed(env, s2, key, fw, sha);
    ManifestAccepted(env, s2, key, file, [sha]);
    assert Publish(env, s2, fw).result == Ok(fw);
    PublishCacheIff(env, s2, fw);
    PublishedTwice(env, s2, fw, key);
    ThreeOps(env, PutBlobOp(content, 0), StageOp(fw, who), PublishOp(fw));
  }

  lemma NothingStaged(key: Key, who: string)
    ensures !OverQuota(map[], key, who)
  {
    assert StagedBy(map[], who) == {};
  }

  lemma StagedState(env: Env, s: State, fw: Firmware, who: string, key: Key)
    requires Stage(env, s, fw, who).result.Ok? && KeyOf(fw) == Ok(key)
    ensures var t := Stage(env, s, fw, who).state;
      t.index.staged == s.index.staged[key := Staged(fw, who)] && t.index.live == s.index.live
  {
  }

  lemma StagedShaIndexed(env: Env, s: State, key: Key, fw: Firmware, sha: string)
    requires Invariant(env, s) && key in s.index.staged && s.index.staged[key].firmware == fw
    requires |fw.blobs| > 0 && fw.blobs[0].Sha() == sha
    ensures sha in s.index.blobPaths
  {
    assert StagedManifests(s.index.staged)[key] == fw;
    ManifestShasIndexed(env, s, fw, fw.blobs[0]);
  }

  lemma PublishedTwice(env: Env, s: State, fw: Firmware, key: Key)
    requires Invariant(env, s) && Publish(env, s, fw).result.Ok? && KeyOf(fw) == Ok(key) && key in s.index.staged
    ensures var t := Publish(env, s, fw).state;
      key in Opened(env, t.disk).index.live && key in Opened(env, t.disk).index.staged
  {
    hide Publish, Rebuild, EnvOk;
    var t := Publish(env, s, fw).state;
    PublishPreserves(env, s, fw);
    ReopenPreserves(env, t);
    ReapInvisible(env, t.disk);
    PublishLeavesStaging(env, s, fw);
    assert key in ScanStaged(env, s.disk.staging);
    assert key in t.index.live;
  }

  /** Two blobs of different content under one file name: validation accepts them, the second
      overwrites the first, and the first can no longer be served. */
  lemma SharedFileName(env: Env, key: Key, file: string, a: Bytes, b: Bytes)
    requires Usable(env, key, file, [a, b]) && env.digest(a) != env.digest(b)
    ensures var fw := Manifest(key, file, [env.digest(a), env.digest(b)]);
      var t := Run(env, EMPTY, [PutBlobOp(a, 0), PutBlobOp(b, 0), PublishOp(fw)]);
      && env.digest(a) in t.index.blobPaths && GetBlob(env, t, env.digest(a)) == Err(Io)
  {
    hide Verdict, KeyOf, Copyable, Invariant, EnvOk, ValidBasename, ValidSha, Rebuild, Swept, GetBlob, Publish,
      PutBlob, Utf8Length;
    var shas := [env.digest(a), env.digest(b)];
    var fw := Manifest(key, file, shas);
    assert a in [a, b] && b in [a, b] && [a, b][0] == a && [a, b][1] == b;
    DigestValid(env, a);
    DigestValid(env, b);
    EmptyInvariant(env);
    UploadIndexes(env, EMPTY, a, 0);
    var s1 := PutBlob(env, EMPTY, a, 0).0;
    UploadIndexes(env, s1, b, 0);
    var s2 := PutBlob(env, s1, b, 0).0;
    ManifestAccepted(env, s2, key, file, shas);
    LastCopyWins(env, s2, key, file, env.digest(a), env.digest(b));
    ThreeOps(env, PutBlobOp(a, 0), PutBlobOp(b, 0), PublishOp(fw));
  }

  lemma LastCopyWins(env: Env, s: State, key: Key, file: string, sha: string, last: string)
    requires Invariant(env, s) && s.index.live == map[] && s.index.staged == map[] && sha != last
    requires var fw := Manifest(key, file, [sha, last]);
      && Verdict(env, s.index, fw, true) == Ok(key) && KeyOf(fw) == Ok(key)
      && Copyable(s.disk, s.index.blobPaths, fw.blobs)
    ensures var t := Publish(env, s, Manifest(key, file, [sha, last])).state;
      sha in t.index.blobPaths && GetBlob(env, t, sha) == Err(Io)
  {
    hide Rebuild;
    var fw := Manifest(key, file, [sha, last]);
    var t := Publish(env, s, fw).state;
    VerdictOk(env, s.index, fw);
    var dir := VersionDir(env, s, fw, None);
    LastFileContent(env, s, fw, last);
    assert t.index.live == map[key := fw] && t.index.staged == map[] && t.disk.live[key] == dir;
    assert t.index.blobPaths == Rebuild(t.disk.incoming.Keys, t.index.live, t.index.staged);
    assert fw.blobs[0] in fw.blobs && fw.blobs[0].Named() && fw.blobs[0].Sha() == sha;
    OnlyOwner(t, key, fw, file, sha);
  }

  lemma LastFileContent(env: Env, s: State, fw: Firmware, last: string)
    requires Invariant(env, s) && Copyable(s.disk, s.index.blobPaths, fw.blobs) && AllNamed(fw)
    requires |fw.blobs| == 2 && fw.blobs[1].Sha() == last
    ensures var dir := VersionDir(env, s, fw, None);
      fw.blobs[1].File() in dir && env.digest(dir[fw.blobs[1].File()]) == last
  {
    var file := fw.blobs[1].File();
    assert fw.blobs[1] in fw.blobs && fw.blobs[1].Named();
    PathContent(env, s, last);
    assert Copied(s.disk, s.index.blobPaths, fw.blobs)[file] == Read(s.disk, s.index.blobPaths[last]).value;
  }

  lemma OnlyOwner(t: State, key: Key, fw: Firmware, file: string, sha: string)
    requires t.index.live == map[key := fw] && t.index.staged == map[]
    requires t.index.blobPaths == Rebuild(t.disk.incoming.Keys, t.index.live, t.index.staged)
    requires |fw.blobs| > 0 && fw.blobs[0].Named() && fw.blobs[0].Sha() == sha
    requires forall b :: b in fw.blobs ==> b.File() == file
    ensures sha in t.index.blobPaths && t.index.blobPaths[sha] == InDir(Live, key, file)
  {
    RebuildShape(t.disk.incoming.Keys, t.index.live, t.index.staged);
    assert fw.blobs[0] in t.index.live[key].blobs;
    assert sha in CarriedBy(t.index.live);
    assert PointsInto(t.index.blobPaths[sha], t.index.live, t.index.staged, sha);
  }
}
