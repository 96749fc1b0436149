/** Whole-run guarantees of the store. */
module StoreRuns {
  import opened Basics
  import opened Names
  import opened Manifests
  import opened Tree
  import opened StoreSpec
  import opened StoreCache
  import opened StoreInvariant

  ghost predicate AdmissibleRun(env: Env, s: State, ops: seq<Op>) {
    ops == [] ||
    (AdmissibleRun(env, s, ops[..|ops| - 1]) && Admissible(Run(env, s, ops[..|ops| - 1]), ops[|ops| - 1]))
  }

  const EMPTY := State(Disk(map[], map[], map[]), Index(map[], map[], map[]), 0)

  lemma EmptyInvariant(env: Env)
    requires EnvOk(env)
    ensures Invariant(env, EMPTY)
  {
    assert IncomingPaths({}) == map[];
    assert Overlay(map[], Live, map[]) == map[];
    assert Overlay(map[], Staging, StagedManifests(map[])) == map[];
  }

  lemma {:induction false} RunKeeps(env: Env, s: State, ops: seq<Op>)
    requires Invariant(env, s) && AdmissibleRun(env, s, ops)
    ensures Invariant(env, Run(env, s, ops))
  {
    if ops != [] {
      RunKeeps(env, s, ops[..|ops| - 1]);
      StepKeeps(env, Run(env, s, ops[..|ops| - 1]), ops[|ops| - 1]);
    }
  }

  // ----- content addressing -----

  /** `get_blob` never fails: it answers exactly the indexed digests, with bytes of that digest. */
  lemma GetBlobSound(env: Env, s: State, sha: string)
    requires Invariant(env, s)
    ensures sha !in s.index.blobPaths ==> GetBlob(env, s, sha) == Ok(None)
    ensures sha in s.index.blobPaths ==>
      exists bytes :: GetBlob(env, s, sha) == Ok(Some(bytes)) && env.digest(bytes) == sha
  {
    if sha in s.index.blobPaths {
      PathContent(env, s, sha);
    }
  }

  /** Every blob any live or staged manifest names can be served, after any admissible run. */
  lemma NamedBlobsServed(env: Env, s: State, ops: seq<Op>, fw: Firmware, b: Blob)
    requires Invariant(env, s) && AdmissibleRun(env, s, ops) && b in fw.blobs
    requires fw in Run(env, s, ops).index.live.Values
          || fw in StagedManifests(Run(env, s, ops).index.staged).Values
    ensures exists bytes :: GetBlob(env, Run(env, s, ops), b.Sha()) == Ok(Some(bytes)) && env.digest(bytes) == b.Sha()
  {
    RunKeeps(env, s, ops);
    var t := Run(env, s, ops);
    ManifestShasIndexed(env, t, fw, b);
    GetBlobSound(env, t, b.Sha());
  }

  lemma ManifestShasIndexed(env: Env, s: State, fw: Firmware, b: Blob)
    requires Invariant(env, s) && b in fw.blobs
    requires fw in s.index.live.Values || fw in StagedManifests(s.index.staged).Values
    ensures b.Named() && b.Sha() in s.index.blobPaths && b.Sha() in Owned(s.index.live, s.index.staged)
  {
    RebuildShape(s.disk.incoming.Keys, s.index.live, s.index.staged);
    if fw in s.index.live.Values {
      var k :| k in s.index.live && s.index.live[k] == fw;
      assert Holds(env, s.disk.live[k], fw);
    } else {
      var fws := StagedManifests(s.index.staged);
      var k :| k in fws && fws[k] == fw;
      assert Holds(env, s.disk.staging[k], fw);
    }
  }

  // ----- conservation -----

  ghost function Available(s: State): set<string> { s.index.blobPaths.Keys }

  /** The sha to path map is the one a rebuild gives; every operation that rebuilds leaves it so. */
  ghost predicate PathsCurrent(s: State) {
    s.index.blobPaths == Rebuild(s.disk.incoming.Keys, s.index.live, s.index.staged)
  }

  lemma CachedPaths(env: Env, s: State)
    requires Cached(env, s)
    ensures PathsCurrent(s)
  {
  }

  lemma AvailableShape(s: State)
    requires PathsCurrent(s)
    ensures Available(s) == (set n | n in s.disk.incoming && ValidSha(n)) + Owned(s.index.live, s.index.staged)
  {
    RebuildShape(s.disk.incoming.Keys, s.index.live, s.index.staged);
  }

  /** Garbage collection takes exactly the uploads that are unreferenced and too old; nothing else becomes
      unavailable. */
  lemma GcExact(env: Env, s: State, cutoff: int)
    requires Cached(env, s)
    ensures var (t, count) := Gc(s, cutoff);
      && t.disk.incoming == s.disk.incoming - Abandoned(s, cutoff)
      && count == |s.disk.incoming| - |t.disk.incoming|
      && Available(t) == Available(s) - Abandoned(s, cutoff)
      && t.index.live == s.index.live && t.index.staged == s.index.staged && t.bumps == s.bumps
  {
    var gone, t := Abandoned(s, cutoff), Gc(s, cutoff).0;
    GcShape(s, cutoff);
    GcCached(env, s, cutoff);
    AvailableShape(s);
    AvailableShape(t);
    OwnedReferenced(s);
    RemoveUploads(s.disk.incoming, t.disk.incoming, gone, Owned(s.index.live, s.index.staged));
  }

  lemma GcShape(s: State, cutoff: int)
    ensures var (t, count) := Gc(s, cutoff);
      && t.disk.incoming == s.disk.incoming - Abandoned(s, cutoff) && count == |Abandoned(s, cutoff)|
      && t.index.live == s.index.live && t.index.staged == s.index.staged && t.bumps == s.bumps
    ensures Abandoned(s, cutoff) <= s.disk.incoming.Keys && Abandoned(s, cutoff) !! Referenced(s.index)
  {
    if Abandoned(s, cutoff) == {} {
      assert s.disk.incoming - {} == s.disk.incoming;
    }
  }

  lemma RemoveUploads(before: map<string, Upload>, after: map<string, Upload>, gone: set<string>, owned: set<string>)
    requires after == before - gone && gone <= before.Keys && gone !! owned
    ensures |gone| == |before| - |after|
    ensures (set n | n in after && ValidSha(n)) + owned == (set n | n in before && ValidSha(n)) + owned - gone
  {
    assert after.Keys == before.Keys - gone;
    assert |before.Keys| == |gone| + |before.Keys - gone|;
  }

  lemma OwnedReferenced(s: State)
    ensures Owned(s.index.live, s.index.staged) <= Referenced(s.index)
  {
    forall sha | sha in Owned(s.index.live, s.index.staged) ensures sha in Referenced(s.index) {
      if sha in CarriedBy(s.index.live) {
        var k, b :| k in s.index.live && b in s.index.live[k].blobs && b.Named() && b.Sha() == sha;
        ShaPresent(b);
      } else {
        var fws := StagedManifests(s.index.staged);
        var k, b :| k in fws && b in fws[k].blobs && b.Named() && b.Sha() == sha;
        ShaPresent(b);
        assert b in s.index.staged[k].firmware.blobs;
      }
    }
  }

  lemma ShaPresent(b: Blob)
    requires ValidSha(b.Sha())
    ensures b.sha == Some(b.Sha())
  {
  }

  /** The digests only the staged entry `key` holds. */
  ghost function HeldOnlyBy(s: State, key: Key): set<string>
    requires key in s.index.staged
  {
    ShasOf(s.index.staged[key].firmware.blobs)
    - Owned(s.index.live, s.index.staged - {key})
    - s.disk.incoming.Keys
  }

  lemma OwnedSplit(s: State, key: Key)
    requires key in s.index.staged
    ensures Owned(s.index.live, s.index.staged) ==
            Owned(s.index.live, s.index.staged - {key}) + ShasOf(s.index.staged[key].firmware.blobs)
  {
    var fws, rest := StagedManifests(s.index.staged), StagedManifests(s.index.staged - {key});
    forall sha ensures sha in CarriedBy(fws) <==> sha in CarriedBy(rest) || sha in ShasOf(fws[key].blobs) {
      if sha in CarriedBy(fws) {
        var k, b :| k in fws && b in fws[k].blobs && b.Named() && b.Sha() == sha;
        if k != key { assert k in rest && rest[k] == fws[k]; }
      }
      if sha in CarriedBy(rest) {
        var k, b :| k in rest && b in rest[k].blobs && b.Named() && b.Sha() == sha;
        assert k in fws && fws[k] == rest[k];
      }
    }
  }

  /** A rejection makes exactly the digests held nowhere else unavailable. */
  lemma RejectExact(env: Env, s: State, device: string, version: string)
    requires Cached(env, s) && Reject(s, device, version).1.Ok?
    ensures Available(Reject(s, device, version).0) == Available(s) - HeldOnlyBy(s, Key(device, version))
    ensures Reject(s, device, version).0.disk.incoming == s.disk.incoming
  {
    hide Rebuild;
    var key, t := Key(device, version), Reject(s, device, version).0;
    RejectShape(s, device, version);
    RejectCached(env, s, device, version);
    AvailableShape(s);
    AvailableShape(t);
    OwnedSplit(s, key);
    ShasValid(s.index.staged[key].firmware.blobs);
  }

  lemma RejectShape(s: State, device: string, version: string)
    requires Reject(s, device, version).1.Ok?
    ensures var key, t := Key(device, version), Reject(s, device, version).0;
      && key in s.index.staged && t.disk.incoming == s.disk.incoming
      && t.index.live == s.index.live && t.index.staged == s.index.staged - {key}
  {
  }

  lemma ShasValid(blobs: seq<Blob>)
    ensures forall sha :: sha in ShasOf(blobs) ==> ValidSha(sha)
  {
  }

  /** Sweeping uploads, approving and restarting lose and add nothing. */
  lemma SweepConserves(env: Env, s: State)
    requires Cached(env, s)
    ensures Available(Swept(s)) == Available(s)
    ensures Available(Opened(env, s.disk)) == Available(s)
  {
    SweepKeepsPaths(s);
    ReopenCached(env, s);
  }

  lemma ApproveConserves(env: Env, s: State, device: string, version: string)
    requires Settled(env, s)
    ensures Available(Approve(s, device, version).state) == Available(s)
  {
    var key, out := Key(device, version), Approve(s, device, version);
    ApproveCached(env, s, device, version);
    AvailableShape(s);
    AvailableShape(out.state);
    ApproveShape(env, s, device, version);
    if out.result.Ok? {
      OwnedMoves(s, key);
    }
  }

  lemma OwnedMoves(s: State, key: Key)
    requires key in s.index.staged && key !in s.index.live
    ensures Owned(s.index.live[key := s.index.staged[key].firmware], s.index.staged - {key})
         == Owned(s.index.live, s.index.staged)
  {
    OwnedSplit(s, key);
    CarriedPut(s.index.live, key, s.index.staged[key].firmware);
  }

  lemma ApproveShape(env: Env, s: State, device: string, version: string)
    requires s.index.live.Keys !! s.index.staged.Keys
    ensures var key, out := Key(device, version), Approve(s, device, version);
      && out.state.disk.incoming == s.disk.incoming
      && (out.result.Err? ==> out.state == s)
      && (out.result.Ok? ==>
          && key in s.index.staged && key !in s.index.live
          && out.result.value == s.index.staged[key].firmware
          && out.state.index.live == s.index.live[key := out.result.value]
          && out.state.index.staged == s.index.staged - {key})
  {
  }

  lemma CarriedPut(fws: map<Key, Firmware>, key: Key, fw: Firmware)
    requires key !in fws
    ensures CarriedBy(fws[key := fw]) == CarriedBy(fws) + ShasOf(fw.blobs)
  {
    var put := fws[key := fw];
    forall sha ensures sha in CarriedBy(put) <==> sha in CarriedBy(fws) + ShasOf(fw.blobs) {
      if sha in CarriedBy(put) {
        var k, b :| k in put && b in put[k].blobs && b.Named() && b.Sha() == sha;
        if k != key { assert fws[k] == put[k]; }
      }
      if sha in CarriedBy(fws) {
        var k, b :| k in fws && b in fws[k].blobs && b.Named() && b.Sha() == sha;
        assert put[k] == fws[k];
      }
      if sha in ShasOf(fw.blobs) {
        assert put[key] == fw;
      }
    }
  }

  /** The digests lost when a submission of `fw` replaces the staged entry `key`: those the old
      entry alone held and the new manifest does not name. */
  ghost function Displaced(s: State, key: Key, fw: Firmware): set<string> {
    if key in s.index.staged then HeldOnlyBy(s, key) - ShasOf(fw.blobs) else {}
  }

  /** An upload makes its digest available. Staging and publishing make nothing available that was
      not, and lose exactly what a replaced submission alone held. */
  lemma SubmissionExact(env: Env, s: State, fw: Firmware, who: string, content: Bytes, now: int)
    requires Cached(env, s)
    ensures PutBlob(env, s, content, now).1.Ok? ==>
      Available(PutBlob(env, s, content, now).0) == Available(s) + {env.digest(content)}
    ensures Stage(env, s, fw, who).result.Ok? ==>
      && KeyOf(fw).Ok?
      && Available(Stage(env, s, fw, who).state) == Available(s) - Displaced(s, KeyOf(fw).value, fw)
    ensures Publish(env, s, fw).result.Ok? ==>
      && KeyOf(fw).Ok?
      && Available(Publish(env, s, fw).state) == Available(s) - Displaced(s, KeyOf(fw).value, fw)
  {
    hide Rebuild, Displaced, Available, Cached, PutBlob;
    UploadAvailable(env, s, content, now);
    CachedPaths(env, s);
    if Verdict(env, s.index, fw, true).Ok? {
      VerdictOk(env, s.index, fw);
      var key := KeyOf(fw).value;
      NamedAvailable(env, s, fw);
      StageRebuilds(env, s, fw, who);
      PublishRebuilds(env, s, fw);
      if Stage(env, s, fw, who).result.Ok? {
        StagedOwned(s, key, Staged(fw, who));
        DisplacedOnly(s, Stage(env, s, fw, who).state, key, fw);
      }
      if Publish(env, s, fw).result.Ok? {
        PublishedOwned(s, key, fw);
        DisplacedOnly(s, Publish(env, s, fw).state, key, fw);
      }
    }
  }

  lemma UploadAvailable(env: Env, s: State, content: Bytes, now: int)
    ensures PutBlob(env, s, content, now).1.Ok? ==>
      Available(PutBlob(env, s, content, now).0) == Available(s) + {env.digest(content)}
  {
  }

  lemma NamedAvailable(env: Env, s: State, fw: Firmware)
    requires Verdict(env, s.index, fw, true).Ok?
    ensures ShasOf(fw.blobs) <= Available(s)
  {
    VerdictOk(env, s.index, fw);
  }

  /** The index after a submission, and the pool it was rebuilt from. */
  ghost predicate RebuiltWith(s: State, t: State, live: map<Key, Firmware>, staged: map<Key, Staged>) {
    && t.index.live == live && t.index.staged == staged
    && t.index.blobPaths == Rebuild(s.disk.incoming.Keys, live, staged)
  }

  lemma StageRebuilds(env: Env, s: State, fw: Firmware, who: string)
    requires Verdict(env, s.index, fw, true).Ok? && KeyOf(fw).Ok?
    requires Verdict(env, s.index, fw, true).value == KeyOf(fw).value
    ensures Stage(env, s, fw, who).result.Ok? ==>
      RebuiltWith(s, Stage(env, s, fw, who).state, s.index.live, s.index.staged[KeyOf(fw).value := Staged(fw, who)])
  {
    hide FirstFault, VersionDir, OverQuota, Rebuild;
    if Stage(env, s, fw, who).result.Ok? {
      var key := KeyOf(fw).value;
      var disk := s.disk.(staging := s.disk.staging[key := VersionDir(env, s, fw, Some(who))]);
      SweepKeepsPaths(WithIndex(disk, s.index.live, s.index.staged[key := Staged(fw, who)], s.bumps + 1));
    }
  }

  lemma PublishRebuilds(env: Env, s: State, fw: Firmware)
    requires Verdict(env, s.index, fw, true).Ok? && KeyOf(fw).Ok?
    requires Verdict(env, s.index, fw, true).value == KeyOf(fw).value
    ensures Publish(env, s, fw).result.Ok? ==>
      RebuiltWith(s, Publish(env, s, fw).state, s.index.live[KeyOf(fw).value := fw], s.index.staged - {KeyOf(fw).value})
  {
    hide FirstFault, VersionDir, Rebuild;
    if Publish(env, s, fw).result.Ok? {
      var key := KeyOf(fw).value;
      var disk := s.disk.(live := s.disk.live[key := VersionDir(env, s, fw, None)]);
      SweepKeepsPaths(WithIndex(disk, s.index.live[key := fw], s.index.staged - {key}, s.bumps + 1));
    }
  }

  lemma StagedOwned(s: State, key: Key, entry: Staged)
    ensures Owned(s.index.live, s.index.staged[key := entry])
         == Owned(s.index.live, s.index.staged - {key}) + ShasOf(entry.firmware.blobs)
  {
    var t := s.(index := s.index.(staged := s.index.staged[key := entry]));
    OwnedSplit(t, key);
    assert t.index.staged - {key} == s.index.staged - {key};
  }

  lemma PublishedOwned(s: State, key: Key, fw: Firmware)
    requires key !in s.index.live
    ensures Owned(s.index.live[key := fw], s.index.staged - {key})
         == Owned(s.index.live, s.index.staged - {key}) + ShasOf(fw.blobs)
  {
    CarriedPut(s.index.live, key, fw);
  }

  lemma DisplacedOnly(s: State, t: State, key: Key, fw: Firmware)
    requires PathsCurrent(s) && ShasOf(fw.blobs) <= Available(s)
    requires RebuiltWith(s, t, t.index.live, t.index.staged)
    requires Owned(t.index.live, t.index.staged) == Owned(s.index.live, s.index.staged - {key}) + ShasOf(fw.blobs)
    ensures Available(t) == Available(s) - Displaced(s, key, fw)
  {
    hide Rebuild, Owned, ShasOf, ValidSha;
    AvailableShape(s);
    RebuildShape(s.disk.incoming.Keys, t.index.live, t.index.staged);
    if key in s.index.staged {
      OwnedSplit(s, key);
      ShasValid(s.index.staged[key].firmware.blobs);
    } else {
      assert s.index.staged - {key} == s.index.staged;
    }
  }

  /** Reads serve uploads no manifest refers to, as long as they are in the pool. */
  lemma UnreferencedServed(env: Env, content: Bytes, now: int)
    requires EnvOk(env) && content != [] && |content| <= env.maxBlobBytes
    ensures var t := Run(env, EMPTY, [PutBlobOp(content, now)]);
      && Referenced(t.index) == {} && Owned(t.index.live, t.index.staged) == {}
      && GetBlob(env, t, env.digest(content)) == Ok(Some(content))
  {
    assert [PutBlobOp(content, now)][..0] == [];
    assert Run(env, EMPTY, []) == EMPTY;
  }

  // ----- immutability -----

  /** All immutability needs: live entries are what the tree holds, and staged
      entries lead to directories whose manifest is the staged one. */
  ghost predicate Grounded(env: Env, s: State) {
    && EnvOk(env)
    && s.index.live == ScanLive(env, s.disk.live)
    && forall k :: k in s.index.staged ==>
         k in s.disk.staging && ManifestIn(env, k, s.disk.staging[k]) == Some(s.index.staged[k].firmware)
  }

  /** Every live key of `s` is live in `t`, with the same manifest and the same files. */
  ghost predicate LivePreserved(s: State, t: State) {
    forall k :: k in s.index.live ==>
      && k in t.index.live && t.index.live[k] == s.index.live[k]
      && k in s.disk.live && k in t.disk.live && t.disk.live[k] == s.disk.live[k]
  }

  lemma StagePreserves(env: Env, s: State, fw: Firmware, who: string)
    requires Grounded(env, s)
    ensures Grounded(env, Stage(env, s, fw, who).state) && LivePreserved(s, Stage(env, s, fw, who).state)
  {
    hide ManifestIn, Rebuild, VersionDir, EnvOk, ValidSha, ValidBasename, Fault, FirstFault;
    if Stage(env, s, fw, who).result.Ok? {
      VerdictOk(env, s.index, fw);
      VersionDirScans(env, s, fw, Some(who), KeyOf(fw).value);
    }
  }

  lemma PublishPreserves(env: Env, s: State, fw: Firmware)
    requires Grounded(env, s)
    ensures Grounded(env, Publish(env, s, fw).state) && LivePreserved(s, Publish(env, s, fw).state)
  {
    hide ManifestIn, Rebuild, VersionDir, EnvOk, ValidSha, ValidBasename, Fault, FirstFault;
    if Publish(env, s, fw).result.Ok? {
      var key := KeyOf(fw).value;
      VerdictOk(env, s.index, fw);
      VersionDirScans(env, s, fw, None, key);
      ScanPut(env, s.disk.live, key, VersionDir(env, s, fw, None));
    }
  }

  lemma RejectPreserves(env: Env, s: State, device: string, version: string)
    requires Grounded(env, s)
    ensures Grounded(env, Reject(s, device, version).0) && LivePreserved(s, Reject(s, device, version).0)
  {
  }

  lemma ApprovePreserves(env: Env, s: State, device: string, version: string)
    requires Grounded(env, s)
    ensures Grounded(env, Approve(s, device, version).state) && LivePreserved(s, Approve(s, device, version).state)
  {
    RejectPreserves(env, s, device, version);
    if Approve(s, device, version).result.Ok? {
      ApproveMoves(env, s, Key(device, version), Approve(s, device, version).state);
    }
  }

  lemma ApproveMoves(env: Env, s: State, key: Key, t: State)
    requires Grounded(env, s) && key in s.index.staged && key !in s.index.live
    requires t.disk.live == s.disk.live[key := s.disk.staging[key] - {SUBMITTED_BY}]
    requires t.disk.staging == s.disk.staging - {key}
    requires t.index.live == s.index.live[key := s.index.staged[key].firmware]
    requires t.index.staged == s.index.staged - {key}
    ensures Grounded(env, t) && LivePreserved(s, t)
  {
    hide ManifestIn, SubmitterIn, EnvOk, ScanStaged;
    var dir := s.disk.staging[key] - {SUBMITTED_BY};
    SubmitterIrrelevant(env, key, s.disk.staging[key]);
    ScanPut(env, s.disk.live, key, dir);
  }

  lemma ReopenPreserves(env: Env, s: State)
    requires Grounded(env, s)
    ensures Grounded(env, Opened(env, s.disk)) && LivePreserved(s, Opened(env, s.disk))
    ensures Grounded(env, Reload(env, s).0) && LivePreserved(s, Reload(env, s).0)
  {
    ReapInvisible(env, s.disk);
  }

  /** Operations on the pool leave both areas alone. */
  lemma PoolPreserves(env: Env, s: State, content: Bytes, now: int, cutoff: int)
    requires Grounded(env, s)
    ensures Grounded(env, PutBlob(env, s, content, now).0) && LivePreserved(s, PutBlob(env, s, content, now).0)
    ensures Grounded(env, Gc(s, cutoff).0) && LivePreserved(s, Gc(s, cutoff).0)
  {
    hide ManifestIn, Abandoned, Rebuild;
  }

  lemma StepPreserves(env: Env, s: State, op: Op)
    requires Grounded(env, s)
    ensures Grounded(env, Step(env, s, op)) && LivePreserved(s, Step(env, s, op))
  {
    hide Stage, Publish, Approve, Reject, PutBlob, Gc, Reload, Opened, Grounded, LivePreserved;
    match op
    case PutBlobOp(content, now) => PoolPreserves(env, s, content, now, 0);
    case StageOp(fw, who) => StagePreserves(env, s, fw, who);
    case PublishOp(fw) => PublishPreserves(env, s, fw);
    case ApproveOp(device, version) => ApprovePreserves(env, s, device, version);
    case RejectOp(device, version) => RejectPreserves(env, s, device, version);
    case GcOp(cutoff) => PoolPreserves(env, s, [], 0, cutoff);
    case ReloadOp => ReopenPreserves(env, s);
    case ReopenOp => ReopenPreserves(env, s);
  }

  /** Once live, a version's manifest and files never change or vanish, under any
      later operations whatever, restarts included. No admissibility is needed. */
  lemma {:induction false} LiveIsImmutable(env: Env, s: State, ops: seq<Op>)
    requires Grounded(env, s)
    ensures Grounded(env, Run(env, s, ops)) && LivePreserved(s, Run(env, s, ops))
  {
    if ops != [] {
      var before := Run(env, s, ops[..|ops| - 1]);
      LiveIsImmutable(env, s, ops[..|ops| - 1]);
      StepPreserves(env, before, ops[|ops| - 1]);
    }
  }
}
