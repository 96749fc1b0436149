/** What each store operation answers and changes, said of its arguments, the index and the tree alone:
    one condition for each answer. */
module StoreAnswers {
  import opened Basics
  import opened Names
  import opened Manifests
  import opened Tree
  import opened StoreSpec
  import opened StoreCache
  import opened StoreInvariant
  import opened StoreRuns

  // ----- submissions -----

  predicate InLayout(b: Blob, slots: nat) { b.slot.GetOr(0) < slots }

  /** The entry names a slot of the device, a proper file name and a blob that is there. */
  predicate Usable(b: Blob, slots: nat, paths: map<string, Path>) {
    InLayout(b, slots) && b.Named() && b.Sha() in paths
  }

  /** The manifest claims these valid coordinates of a known device, with a number of blobs it has slots for. */
  ghost predicate Fits(env: Env, fw: Firmware, key: Key) {
    Claims(fw, key) && key.Valid() && key.device in env.slots && 0 < |fw.blobs| <= env.slots[key.device]
  }

  ghost predicate AllUsable(env: Env, paths: map<string, Path>, fw: Firmware, key: Key) {
    key.device in env.slots && forall b :: b in fw.blobs ==> Usable(b, env.slots[key.device], paths)
  }

  /** A manifest that may become live under `key`. */
  ghost predicate Welcome(env: Env, index: Index, fw: Firmware, key: Key) {
    Fits(env, fw, key) && AllUsable(env, index.blobPaths, fw, key) && key !in index.live
  }

  /** Entry `i` is the first that cannot be used, and only because its blob was never uploaded. */
  ghost predicate FirstMissing(blobs: seq<Blob>, slots: nat, paths: map<string, Path>, i: nat) {
    && i < |blobs| && (forall j :: 0 <= j < i ==> Usable(blobs[j], slots, paths))
    && InLayout(blobs[i], slots) && blobs[i].Named() && blobs[i].Sha() !in paths
  }

  ghost predicate Misses(blobs: seq<Blob>, slots: nat, paths: map<string, Path>, sha: string, file: string) {
    exists i: nat :: FirstMissing(blobs, slots, paths, i) && sha == blobs[i].Sha() && file == blobs[i].File()
  }

  /** Each file of the manifest has a name that can be created. */
  ghost predicate Writable(fw: Firmware) {
    forall b :: b in fw.blobs ==> Creatable(b.File())
  }

  /** The user resubmits an own entry, or has fewer than 32. */
  ghost predicate Room(staged: map<Key, Staged>, key: Key, who: string) {
    || (key in staged && staged[key].submittedBy == who)
    || |set k | k in staged && staged[k].submittedBy == who| < 32
  }

  lemma FaultIff(b: Blob, slots: nat, paths: map<string, Path>)
    ensures Fault(b, slots, paths).None? <==> Usable(b, slots, paths)
    ensures Fault(b, slots, paths) == Some(InvalidArgument) <==> !InLayout(b, slots) || !b.Named()
    ensures Fault(b, slots, paths) == Some(MissingBlob(b.Sha(), b.File())) <==>
      InLayout(b, slots) && b.Named() && b.Sha() !in paths
    ensures Fault(b, slots, paths).None? || Fault(b, slots, paths) == Some(InvalidArgument)
         || Fault(b, slots, paths) == Some(MissingBlob(b.Sha(), b.File()))
  {
    assert ValidBasename(b.File()) ==> b.File() != "";
  }

  lemma {:induction false} FirstFaultAt(blobs: seq<Blob>, slots: nat, paths: map<string, Path>)
    ensures FirstFault(blobs, slots, paths).None? <==> forall b :: b in blobs ==> Usable(b, slots, paths)
    ensures forall sha, file :: FirstFault(blobs, slots, paths) == Some(MissingBlob(sha, file)) <==>
      Misses(blobs, slots, paths, sha, file)
    ensures FirstFault(blobs, slots, paths).Some? ==>
      FirstFault(blobs, slots, paths).value.InvalidArgument? || FirstFault(blobs, slots, paths).value.MissingBlob?
  {
    hide Usable, InLayout, Blob.Named, Fault;
    if blobs != [] {
      FaultIff(blobs[0], slots, paths);
      var rest := blobs[1..];
      FirstFaultAt(rest, slots, paths);
      assert forall b :: b in blobs <==> b == blobs[0] || b in rest;
      forall sha, file ensures FirstFault(blobs, slots, paths) == Some(MissingBlob(sha, file)) <==>
        Misses(blobs, slots, paths, sha, file)
      {
        MissingStep(blobs, slots, paths, sha, file);
      }
    }
  }

  lemma MissingStep(blobs: seq<Blob>, slots: nat, paths: map<string, Path>, sha: string, file: string)
    requires blobs != []
    ensures Misses(blobs, slots, paths, sha, file) <==>
      if Usable(blobs[0], slots, paths) then Misses(blobs[1..], slots, paths, sha, file)
      else FirstMissing(blobs, slots, paths, 0) && sha == blobs[0].Sha() && file == blobs[0].File()
  {
    hide InLayout, Blob.Named;
    var rest := blobs[1..];
    if i: nat :| FirstMissing(blobs, slots, paths, i) && sha == blobs[i].Sha() && file == blobs[i].File() {
      if i > 0 {
        assert forall j :: 0 <= j < i - 1 ==> rest[j] == blobs[j + 1];
        assert FirstMissing(rest, slots, paths, i - 1);
      }
    }
    if Usable(blobs[0], slots, paths) && Misses(rest, slots, paths, sha, file) {
      var i: nat :| FirstMissing(rest, slots, paths, i) && sha == rest[i].Sha() && file == rest[i].File();
      assert forall j :: 1 <= j < i + 1 ==> blobs[j] == rest[j - 1];
      assert FirstMissing(blobs, slots, paths, i + 1);
    }
  }

  /** The answer a refused submission gets before quota and copying, and when it gets which. */
  ghost predicate RefusedFor(env: Env, index: Index, fw: Firmware, e: StoreError) {
    match e
    case UnknownDevice(d) => exists key: Key :: Claims(fw, key) && key.Valid() && key.device == d && d !in env.slots
    case MissingBlob(sha, file) =>
      exists key :: Fits(env, fw, key) && Misses(fw.blobs, env.slots[key.device], index.blobPaths, sha, file)
    case AlreadyExists(key) => Fits(env, fw, key) && AllUsable(env, index.blobPaths, fw, key) && key in index.live
    case InvalidArgument =>
      && (forall key :: Fits(env, fw, key) ==>
            && !AllUsable(env, index.blobPaths, fw, key)
            && forall sha, file :: !Misses(fw.blobs, env.slots[key.device], index.blobPaths, sha, file))
      && forall key: Key :: Claims(fw, key) && key.Valid() ==> key.device in env.slots
    case _ => false
  }

  lemma ClaimsOne(fw: Firmware, a: Key, b: Key)
    requires Claims(fw, a) && Claims(fw, b)
    ensures a == b
  {
  }

  lemma VerdictAnswers(env: Env, index: Index, fw: Firmware)
    ensures forall key :: Verdict(env, index, fw, true) == Ok(key) <==> Welcome(env, index, fw, key)
    ensures forall e :: Verdict(env, index, fw, true) == Err(e) <==> RefusedFor(env, index, fw, e)
  {
    hide Usable, Misses, ValidDevice, ValidVersion, FirstFault, ValidSha, ValidBasename, KeyOf;
    if key: Key :| Claims(fw, key) && key.Valid() {
      assert KeyOf(fw) == Ok(key);
      forall other: Key | Claims(fw, other) ensures other == key { ClaimsOne(fw, key, other); }
      if key.device in env.slots {
        FirstFaultAt(fw.blobs, env.slots[key.device], index.blobPaths);
      }
    } else {
      assert KeyOf(fw).Err?;
    }
  }

  lemma CopyableIff(env: Env, s: State, fw: Firmware, key: Key)
    requires Invariant(env, s) && Welcome(env, s.index, fw, key)
    ensures Copyable(s.disk, s.index.blobPaths, fw.blobs) <==> Writable(fw)
  {
    hide Invariant, Verdict, Welcome, Copyable, Creatable;
    VerdictAnswers(env, s.index, fw);
    AllCopyable(env, s, fw);
  }

  lemma RoomIff(staged: map<Key, Staged>, key: Key, who: string)
    ensures Room(staged, key, who) <==> !OverQuota(staged, key, who)
  {
    assert StagedBy(staged, who) == set k | k in staged && staged[k].submittedBy == who;
  }

  /** What `stage` answers. Accepted: welcome, writable, and room for it, where an own entry is always
      replaced. Otherwise the state is as before, and each refusal has its one condition. */
  lemma StageAnswers(env: Env, s: State, fw: Firmware, who: string)
    requires Invariant(env, s)
    ensures var (t, r) := (Stage(env, s, fw, who).state, Stage(env, s, fw, who).result);
      && (r.Ok? <==> exists key :: Welcome(env, s.index, fw, key) && Writable(fw) && Room(s.index.staged, key, who))
      && (r == Err(Quota) <==> exists key :: Welcome(env, s.index, fw, key) && !Room(s.index.staged, key, who))
      && (r == Err(Io) <==>
            exists key :: Welcome(env, s.index, fw, key) && Room(s.index.staged, key, who) && !Writable(fw))
      && (forall e :: RefusedFor(env, s.index, fw, e) ==> r == Err(e))
      && (r.Err? ==> t == s && (r.error in {Quota, Io} || RefusedFor(env, s.index, fw, r.error)))
      && (r.Ok? ==> r.value == fw && t.index.live == s.index.live)
      && (r.Ok? ==> forall key :: Claims(fw, key) ==> t.index.staged == s.index.staged[key := Staged(fw, who)])
  {
    hide Invariant, Welcome, RefusedFor, Room, Writable, OverQuota, Copyable, Verdict, VersionDir, Rebuild,
      SweptIncoming, PathOwned;
    VerdictAnswers(env, s.index, fw);
    match Verdict(env, s.index, fw, true) {
      case Err(e) =>
        assert RefusedFor(env, s.index, fw, e);
        NotBoth(env, s.index, fw);
      case Ok(key) =>
        assert Welcome(env, s.index, fw, key);
        CopyableIff(env, s, fw, key);
        RoomIff(s.index.staged, key, who);
        NotBoth(env, s.index, fw);
        WelcomeClaims(env, s.index, fw, key);
    }
  }

  lemma WelcomeFits(env: Env, index: Index, fw: Firmware, key: Key)
    requires Welcome(env, index, fw, key)
    ensures Claims(fw, key)
  {
  }

  lemma WelcomeClaims(env: Env, index: Index, fw: Firmware, key: Key)
    requires Welcome(env, index, fw, key)
    ensures forall other :: Claims(fw, other) ==> other == key
  {
    forall other | Claims(fw, other) ensures other == key {
      ClaimsOne(fw, other, key);
    }
  }

  /** No manifest is both welcome and refused, nor refused for two reasons or a quota. */
  lemma NotBoth(env: Env, index: Index, fw: Firmware)
    ensures forall a, b :: Welcome(env, index, fw, a) && Welcome(env, index, fw, b) ==> a == b
    ensures forall key, e :: !(Welcome(env, index, fw, key) && RefusedFor(env, index, fw, e))
    ensures forall e, f :: RefusedFor(env, index, fw, e) && RefusedFor(env, index, fw, f) ==> e == f
    ensures !RefusedFor(env, index, fw, Quota) && !RefusedFor(env, index, fw, Io)
  {
    assert !RefusedFor(env, index, fw, Quota) && !RefusedFor(env, index, fw, Io);
    hide Welcome, RefusedFor, Verdict;
    VerdictAnswers(env, index, fw);
  }

  /** What `publish` answers: as `stage`, without a quota. */
  lemma PublishAnswers(env: Env, s: State, fw: Firmware)
    requires Invariant(env, s)
    ensures var (t, r) := (Publish(env, s, fw).state, Publish(env, s, fw).result);
      && (r.Ok? <==> exists key :: Welcome(env, s.index, fw, key) && Writable(fw))
      && (r == Err(Io) <==> exists key :: Welcome(env, s.index, fw, key) && !Writable(fw))
      && (forall e :: RefusedFor(env, s.index, fw, e) ==> r == Err(e))
      && (r.Err? ==> t == s && (r.error == Io || RefusedFor(env, s.index, fw, r.error)))
      && (r.Ok? ==> r.value == fw)
      && (r.Ok? ==> forall key :: Claims(fw, key) ==>
            t.index.live == s.index.live[key := fw] && t.index.staged == s.index.staged - {key})
  {
    hide Invariant, Welcome, RefusedFor, Writable, Copyable, Verdict, VersionDir, Rebuild, SweptIncoming, PathOwned;
    VerdictAnswers(env, s.index, fw);
    NotBoth(env, s.index, fw);
    match Verdict(env, s.index, fw, true) {
      case Err(e) => assert RefusedFor(env, s.index, fw, e);
      case Ok(key) =>
        assert Welcome(env, s.index, fw, key);
        CopyableIff(env, s, fw, key);
        WelcomeClaims(env, s.index, fw, key);
    }
  }

  /** Whoever has just staged a key may stage it again, whatever else they have staged. */
  lemma RestageAccepted(env: Env, s: State, fw: Firmware, again: Firmware, who: string, key: Key)
    requires Invariant(env, s) && Admissible(s, StageOp(fw, who)) && Stage(env, s, fw, who).result.Ok?
    requires Claims(fw, key) && Welcome(env, Stage(env, s, fw, who).state.index, again, key) && Writable(again)
    ensures var t := Stage(env, s, fw, who).state;
      Stage(env, t, again, who).result == Ok(again)
      && Stage(env, t, again, who).state.index.staged == s.index.staged[key := Staged(again, who)]
  {
    hide Invariant, Welcome, Writable, Stage, RefusedFor;
    var t := Stage(env, s, fw, who).state;
    StageAnswers(env, s, fw, who);
    StageKeeps(env, s, fw, who);
    StageAnswers(env, t, again, who);
    assert Room(t.index.staged, key, who);
    WelcomeFits(env, t.index, again, key);
  }

  /** The directory has a file for each blob, the manifest, the submitter's name if there is one, and
      nothing else. */
  ghost predicate Written(env: Env, dir: Dir, fw: Firmware, who: Option<string>) {
    && (forall f :: f in dir <==>
          f == "manifest.json" || (who.Some? && f == "submitted-by") || exists b :: b in fw.blobs && b.File() == f)
    && dir["manifest.json"] == env.encode(fw)
    && (who.Some? ==> dir["submitted-by"] == env.fromText(who.value))
  }

  lemma DirectoryFiles(env: Env, s: State, fw: Firmware, who: Option<string>)
    requires AllNamed(fw) && Copyable(s.disk, s.index.blobPaths, fw.blobs)
    ensures Written(env, VersionDir(env, s, fw, who), fw, who)
  {
    hide ValidSha, Copyable;
    CopiedFiles(s.disk, s.index.blobPaths, fw.blobs);
    var dir := VersionDir(env, s, fw, who);
    var files := Copied(s.disk, s.index.blobPaths, fw.blobs);
    forall f ensures f in files <==> exists b :: b in fw.blobs && b.File() == f {
      if f in files {
        assert HasSource(f, files[f], s.disk, s.index.blobPaths, fw.blobs);
      }
    }
  }

  /** Some manifest of the index keeps a file for the sha in its directory. */
  ghost predicate InSomeDirectory(index: Index, sha: string) {
    || (exists k, b :: k in index.live && b in index.live[k].blobs && b.Named() && b.Sha() == sha)
    || (exists k, b :: k in index.staged && b in index.staged[k].firmware.blobs && b.Named() && b.Sha() == sha)
  }

  lemma OwnedIff(index: Index, sha: string)
    ensures sha in Owned(index.live, index.staged) <==> InSomeDirectory(index, sha)
  {
    hide Blob.Named, Blob.Sha;
    var fws := StagedManifests(index.staged);
    if k, b :| k in index.staged && b in index.staged[k].firmware.blobs && b.Named() && b.Sha() == sha {
      assert k in fws && fws[k] == index.staged[k].firmware;
    }
    if sha in CarriedBy(fws) {
      var k, b :| k in fws && b in fws[k].blobs && b.Named() && b.Sha() == sha;
      assert k in index.staged && b in index.staged[k].firmware.blobs;
    }
  }

  /** Of the uploads exactly those go that some directory now has a file for. */
  ghost predicate PoolSwept(was: Disk, now: Disk, index: Index) {
    && (forall n :: n in now.incoming <==> n in was.incoming && !InSomeDirectory(index, n))
    && (forall n :: n in now.incoming ==> now.incoming[n] == was.incoming[n])
  }

  lemma SweepPool(s: State)
    requires s.index.blobPaths == Rebuild(s.disk.incoming.Keys, s.index.live, s.index.staged)
    ensures PoolSwept(s.disk, Swept(s).disk, s.index)
    ensures Swept(s).disk.live == s.disk.live && Swept(s).disk.staging == s.disk.staging
  {
    hide Rebuild, ValidSha, PathOwned;
    OwnedPaths(s.disk.incoming.Keys, s.index.live, s.index.staged);
    forall n ensures n in Owned(s.index.live, s.index.staged) <==> InSomeDirectory(s.index, n) { OwnedIff(s.index, n); }
    forall n | InSomeDirectory(s.index, n) ensures ValidSha(n) { DirectorySha(s.index, n); }
  }

  lemma DirectorySha(index: Index, sha: string)
    requires InSomeDirectory(index, sha)
    ensures ValidSha(sha)
  {
    hide ValidSha;
  }

  /** What an accepted submission leaves in the tree: the directory of its key as specified, every other
      directory as it was, and only those uploads that no directory has a file for. */
  lemma StageWrites(env: Env, s: State, fw: Firmware, who: string, key: Key)
    requires Stage(env, s, fw, who).result.Ok? && Claims(fw, key)
    ensures var t := Stage(env, s, fw, who).state;
      && key in t.disk.staging && Written(env, t.disk.staging[key], fw, Some(who))
      && t.disk.staging - {key} == s.disk.staging - {key} && t.disk.live == s.disk.live
      && PoolSwept(s.disk, t.disk, t.index) && t.bumps == s.bumps + 1
  {
    hide Verdict, VersionDir, Rebuild, Written, PoolSwept, OverQuota, AllNamed, Copyable, Swept;
    VerdictOk(env, s.index, fw);
    ClaimsOne(fw, key, Verdict(env, s.index, fw, true).value);
    DirectoryFiles(env, s, fw, Some(who));
    var dir := VersionDir(env, s, fw, Some(who));
    PlacedSweeps(s, s.disk.(staging := s.disk.staging[key := dir]), s.index.live,
                 s.index.staged[key := Staged(fw, who)]);
  }

  /** Likewise for a publication, which has no submitter. */
  lemma PublishWrites(env: Env, s: State, fw: Firmware, key: Key)
    requires Publish(env, s, fw).result.Ok? && Claims(fw, key)
    ensures var t := Publish(env, s, fw).state;
      && key in t.disk.live && Written(env, t.disk.live[key], fw, None)
      && t.disk.live - {key} == s.disk.live - {key} && t.disk.staging == s.disk.staging
      && PoolSwept(s.disk, t.disk, t.index) && t.bumps == s.bumps + 1
  {
    hide Verdict, VersionDir, Rebuild, Written, PoolSwept, AllNamed, Copyable, Swept;
    VerdictOk(env, s.index, fw);
    ClaimsOne(fw, key, Verdict(env, s.index, fw, true).value);
    DirectoryFiles(env, s, fw, None);
    var dir := VersionDir(env, s, fw, None);
    PlacedSweeps(s, s.disk.(live := s.disk.live[key := dir]), s.index.live[key := fw], s.index.staged - {key});
  }

  lemma PlacedSweeps(s: State, disk: Disk, live: map<Key, Firmware>, staged: map<Key, Staged>)
    requires disk.incoming == s.disk.incoming
    ensures var t := Swept(WithIndex(disk, live, staged, s.bumps + 1));
      && PoolSwept(s.disk, t.disk, t.index) && t.bumps == s.bumps + 1
      && t.disk.live == disk.live && t.disk.staging == disk.staging
  {
    hide Rebuild, Swept, InSomeDirectory;
    var placed := WithIndex(disk, live, staged, s.bumps + 1);
    SweepPool(placed);
    SweepKeepsPaths(placed);
    assert Swept(placed).bumps == placed.bumps by { SweptBumps(placed); }
  }

  lemma SweptBumps(s: State)
    ensures Swept(s).bumps == s.bumps
  {
    hide Rebuild, PathOwned;
  }

  // ----- review -----

  /** Something lies where the approved directory has to go, though it is not indexed as live. */
  ghost predicate InTheWay(disk: Disk, key: Key) {
    key in disk.live && exists f :: f in disk.live[key]
  }

  /** What `approve` answers and moves: the staged directory becomes the live one, without the
      submitter's file and with nothing else of the tree touched. */
  lemma ApproveAnswers(env: Env, s: State, device: string, version: string)
    requires Settled(env, s)
    ensures var key, t, r :=
        Key(device, version), Approve(s, device, version).state, Approve(s, device, version).result;
      && (r.Ok? <==> key in s.index.staged && !InTheWay(s.disk, key))
      && (r == Err(Io) <==> key in s.index.staged && InTheWay(s.disk, key))
      && (r == Err(AlreadyExists(key)) <==> key in s.index.live)
      && (r == Err(NotFound(key)) <==> key.Valid() && key !in s.index.live && key !in s.index.staged)
      && (r == Err(InvalidArgument) <==> !key.Valid())
      && (r.Err? ==> t == s)
      && (r.Ok? ==> r.value == s.index.staged[key].firmware && t.bumps == s.bumps + 1)
      && (r.Ok? ==> t.index.live == s.index.live[key := r.value] && t.index.staged == s.index.staged - {key})
      && (r.Ok? ==> t.disk.staging == s.disk.staging - {key} && t.disk.incoming == s.disk.incoming)
      && (r.Ok? ==> t.disk.live - {key} == s.disk.live - {key} && key in s.disk.staging && key in t.disk.live)
      && (r.Ok? ==> forall f ::
            (f in t.disk.live[key] <==> f in s.disk.staging[key] && f != "submitted-by")
            && (f in t.disk.live[key] ==> t.disk.live[key][f] == s.disk.staging[key][f]))
  {
    hide Rebuild, EnvOk, ValidDevice, ValidVersion;
    var key := Key(device, version);
    ScannedValid(env, s, key);
    assert InTheWay(s.disk, key) <==> key in s.disk.live && s.disk.live[key] != map[];
  }

  /** Indexed keys went through the parsers, and their directories are there. */
  lemma ScannedValid(env: Env, s: State, key: Key)
    requires Cached(env, s)
    ensures key in s.index.staged ==> key.Valid() && key in s.disk.staging
    ensures key in s.index.live ==> key.Valid() && key in s.disk.live
  {
    hide Rebuild, EnvOk, ValidDevice, ValidVersion;
  }

  /** What `reject` answers and removes. */
  lemma RejectAnswers(env: Env, s: State, device: string, version: string)
    requires Cached(env, s)
    ensures var key, t, r := Key(device, version), Reject(s, device, version).0, Reject(s, device, version).1;
      && (r.Ok? <==> key in s.index.staged)
      && (r == Err(NotFound(key)) <==> key.Valid() && key !in s.index.staged)
      && (r == Err(InvalidArgument) <==> !key.Valid())
      && (r.Err? ==> t == s)
      && (r.Ok? ==> t.disk == s.disk.(staging := s.disk.staging - {key}) && t.bumps == s.bumps + 1)
      && (r.Ok? ==> t.index.live == s.index.live && t.index.staged == s.index.staged - {key})
  {
    hide Rebuild, EnvOk, ValidDevice, ValidVersion;
    ScannedValid(env, s, Key(device, version));
  }

  // ----- uploads -----

  /** An upload is taken exactly from one byte up to the cap, and dated `now` unless it was there before. */
  lemma PutBlobAnswers(env: Env, s: State, content: Bytes, now: int)
    ensures var (t, r) := PutBlob(env, s, content, now);
      var sha := env.digest(content);
      && (r == if 1 <= |content| <= env.maxBlobBytes then Ok(sha) else Err(InvalidArgument))
      && (r.Err? ==> t == s)
      && (r.Ok? ==> sha in t.disk.incoming && t.disk.incoming - {sha} == s.disk.incoming - {sha})
      && (r.Ok? ==>
            t.disk.incoming[sha] == if sha in s.disk.incoming then s.disk.incoming[sha] else Upload(content, now))
      && (r.Ok? ==> sha in t.index.blobPaths && t.index.blobPaths - {sha} == s.index.blobPaths - {sha})
      && (r.Ok? ==>
            t.index.blobPaths[sha] == if sha in s.index.blobPaths then s.index.blobPaths[sha] else Incoming(sha))
      && t.disk.live == s.disk.live && t.disk.staging == s.disk.staging && t.bumps == s.bumps
      && t.index.live == s.index.live && t.index.staged == s.index.staged
  {
  }

  /** Some manifest, live or staged, has the name in one of its entries. */
  ghost predicate Mentioned(index: Index, name: string) {
    || (exists k, b :: k in index.live && b in index.live[k].blobs && b.sha == Some(name))
    || (exists k, b :: k in index.staged && b in index.staged[k].firmware.blobs && b.sha == Some(name))
  }

  lemma ReferencedIff(index: Index, name: string)
    ensures name in Referenced(index) <==> Mentioned(index, name)
  {
  }

  lemma GcFrame(s: State, cutoff: int)
    ensures var t := Gc(s, cutoff).0; t.disk.live == s.disk.live && t.disk.staging == s.disk.staging
  {
    hide Rebuild, Abandoned;
  }

  /** Collection keeps an upload exactly if it is under way, mentioned, or not older than the cutoff. */
  lemma GcAnswers(env: Env, s: State, cutoff: int)
    requires Cached(env, s)
    ensures var (t, count) := Gc(s, cutoff);
      && (forall n :: n in t.disk.incoming <==>
            n in s.disk.incoming
            && (Contains(n, ".tmp-") || Mentioned(s.index, n) || s.disk.incoming[n].mtime >= cutoff))
      && (forall n :: n in t.disk.incoming ==> t.disk.incoming[n] == s.disk.incoming[n])
      && count == |s.disk.incoming| - |t.disk.incoming|
      && t.disk.live == s.disk.live && t.disk.staging == s.disk.staging && t.bumps == s.bumps
      && t.index.live == s.index.live && t.index.staged == s.index.staged
  {
    hide Rebuild, Cached, Available, Contains, Mentioned, Referenced, Abandoned, Gc;
    GcExact(env, s, cutoff);
    AbandonedIff(s, cutoff);
    GcFrame(s, cutoff);
    forall n ensures n in Referenced(s.index) <==> Mentioned(s.index, n) { ReferencedIff(s.index, n); }
  }

  /** A fresh upload outlives every collection with a cutoff up to its time, and, if nothing mentions it,
      no collection with a later one. */
  lemma UploadLifetime(env: Env, s: State, content: Bytes, now: int, cutoff: int)
    requires Invariant(env, s) && 1 <= |content| <= env.maxBlobBytes && env.digest(content) !in s.disk.incoming
    ensures var sha, t := env.digest(content), PutBlob(env, s, content, now).0;
      sha in Gc(t, cutoff).0.disk.incoming <==> cutoff <= now || Mentioned(s.index, sha)
  {
    hide Invariant, Rebuild, Contains, Mentioned, Gc, ValidSha;
    var sha, t := env.digest(content), PutBlob(env, s, content, now).0;
    PutBlobKeeps(env, s, content, now);
    InvariantCached(env, t);
    GcAnswers(env, t, cutoff);
    assert ValidSha(sha) by { assert EnvOk(env) by { InvariantCached(env, s); } }
    NameSpacesDisjoint("", sha, "");
    MentionedSame(s.index, t.index, sha);
  }

  lemma MentionedSame(a: Index, b: Index, name: string)
    requires a.live == b.live && a.staged == b.staged
    ensures Mentioned(a, name) <==> Mentioned(b, name)
  {
  }

  // ----- reading the tree -----

  /** The directory may be indexed: a device of the catalogue, a proper version, and a readable manifest
      that claims exactly the directory's own coordinates. */
  ghost predicate Indexable(env: Env, key: Key, dir: Dir, fw: Firmware) {
    && ValidDevice(key.device) && ValidVersion(key.version) && key.device in env.slots
    && "manifest.json" in dir && env.decode(dir["manifest.json"]) == Some(fw)
    && fw.device == Some(key.device) && fw.version == Some(key.version)
  }

  /** Who a staged directory says submitted it: nobody if the file is missing or is not text. */
  ghost predicate SubmittedBy(env: Env, dir: Dir, who: string) {
    if "submitted-by" in dir && env.toText(dir["submitted-by"]).Some?
    then who == Trim(env.toText(dir["submitted-by"]).value)
    else who == ""
  }

  /** Exactly what a scan of any tree indexes. */
  lemma ScanAnswers(env: Env, disk: Disk)
    ensures var index := Scan(env, disk);
      && (forall key, fw :: key in index.live && index.live[key] == fw <==>
            key in disk.live && Indexable(env, key, disk.live[key], fw))
      && (forall key, fw, who :: key in index.staged && index.staged[key] == Staged(fw, who) <==>
            && key in disk.staging && Indexable(env, key, disk.staging[key], fw)
            && SubmittedBy(env, disk.staging[key], who))
  {
    hide ValidDevice, ValidVersion, Rebuild, Trim;
    forall key, dir, fw ensures ManifestIn(env, key, dir) == Some(fw) <==> Indexable(env, key, dir, fw) {
      ManifestIff(env, key, dir, fw);
    }
  }

  lemma ManifestIff(env: Env, key: Key, dir: Dir, fw: Firmware)
    ensures ManifestIn(env, key, dir) == Some(fw) <==> Indexable(env, key, dir, fw)
  {
    hide ValidVersion, ValidDevice;
    NameSpacesDisjoint(key.version, "", "");
  }

  /** Opening drops exactly the directories named `.tmp-…` and the uploads with `.tmp-` in their name. */
  lemma ReapAnswers(disk: Disk)
    ensures var t := Reap(disk);
      && (forall k :: k in t.live <==> k in disk.live && !(".tmp-" <= k.version))
      && (forall k :: k in t.staging <==> k in disk.staging && !(".tmp-" <= k.version))
      && (forall n :: n in t.incoming <==> n in disk.incoming && !Contains(n, ".tmp-"))
      && (forall k :: k in t.live ==> t.live[k] == disk.live[k])
      && (forall k :: k in t.staging ==> t.staging[k] == disk.staging[k])
      && (forall n :: n in t.incoming ==> t.incoming[n] == disk.incoming[n])
  {
  }

  /** A reload reports a change exactly if some key was added or dropped by hand since, and announces it then. */
  lemma ReloadAnswers(env: Env, s: State)
    ensures var (t, changed) := Reload(env, s);
      && t.disk == s.disk && t.index == Scan(env, s.disk)
      && (changed <==> exists k ::
            (k in s.index.live <==> k !in t.index.live) || (k in s.index.staged <==> k !in t.index.staged))
      && t.bumps == s.bumps + if changed then 1 else 0
  {
    hide Scan;
  }
}
