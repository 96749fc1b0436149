/** The store itself: the tree and its index, updated in place operation by operation. */
module Store {
  import opened Basics
  import opened Names
  import opened Manifests
  import opened Tree
  import opened StoreSpec
  import opened StoreCache
  import opened StoreInvariant
  import opened Scanning

  /** A blob list after validation: digest and file name, both usable. */
  type ParsedBlobs = seq<(string, string)>

  ghost predicate ParsedFrom(parsed: ParsedBlobs, blobs: seq<Blob>) {
    |parsed| == |blobs| && forall i :: 0 <= i < |blobs| ==> parsed[i] == (blobs[i].Sha(), blobs[i].File())
  }

  class Store {
    const env: Env
    /** The directory tree; the store is its only writer. */
    var disk: Disk
    var index: Index
    /** Change notifications sent so far. */
    var bumps: nat

    ghost function Now(): State
      reads this
    {
      State(disk, index, bumps)
    }

    /** No indexed blob lives in the directory. */
    ghost predicate Unindexed(area: Area, dir: Key)
      reads this
    {
      forall sha :: sha in index.blobPaths && index.blobPaths[sha].InDir? && index.blobPaths[sha].area == area ==>
        index.blobPaths[sha].key != dir
    }

    /** A random build directory name: not in the tree, and not where an indexed blob lives. */
    ghost predicate Unused(area: Area, tmp: Key)
      reads this
    {
      tmp !in disk.In(area) && Unindexed(area, tmp)
    }

    /** Reap what a crash left behind, then index what is there. */
    constructor Open(env: Env, tree: Disk)
      ensures this.env == env && Now() == Opened(env, tree)
    {
      var reaped := GcTmpArtifacts(tree);
      var scanned := ScanTree(env, reaped);
      this.env := env;
      disk, index, bumps := reaped, scanned, 0;
    }

    method Validate(fw: Firmware, rejectIfLive: bool) returns (r: Result<(Key, ParsedBlobs), StoreError>)
      ensures match Verdict(env, index, fw, rejectIfLive)
        case Err(e) => r == Err(e)
        case Ok(key) => r.Ok? && r.value.0 == key && ParsedFrom(r.value.1, fw.blobs)
    {
      hide ValidSha, ValidBasename;
      var key;
      match KeyOf(fw) {
        case Err(e) => return Err(e);
        case Ok(k) => key := k;
      }
      if key.device !in env.slots {
        return Err(UnknownDevice(key.device));
      }
      var slots := env.slots[key.device];
      if fw.blobs == [] {
        return Err(InvalidArgument);
      }
      if |fw.blobs| > slots {
        return Err(InvalidArgument);
      }
      var parsed: ParsedBlobs := [];
      for i := 0 to |fw.blobs|
        invariant ParsedFrom(parsed, fw.blobs[..i])
        invariant FirstFault(fw.blobs, slots, index.blobPaths) == FirstFault(fw.blobs[i..], slots, index.blobPaths)
      {
        var blob := fw.blobs[i];
        assert fw.blobs[i..][0] == blob && fw.blobs[i..][1..] == fw.blobs[i + 1..];
        if blob.slot.GetOr(0) >= slots {
          return Err(InvalidArgument);
        }
        if !ValidSha(blob.Sha()) {
          return Err(InvalidArgument);
        }
        if !ValidBasename(blob.File()) {
          return Err(InvalidArgument);
        }
        if blob.Sha() !in index.blobPaths {
          return Err(MissingBlob(blob.Sha(), blob.File()));
        }
        parsed := parsed + [(blob.Sha(), blob.File())];
      }
      assert fw.blobs[..|fw.blobs|] == fw.blobs && fw.blobs[|fw.blobs|..] == [];
      if rejectIfLive && key in index.live {
        return Err(AlreadyExists(key));
      }
      r := Ok((key, parsed));
    }

    /** Copy each blob from wherever the index finds it into the build directory `tmp`,
        which is dropped if a copy fails. */
    method CopyBlobs(area: Area, tmp: Key, parsed: ParsedBlobs, ghost blobs: seq<Blob>, ghost before: Disk)
      returns (ok: bool)
      requires ParsedFrom(parsed, blobs) && forall b :: b in blobs ==> b.Sha() in index.blobPaths
      requires disk == before.With(area, before.In(area)[tmp := map[]]) && tmp !in before.In(area)
      requires Unindexed(area, tmp)
      modifies this`disk
      ensures ok <==> Copyable(before, index.blobPaths, blobs)
      ensures ok ==> disk == before.With(area, before.In(area)[tmp := Copied(before, index.blobPaths, blobs)])
      ensures !ok ==> disk == before
    {
      hide Read, Disk.In, Disk.With, Copyable, Copied;
      CopyNothing(before, index.blobPaths, blobs);
      for i := 0 to |parsed|
        invariant Copyable(before, index.blobPaths, blobs[..i])
        invariant disk == before.With(area, before.In(area)[tmp := Copied(before, index.blobPaths, blobs[..i])])
      {
        var (sha, file) := parsed[i];
        assert blobs[i] in blobs;
        ghost var copied := Copied(before, index.blobPaths, blobs[..i]);
        UnreadByTmp(before, area, tmp, copied, index.blobPaths[sha]);
        CopyExtends(before, index.blobPaths, blobs, i);
        ghost var source := Read(before, index.blobPaths[sha]);
        BuildOver(before, area, tmp, copied, copied[file := source.GetOr([])]);
        match Read(disk, index.blobPaths[sha]) {
          case None =>
            disk := disk.With(area, disk.In(area) - {tmp});
            return false;
          case Some(bytes) =>
            if !Creatable(file) {
              disk := disk.With(area, disk.In(area) - {tmp});
              return false;
            }
            disk := disk.With(area, disk.In(area)[tmp := disk.In(area)[tmp][file := bytes]]);
        }
      }
      assert blobs[..|parsed|] == blobs;
      ok := true;
    }

    /** Build `<device>/.tmp-…`, then rename it over `key`; a failed copy drops the build
        directory and leaves the tree as it was. */
    method WriteVersionDir(area: Area, key: Key, fw: Firmware, parsed: ParsedBlobs, who: Option<string>, tmp: Key)
      returns (r: Result<(), StoreError>)
      requires ParsedFrom(parsed, fw.blobs) && tmp !in disk.In(area) && Unindexed(area, tmp) && tmp != key
      requires forall b :: b in fw.blobs ==> b.Sha() in index.blobPaths
      modifies this`disk
      ensures Copyable(old(disk), index.blobPaths, fw.blobs) ==>
        r == Ok(()) && disk == old(disk).With(area, old(disk).In(area)[key := VersionDir(env, old(Now()), fw, who)])
      ensures !Copyable(old(disk), index.blobPaths, fw.blobs) ==> r == Err(Io) && disk == old(disk)
    {
      hide Copyable, Read, Copied, ParsedFrom, Disk.In, Disk.With;
      ghost var before := disk;
      disk := disk.With(area, disk.In(area)[tmp := map[]]);
      var copied := CopyBlobs(area, tmp, parsed, fw.blobs, before);
      if !copied {
        return Err(Io);
      }
      BuildOver(before, area, tmp, Copied(before, index.blobPaths, fw.blobs), VersionDir(env, old(Now()), fw, who));
      var files := disk.In(area)[tmp][MANIFEST := env.encode(fw)];
      if who.Some? {
        files := files[SUBMITTED_BY := env.fromText(who.value)];
      }
      disk := disk.With(area, disk.In(area)[tmp := files]);
      BuildOver(before, area, tmp, files, files);
      CommitDir(area, key, tmp);
      CommitOver(before, area, tmp, files, key);
      r := Ok(());
    }

    /** Clear whatever is at `key`, then rename the build directory there: the commit. */
    method CommitDir(area: Area, key: Key, tmp: Key)
      requires tmp in disk.In(area) && tmp != key
      modifies this`disk
      ensures disk == old(disk).With(area, (old(disk).In(area) - {tmp})[key := old(disk).In(area)[tmp]])
    {
      ghost var dirs := disk.In(area);
      if key in disk.In(area) {
        disk := disk.With(area, disk.In(area) - {key});
      }
      disk := disk.With(area, (disk.In(area) - {tmp})[key := disk.In(area)[tmp]]);
      assert (dirs - {key} - {tmp})[key := dirs[tmp]] == (dirs - {tmp})[key := dirs[tmp]];
    }

    /** Drop pooled copies a version directory now owns. */
    method SweepIncoming()
      modifies this
      ensures Now() == Swept(old(Now()))
    {
      hide Rebuild;
      var owned := PathOwned(index.blobPaths);
      DeleteOwned(owned);
      var paths := RebuildBlobPaths(disk.incoming, index.live, index.staged);
      index := index.(blobPaths := paths);
    }

    method DeleteOwned(owned: set<string>)
      modifies this`disk
      ensures disk == old(disk).(incoming := SweptIncoming(old(disk).incoming, owned))
    {
      hide ValidSha;
      ghost var before := disk;
      var rest := disk.incoming.Keys;
      ghost var gone: set<string> := {};
      while rest != {}
        invariant rest <= before.incoming.Keys && rest !! gone
        invariant gone == set n | n in before.incoming && n !in rest && ValidSha(n) && n in owned
        invariant disk == before.(incoming := disk.incoming) && Lacks(before.incoming, disk.incoming, gone)
        decreases rest
      {
        var n :| n in rest;
        rest := rest - {n};
        if ValidSha(n) && n in owned {
          disk, gone := disk.(incoming := disk.incoming - {n}), gone + {n};
        }
      }
      assert disk.incoming == SweptIncoming(before.incoming, owned);
    }

    method PutBlob(content: Bytes, now: int) returns (r: Result<string, StoreError>)
      modifies this
      ensures (Now(), r) == StoreSpec.PutBlob(env, old(Now()), content, now)
    {
      if content == [] {
        return Err(InvalidArgument);
      }
      if |content| > env.maxBlobBytes {
        return Err(InvalidArgument);
      }
      var sha := env.digest(content);
      if sha !in disk.incoming {
        disk := disk.(incoming := disk.incoming[sha := Upload(content, now)]);
      }
      if sha !in index.blobPaths {
        index := index.(blobPaths := index.blobPaths[sha := Incoming(sha)]);
      }
      r := Ok(sha);
    }

    /** Serve a blob, refusing bytes that do not match their digest. */
    method GetBlob(sha: string) returns (r: Result<Option<Bytes>, StoreError>)
      ensures r == StoreSpec.GetBlob(env, Now(), sha)
      ensures r.Ok? && r.value.Some? ==> env.digest(r.value.value) == sha
    {
      if sha !in index.blobPaths {
        return Ok(None);
      }
      match Read(disk, index.blobPaths[sha]) {
        case None => return Err(Io);
        case Some(bytes) =>
          if env.digest(bytes) != sha {
            return Err(Io);
          }
          return Ok(Some(bytes));
      }
    }

    method Publish(fw: Firmware, tmp: string) returns (r: Result<Firmware, StoreError>)
      requires KeyOf(fw).Ok? ==> Unused(Live, Key(KeyOf(fw).value.device, TMP_PREFIX + tmp))
      modifies this
      ensures Out(Now(), r) == StoreSpec.Publish(env, old(Now()), fw)
    {
      hide ValidSha, ValidBasename, Rebuild, VersionDir, Swept;
      var checked := Validate(fw, true);
      if checked.Err? {
        return Err(checked.error);
      }
      var (key, parsed) := checked.value;
      VerdictOk(env, index, fw);
      NotTemporary(key, tmp);
      var written := WriteVersionDir(Live, key, fw, parsed, None, Key(key.device, TMP_PREFIX + tmp));
      if written.Err? {
        return Err(written.error);
      }
      var live, staged := index.live[key := fw], index.staged - {key};
      var paths := RebuildBlobPaths(disk.incoming, live, staged);
      index, bumps := Index(live, staged, paths), bumps + 1;
      SweepIncoming();
      r := Ok(fw);
    }

    method Stage(fw: Firmware, who: string, tmp: string) returns (r: Result<Firmware, StoreError>)
      requires KeyOf(fw).Ok? ==> Unused(Staging, Key(KeyOf(fw).value.device, TMP_PREFIX + tmp))
      modifies this
      ensures Out(Now(), r) == StoreSpec.Stage(env, old(Now()), fw, who)
    {
      hide ValidSha, ValidBasename, Rebuild, VersionDir, Swept;
      var checked := Validate(fw, true);
      if checked.Err? {
        return Err(checked.error);
      }
      var (key, parsed) := checked.value;
      VerdictOk(env, index, fw);
      NotTemporary(key, tmp);
      var owned := CountStagedBy(who);
      var ownsKey := key in index.staged && index.staged[key].submittedBy == who;
      if !ownsKey && owned >= MAX_STAGED_PER_USER {
        return Err(Quota);
      }
      var written := WriteVersionDir(Staging, key, fw, parsed, Some(who), Key(key.device, TMP_PREFIX + tmp));
      if written.Err? {
        return Err(written.error);
      }
      var staged := index.staged[key := Staged(fw, who)];
      var paths := RebuildBlobPaths(disk.incoming, index.live, staged);
      index, bumps := Index(index.live, staged, paths), bumps + 1;
      SweepIncoming();
      r := Ok(fw);
    }

    method CountStagedBy(who: string) returns (n: nat)
      ensures n == |StagedBy(index.staged, who)|
    {
      n := 0;
      var rest := index.staged.Keys;
      ghost var seen: set<Key> := {};
      while rest != {}
        invariant rest <= index.staged.Keys && n == |seen|
        invariant seen == set k | k in StagedBy(index.staged, who) && k !in rest
        decreases rest
      {
        var k :| k in rest;
        rest := rest - {k};
        if index.staged[k].submittedBy == who {
          n, seen := n + 1, seen + {k};
        }
      }
      assert seen == StagedBy(index.staged, who);
    }

    method Reject(device: string, version: string) returns (r: Result<(), StoreError>)
      modifies this
      ensures (Now(), r) == StoreSpec.Reject(old(Now()), device, version)
    {
      hide Rebuild;
      var key;
      match KeyFor(device, version) {
        case Err(e) => return Err(e);
        case Ok(k) => key := k;
      }
      if key !in index.staged {
        return Err(NotFound(key));
      }
      disk := disk.(staging := disk.staging - {key});
      var staged := index.staged - {key};
      var paths := RebuildBlobPaths(disk.incoming, index.live, staged);
      index, bumps := Index(index.live, staged, paths), bumps + 1;
      r := Ok(());
    }

    method Approve(device: string, version: string) returns (r: Result<Firmware, StoreError>)
      modifies this
      ensures Out(Now(), r) == StoreSpec.Approve(old(Now()), device, version)
    {
      hide Rebuild;
      var key;
      match KeyFor(device, version) {
        case Err(e) => return Err(e);
        case Ok(k) => key := k;
      }
      if key in index.live {
        var _ := Reject(device, version);
        return Err(AlreadyExists(key));
      }
      if key !in index.staged {
        return Err(NotFound(key));
      }
      var fw := index.staged[key].firmware;
      if RenameBlocked(disk, key) {
        return Err(Io);
      }
      disk := disk.(staging := disk.staging - {key}, live := disk.live[key := disk.staging[key]]);
      ghost var renamed := disk.live;
      disk := disk.(live := disk.live[key := disk.live[key] - {SUBMITTED_BY}]);
      assert disk.live == old(disk).live[key := renamed[key] - {SUBMITTED_BY}];
      var live, staged := index.live[key := fw], index.staged - {key};
      var paths := RebuildBlobPaths(disk.incoming, live, staged);
      index, bumps := Index(live, staged, paths), bumps + 1;
      r := Ok(fw);
    }

    /** Reclaim abandoned uploads; returns how many. */
    method GcIncomingBefore(cutoff: int) returns (deleted: nat)
      modifies this
      ensures (Now(), deleted) == Gc(old(Now()), cutoff)
    {
      hide Rebuild, Abandoned;
      deleted := DeleteAbandoned(cutoff);
      if deleted > 0 {
        var paths := RebuildBlobPaths(disk.incoming, index.live, index.staged);
        index := index.(blobPaths := paths);
      } else {
        assert old(disk).incoming - {} == old(disk).incoming;
      }
    }

    method DeleteAbandoned(cutoff: int) returns (deleted: nat)
      modifies this`disk
      ensures deleted == |Abandoned(old(Now()), cutoff)|
      ensures disk == old(disk).(incoming := old(disk).incoming - Abandoned(old(Now()), cutoff))
    {
      hide Referenced, Contains, Abandoned;
      var referenced := Referenced(index);
      var rest := disk.incoming.Keys;
      ghost var before := disk;
      ghost var abandoned := Abandoned(Now(), cutoff);
      AbandonedIff(Now(), cutoff);
      ghost var gone: set<string> := {};
      deleted := 0;
      while rest != {}
        invariant forall n :: n in rest ==> n in before.incoming
        invariant forall n :: n in gone <==> n in abandoned && n !in rest
        invariant deleted == |gone|
        invariant disk == before.(incoming := disk.incoming) && Lacks(before.incoming, disk.incoming, gone)
        decreases rest
      {
        var n :| n in rest;
        rest := rest - {n};
        if !Contains(n, TMP_PREFIX) && n !in referenced && disk.incoming[n].mtime < cutoff {
          disk := disk.(incoming := disk.incoming - {n});
          deleted, gone := deleted + 1, gone + {n};
        }
      }
      assert gone == abandoned;
      LacksAll(before.incoming, disk.incoming, gone);
    }

    method Reload() returns (changed: bool)
      modifies this
      ensures (Now(), changed) == StoreSpec.Reload(env, old(Now()))
    {
      hide Scan;
      var rescan := ScanTree(env, disk);
      changed := index.live.Keys != rescan.live.Keys || index.staged.Keys != rescan.staged.Keys;
      index := rescan;
      if changed {
        bumps := bumps + 1;
      }
    }
  }

  /** `now` is `before` without the names in `gone`. */
  ghost predicate Lacks(before: map<string, Upload>, now: map<string, Upload>, gone: set<string>) {
    && (forall n :: n in now <==> n in before && n !in gone)
    && (forall n :: n in now ==> now[n] == before[n])
  }

  lemma LacksAll(before: map<string, Upload>, now: map<string, Upload>, gone: set<string>)
    requires Lacks(before, now, gone)
    ensures now == before - gone
  {
  }

  lemma NotTemporary(key: Key, tmp: string)
    requires key.Valid()
    ensures Key(key.device, TMP_PREFIX + tmp) != key
  {
    NameSpacesDisjoint(key.version, "", "");
    assert StartsWith(TMP_PREFIX + tmp, TMP_PREFIX);
  }

  lemma CopyNothing(before: Disk, paths: map<string, Path>, blobs: seq<Blob>)
    ensures Copyable(before, paths, blobs[..0]) && Copied(before, paths, blobs[..0]) == map[]
  {
  }

  /** One more copy: possible exactly when its source and target are, and then on top of the others. */
  lemma CopyExtends(before: Disk, paths: map<string, Path>, blobs: seq<Blob>, i: nat)
    requires i < |blobs| && Copyable(before, paths, blobs[..i]) && blobs[i].Sha() in paths
    ensures var source := Read(before, paths[blobs[i].Sha()]);
      && (Copyable(before, paths, blobs[..i + 1]) <==> source.Some? && Creatable(blobs[i].File()))
      && (source.None? || !Creatable(blobs[i].File()) ==> !Copyable(before, paths, blobs))
      && (source.Some? && Creatable(blobs[i].File()) ==>
            Copied(before, paths, blobs[..i + 1]) == Copied(before, paths, blobs[..i])[blobs[i].File() := source.value])
  {
    hide Read, Creatable, Blob.Sha, Blob.File;
    var init := blobs[..i + 1];
    assert init[..i] == blobs[..i] && init[i] == blobs[i] && blobs[i] in blobs && init[i] in init;
    assert forall b :: b in init <==> b in blobs[..i] || b == blobs[i];
  }

  /** Rewriting the build directory, or dropping it, over the tree it was added to. */
  lemma BuildOver(before: Disk, area: Area, tmp: Key, files: Dir, next: Dir)
    requires tmp !in before.In(area)
    ensures var d := before.With(area, before.In(area)[tmp := files]);
      && tmp in d.In(area) && d.In(area)[tmp] == files
      && d.With(area, d.In(area) - {tmp}) == before
      && d.With(area, d.In(area)[tmp := next]) == before.With(area, before.In(area)[tmp := next])
  {
    var dirs := before.In(area);
    assert dirs[tmp := files] - {tmp} == dirs;
    assert dirs[tmp := files][tmp := next] == dirs[tmp := next];
  }

  lemma CommitOver(before: Disk, area: Area, tmp: Key, files: Dir, key: Key)
    requires tmp !in before.In(area) && tmp != key
    ensures var d := before.With(area, before.In(area)[tmp := files]);
      d.With(area, (d.In(area) - {tmp})[key := files]) == before.With(area, before.In(area)[key := files])
  {
    var dirs := before.In(area);
    assert (dirs[tmp := files] - {tmp})[key := files] == dirs[key := files];
  }

  /** An unused build directory is never where a pooled blob is read from. */
  lemma UnreadByTmp(d: Disk, area: Area, tmp: Key, dir: Dir, path: Path)
    requires tmp !in d.In(area)
    ensures Read(d.With(area, d.In(area)[tmp := dir]), path) ==
            if path.InDir? && path.area == area && path.key == tmp
            then (if path.file in dir then Some(dir[path.file]) else None)
            else Read(d, path)
  {
  }
}
