/** What removing a staged directory file by file costs: exactly when a stopped rejection or
    re-stage leaves every live version served, and exactly when it is all-or-nothing. */
module CrashServing {
  import opened Basics
  import opened Names
  import opened Manifests
  import opened Tree
  import opened StoreSpec
  import opened StoreCache
  import opened StoreInvariant
  import opened StoreRuns
  import opened Crash
  import opened CrashAtomicity

  /** An order in which the files of a directory can be removed: each once. */
  ghost predicate RemovalOrder(order: seq<string>, names: set<string>) {
    Elements(order) == names && forall i, j :: 0 <= i < j < |order| ==> order[i] != order[j]
  }

  lemma {:induction false} OrderExists(names: set<string>)
    ensures exists order :: RemovalOrder(order, names)
  {
    if names == {} {
      assert RemovalOrder([], names);
    } else {
      var n :| n in names;
      OrderFrom(names, n);
    }
  }

  /** Any file can be the first to go. */
  lemma {:induction false} OrderFrom(names: set<string>, first: string)
    requires first in names
    ensures exists order :: RemovalOrder(order, names) && order != [] && order[0] == first
    decreases |names|, 0
  {
    var rest := names - {first};
    if rest == {} {
      assert RemovalOrder([first], names) && [first][0] == first;
    } else {
      var next :| next in rest;
      OrderFrom(rest, next);
      var tail :| RemovalOrder(tail, rest) && tail != [] && tail[0] == next;
      var order := [first] + tail;
      assert forall i :: 0 < i < |order| ==> order[i] == tail[i - 1] && order[i] in Elements(tail);
      assert Elements(order) == names by {
        forall n ensures n in Elements(order) <==> n in names {
          if n in rest { var i :| 0 <= i < |tail| && tail[i] == n; assert order[i + 1] == n; }
          assert order[0] == first;
        }
      }
      assert RemovalOrder(order, names) && order[0] == first;
    }
  }

  // ----- serving -----

  ghost predicate Served(env: Env, t: State, sha: string) {
    exists bytes :: GetBlob(env, t, sha) == Ok(Some(bytes)) && env.digest(bytes) == sha
  }

  /** Every blob a live manifest names is served, intact. */
  ghost predicate LiveServed(env: Env, t: State, live: map<Key, Firmware>) {
    forall sha :: sha in CarriedBy(live) ==> Served(env, t, sha)
  }

  /** The shas of live manifests that are at the moment read from the staged directory `key`. */
  ghost function Borrowed(s: State, key: Key): set<string> {
    set sha | sha in s.index.blobPaths && Into(s.index.blobPaths[sha], key) && sha in CarriedBy(s.index.live)
  }

  lemma SoundServes(env: Env, t: State)
    requires Invariant(env, t)
    ensures LiveServed(env, t, t.index.live)
  {
    hide CarriedBy, Content;
    RebuildShape(t.disk.incoming.Keys, t.index.live, t.index.staged);
    forall sha | sha in CarriedBy(t.index.live) ensures Served(env, t, sha) {
      GetBlobSound(env, t, sha);
    }
  }

  /** After a tear, whatever was not read from the torn directory is served as before. */
  lemma TornServes(env: Env, s: State, disk: Disk, key: Key, sha: string)
    requires Invariant(env, s) && RecoversTorn(env, disk, s, Staging, key)
    requires sha in s.index.blobPaths && !Into(s.index.blobPaths[sha], key)
    ensures Served(env, Opened(env, disk), sha)
  {
    hide Invariant, Opened;
    InvariantCached(env, s);
    var t, path := Opened(env, disk), s.index.blobPaths[sha];
    IndexedContent(env, s, sha);
    SamePlace(env, s, t, key, sha);
    assert GetBlob(env, t, sha) == Ok(Some(Read(s.disk, path).value));
  }

  lemma IndexedContent(env: Env, s: State, sha: string)
    requires Invariant(env, s) && sha in s.index.blobPaths
    ensures Read(s.disk, s.index.blobPaths[sha]).Some?
    ensures env.digest(Read(s.disk, s.index.blobPaths[sha]).value) == sha
  {
    hide Content, Read;
    PathContent(env, s, sha);
  }

  lemma ReapedUpload(incoming: map<string, Upload>, n: string)
    requires n in incoming && n in ReapIncoming(incoming)
    ensures ReapIncoming(incoming)[n] == incoming[n]
  {
  }

  lemma SamePlace(env: Env, s: State, t: State, key: Key, sha: string)
    requires Cached(env, s) && OnlyEntryTorn(s.index, t.index, key) && LivePreserved(s, t) && OthersKept(s, t, key)
    requires sha in s.index.blobPaths && !Into(s.index.blobPaths[sha], key)
    ensures Read(t.disk, s.index.blobPaths[sha]) == Read(s.disk, s.index.blobPaths[sha])
  {
    hide Cached, OnlyEntryTorn, ValidBasename, ValidSha, Contains;
    CachedPaths(env, s);
    PathPoints(s, sha);
    if s.index.blobPaths[sha].Incoming? {
      ReapUploads(s.disk.incoming);
      ReapedUpload(s.disk.incoming, sha);
    }
  }

  /** What an indexed path points at: the upload itself, or a plainly named file of an indexed version. */
  lemma PathPoints(s: State, sha: string)
    requires PathsCurrent(s) && sha in s.index.blobPaths
    ensures match s.index.blobPaths[sha]
      case Incoming(n) => n == sha && ValidSha(n) && n in s.disk.incoming
      case InDir(area, k, file) =>
        ValidBasename(file) && (if area == Live then k in s.index.live else k in s.index.staged)
  {
    hide Rebuild, ValidSha, ValidBasename, CarriedBy;
    RebuildShape(s.disk.incoming.Keys, s.index.live, s.index.staged);
  }

  /** A borrowed file is in its directory. */
  lemma BorrowedStaged(env: Env, s: State, key: Key, sha: string)
    requires Invariant(env, s) && sha in s.index.blobPaths && Into(s.index.blobPaths[sha], key)
    ensures key in s.index.staged && key in s.disk.staging && s.index.blobPaths[sha].file in s.disk.staging[key].Keys
  {
    hide Invariant, Cached, ValidBasename, ManifestIn, SubmitterIn;
    InvariantCached(env, s);
    CachedPaths(env, s);
    PathPoints(s, sha);
    IndexedProper(env, s, key);
    IndexedContent(env, s, sha);
  }

  /** The tree once the first file of a staged directory is gone. */
  function Nibbled(d: Disk, key: Key, file: string): Disk
    requires key in d.staging
  {
    d.(staging := d.staging[key := d.staging[key] - {file}])
  }

  /** One lost file is enough: the manifest is still found, so the sha still leads to that file. */
  lemma NibbledLoses(env: Env, s: State, disk: Disk, key: Key, sha: string)
    requires Cached(env, s) && key in s.index.staged && key in s.disk.staging
    requires sha in s.index.blobPaths && Into(s.index.blobPaths[sha], key)
    requires Reap(disk) == Reap(Nibbled(s.disk, key, s.index.blobPaths[sha].file))
    ensures GetBlob(env, Opened(env, disk), sha) == Err(Io)
    ensures Opened(env, disk).index == s.index
  {
    hide Rebuild, Reap, EnvOk;
    var file := s.index.blobPaths[sha].file;
    var e := Nibbled(s.disk, key, file);
    NibbledScans(env, s, key, sha);
    assert Opened(env, disk) == Opened(env, e);
    ReapInvisible(env, e);
    IndexedProper(env, s, key);
    ReapedKeeps(e, key);
  }

  lemma ReapedKeeps(d: Disk, key: Key)
    requires key in d.staging && !StartsWith(key.version, TMP_PREFIX)
    ensures key in Reap(d).staging && Reap(d).staging[key] == d.staging[key]
  {
  }

  /** Indexed files have plain names, not the manifest's or the submitter's. */
  lemma PlainFile(env: Env, s: State, key: Key, sha: string)
    requires Cached(env, s) && sha in s.index.blobPaths && Into(s.index.blobPaths[sha], key)
    ensures s.index.blobPaths[sha].file != MANIFEST && s.index.blobPaths[sha].file != SUBMITTED_BY
  {
    hide Cached;
    CachedPaths(env, s);
    PathPoints(s, sha);
  }

  lemma NibbledScans(env: Env, s: State, key: Key, sha: string)
    requires Cached(env, s) && key in s.index.staged && key in s.disk.staging
    requires sha in s.index.blobPaths && Into(s.index.blobPaths[sha], key)
    ensures Scan(env, Nibbled(s.disk, key, s.index.blobPaths[sha].file)) == s.index
  {
    hide Rebuild, ManifestIn, SubmitterIn, EnvOk, ScanLive, ScanStaged;
    var file := s.index.blobPaths[sha].file;
    PlainFile(env, s, key, sha);
    IndexedProper(env, s, key);
    BlobIrrelevant(env, key, s.disk.staging[key], file);
    ScanPut(env, s.disk.staging, key, s.disk.staging[key] - {file});
    assert s.index.staged[key := s.index.staged[key]] == s.index.staged;
  }

  lemma BlobIrrelevant(env: Env, key: Key, dir: Dir, file: string)
    requires file != MANIFEST && file != SUBMITTED_BY
    ensures ManifestIn(env, key, dir - {file}) == ManifestIn(env, key, dir)
    ensures SubmitterIn(env, dir - {file}) == SubmitterIn(env, dir)
  {
  }

  // ----- rejecting -----

  /** The tree after the first `i` calls of a rejection. */
  ghost function RejectStop(s: State, key: Key, order: seq<string>, i: nat): Disk
    requires i <= |ClearSteps(Staging, key, order)|
  {
    ApplyAll(s.disk, ClearSteps(Staging, key, order)[..i])
  }

  lemma FirstUnlink(s: State, key: Key, order: seq<string>)
    requires key in s.disk.staging && order != []
    ensures |ClearSteps(Staging, key, order)| >= 1
    ensures RejectStop(s, key, order, 1) == Nibbled(s.disk, key, order[0])
  {
    var steps := ClearSteps(Staging, key, order);
    assert steps[..1] == [steps[0]];
    ApplyOne(s.disk, steps[0]);
  }

  ghost predicate RejectServes(env: Env, s: State, key: Key)
    requires key in s.disk.staging
  {
    forall order, i {:trigger RejectStop(s, key, order, i)} ::
      RemovalOrder(order, s.disk.staging[key].Keys) && 0 <= i <= |order| + 1 ==>
      LiveServed(env, Opened(env, RejectStop(s, key, order, i)), s.index.live)
  }

  /** A rejection may be stopped anywhere, removing files in any order, with every live version still
      served, exactly when no live manifest's blob is read from the rejected directory. */
  lemma RejectServesIff(env: Env, s: State, device: string, version: string)
    requires Invariant(env, s) && Reject(s, device, version).1.Ok?
    ensures var key := Key(device, version);
      key in s.disk.staging && (RejectServes(env, s, key) <==> Borrowed(s, key) == {})
  {
    hide Invariant, Opened, Served, RecoversTorn, RejectStop;
    var key := Key(device, version);
    InvariantCached(env, s);
    RejectShape(s, device, version);
    IndexedProper(env, s, key);
    if Borrowed(s, key) == {} {
      forall order, i | RemovalOrder(order, s.disk.staging[key].Keys) && 0 <= i <= |order| + 1
        ensures LiveServed(env, Opened(env, RejectStop(s, key, order, i)), s.index.live)
      {
        RejectStopTorn(env, s, device, version, order, i);
        TornServesAll(env, s, RejectStop(s, key, order, i), key);
      }
    } else {
      var sha :| sha in Borrowed(s, key);
      RejectStopLoses(env, s, key, sha);
    }
  }

  lemma RejectStopTorn(env: Env, s: State, device: string, version: string, order: seq<string>, i: nat)
    requires Cached(env, s) && Reject(s, device, version).1.Ok? && i <= |order| + 1
    ensures RecoversTorn(env, RejectStop(s, Key(device, version), order, i), s, Staging, Key(device, version))
  {
    hide Cached, RecoversTorn, Opened, Reject, Recovers, Invariant;
    RejectCrash(env, s, device, version, order, i);
  }

  lemma TornServesAll(env: Env, s: State, disk: Disk, key: Key)
    requires Invariant(env, s) && RecoversTorn(env, disk, s, Staging, key) && Borrowed(s, key) == {}
    ensures LiveServed(env, Opened(env, disk), s.index.live)
  {
    hide Invariant, Opened, Served, RecoversTorn, CarriedBy;
    InvariantCached(env, s);
    forall sha | sha in CarriedBy(s.index.live) ensures Served(env, Opened(env, disk), sha) {
      RebuildShape(s.disk.incoming.Keys, s.index.live, s.index.staged);
      assert sha !in Borrowed(s, key);
      TornServes(env, s, disk, key, sha);
    }
  }

  /** Removing the borrowed file first leaves its live sha unserved. */
  lemma RejectStopLoses(env: Env, s: State, key: Key, sha: string)
    requires Invariant(env, s) && key in s.index.staged && key in s.disk.staging && sha in Borrowed(s, key)
    ensures !RejectServes(env, s, key)
  {
    hide Invariant, Cached, Opened, RejectStop, ClearSteps, CarriedBy, RemovalOrder, Nibbled, Reap, Read;
    InvariantCached(env, s);
    var file := s.index.blobPaths[sha].file;
    BorrowedStaged(env, s, key, sha);
    OrderFrom(s.disk.staging[key].Keys, file);
    var order :| RemovalOrder(order, s.disk.staging[key].Keys) && order != [] && order[0] == file;
    FirstUnlink(s, key, order);
    NibbledLoses(env, s, RejectStop(s, key, order, 1), key, sha);
    assert !LiveServed(env, Opened(env, RejectStop(s, key, order, 1)), s.index.live);
  }

  ghost predicate RejectIndexed(env: Env, s: State, after: State, key: Key)
    requires key in s.disk.staging
  {
    forall order, i {:trigger RejectStop(s, key, order, i)} ::
      RemovalOrder(order, s.disk.staging[key].Keys) && 0 <= i <= |order| + 1 ==>
      var ix := Opened(env, RejectStop(s, key, order, i)).index;
      ix == s.index || ix == after.index
  }

  /** The index a stopped rejection recovers is always the one before or the one after exactly when
      the submission carries no submitter: else a directory that has lost its submitter file first
      yields the entry with nobody's name on it. */
  lemma RejectIndexIff(env: Env, s: State, device: string, version: string)
    requires Cached(env, s) && Reject(s, device, version).1.Ok?
    ensures var key, after := Key(device, version), Reject(s, device, version).0;
      && key in s.disk.staging
      && (RejectIndexed(env, s, after, key) <==> s.index.staged[key].submittedBy == "")
  {
    hide Opened, RecoversTorn, RejectStop, Rebuild, EnvOk, Reject;
    var key, after := Key(device, version), Reject(s, device, version).0;
    RejectShape(s, device, version);
    IndexedProper(env, s, key);
    if s.index.staged[key].submittedBy == "" {
      forall order, i | RemovalOrder(order, s.disk.staging[key].Keys) && 0 <= i <= |order| + 1
        ensures var ix := Opened(env, RejectStop(s, key, order, i)).index; ix == s.index || ix == after.index
      {
        RejectStopTorn(env, s, device, version, order, i);
        TornIndex(env, s, RejectStop(s, key, order, i), device, version);
      }
    } else {
      NamelessStop(env, s, key);
      var order :| NamelessAfter(env, s, key, order);
    }
  }

  /** Reopened, the entry is there, without its submitter. */
  ghost predicate NamelessAt(env: Env, s: State, key: Key, disk: Disk)
    requires key in s.index.staged
  {
    var staged := Opened(env, disk).index.staged;
    key in staged && staged[key] == Staged(s.index.staged[key].firmware, "")
  }

  /** An order in which the submitter file goes first, with that effect. */
  ghost predicate NamelessAfter(env: Env, s: State, key: Key, order: seq<string>)
    requires key in s.index.staged && key in s.disk.staging
  {
    && RemovalOrder(order, s.disk.staging[key].Keys) && order != [] && order[0] == SUBMITTED_BY
    && NamelessAt(env, s, key, RejectStop(s, key, order, 1))
  }

  lemma SubmitterFile(env: Env, dir: Dir)
    ensures SUBMITTED_BY !in dir ==> SubmitterIn(env, dir) == ""
  {
  }

  lemma NamelessStop(env: Env, s: State, key: Key)
    requires Cached(env, s) && key in s.index.staged && key in s.disk.staging
    requires s.index.staged[key].submittedBy != ""
    ensures exists order :: NamelessAfter(env, s, key, order)
  {
    hide Rebuild, EnvOk, RejectStop, ClearSteps, Reap, ManifestIn, SubmitterIn, RemovalOrder, ScanLive, ScanStaged;
    IndexedProper(env, s, key);
    var dir := s.disk.staging[key];
    SubmitterFile(env, dir);
    OrderFrom(dir.Keys, SUBMITTED_BY);
    var order :| RemovalOrder(order, dir.Keys) && order != [] && order[0] == SUBMITTED_BY;
    FirstUnlink(s, key, order);
    var e := RejectStop(s, key, order, 1);
    SubmitterIrrelevant(env, key, dir);
    SubmitterFile(env, dir - {SUBMITTED_BY});
    ScanPut(env, s.disk.staging, key, dir - {SUBMITTED_BY});
    ReapInvisible(env, e);
    assert NamelessAfter(env, s, key, order);
  }

  lemma TornIndex(env: Env, s: State, disk: Disk, device: string, version: string)
    requires Cached(env, s) && Reject(s, device, version).1.Ok? && Key(device, version) in s.index.staged
    requires RecoversTorn(env, disk, s, Staging, Key(device, version))
    requires s.index.staged[Key(device, version)].submittedBy == ""
    ensures Opened(env, disk).index == s.index || Opened(env, disk).index == Reject(s, device, version).0.index
  {
    hide EnvOk, Rebuild, Opened;
    var key, t := Key(device, version), Opened(env, disk);
    TornIndexParts(env, s, t, key);
    OpenedPaths(env, disk);
    if key !in t.index.staged {
      TornUploads(s, t);
    }
  }

  lemma TornIndexParts(env: Env, s: State, t: State, key: Key)
    requires OnlyEntryTorn(s.index, t.index, key) && s.index.staged[key].submittedBy == ""
    ensures if key in t.index.staged then t.index == s.index
            else t.index.live == s.index.live && t.index.staged == s.index.staged - {key}
  {
    if key in t.index.staged {
      forall k | k in s.index.staged ensures k in t.index.staged && t.index.staged[k] == s.index.staged[k] {
        if k != key { assert k in s.index.staged - {key} && (t.index.staged - {key})[k] == s.index.staged[k]; }
      }
      forall k | k in t.index.staged ensures k in s.index.staged {
        if k != key { assert k in t.index.staged - {key}; }
      }
      assert t.index.staged == s.index.staged;
    } else {
      assert t.index.staged - {key} == t.index.staged;
    }
  }

  lemma OpenedPaths(env: Env, disk: Disk)
    ensures PathsCurrent(Opened(env, disk))
  {
  }

  /** Temporary uploads have no digest names, so reaping them does not change a rebuild. */
  lemma TornUploads(s: State, t: State)
    requires ReapIncoming(s.disk.incoming) == t.disk.incoming && PathsCurrent(t)
    ensures t.index.blobPaths == Rebuild(s.disk.incoming.Keys, t.index.live, t.index.staged)
  {
    hide Rebuild;
    ReapUploads(s.disk.incoming);
    RebuildIgnoresOwned(s.disk.incoming.Keys, t.disk.incoming.Keys, t.index.live, t.index.staged);
  }

  // ----- re-staging -----

  /** What the operation promises of its sweep: exactly the uploads now owned. */
  ghost function SweepSet(env: Env, s: State, fw: Firmware, who: string): set<string> {
    s.disk.incoming.Keys * Owned(s.index.live, Stage(env, s, fw, who).state.index.staged)
  }

  ghost function StagePlan(env: Env, s: State, fw: Firmware, who: string, draw: Draw,
                           clear: seq<string>, sweep: seq<string>): seq<FsStep>
    requires KeyOf(fw).Ok?
  {
    WritePlan(env, s, Staging, KeyOf(fw).value, fw, Some(who), draw, clear, sweep)
  }

  /** The tree after the first `i` calls of a stage. */
  ghost function StageStop(env: Env, s: State, fw: Firmware, who: string, draw: Draw,
                           clear: seq<string>, sweep: seq<string>, i: nat): Disk
    requires KeyOf(fw).Ok? && i <= |StagePlan(env, s, fw, who, draw, clear, sweep)|
  {
    ApplyAll(s.disk, StagePlan(env, s, fw, who, draw, clear, sweep)[..i])
  }

  ghost predicate StageServes(env: Env, s: State, fw: Firmware, who: string, draw: Draw)
    requires KeyOf(fw).Ok?
  {
    forall clear, sweep, i {:trigger StageStop(env, s, fw, who, draw, clear, sweep, i)} ::
      RemovalOrder(clear, DirAt(s.disk, Staging, KeyOf(fw).value).Keys)
      && RemovalOrder(sweep, SweepSet(env, s, fw, who))
      && 0 <= i <= |StagePlan(env, s, fw, who, draw, clear, sweep)| ==>
      LiveServed(env, Opened(env, StageStop(env, s, fw, who, draw, clear, sweep, i)), s.index.live)
  }

  lemma StageStopRecovers(env: Env, s: State, fw: Firmware, who: string, draw: Draw,
                          clear: seq<string>, sweep: seq<string>, i: nat)
    requires Cached(env, s) && Stage(env, s, fw, who).result.Ok? && Trimmed(who)
    requires KeyOf(fw).Ok? && FreshDraw(s, Staging, KeyOf(fw).value, fw, draw)
    requires RemovalOrder(sweep, SweepSet(env, s, fw, who)) && i <= |StagePlan(env, s, fw, who, draw, clear, sweep)|
    ensures var disk := StageStop(env, s, fw, who, draw, clear, sweep, i);
      || RecoversEither(env, disk, s, Stage(env, s, fw, who).state, SameFileSameSha(fw))
      || (KeyOf(fw).value in s.index.staged && RecoversTorn(env, disk, s, Staging, KeyOf(fw).value))
  {
    hide Cached, RecoversTorn, RecoversEither, Stage, WritePlan, FreshDraw, SameFileSameSha, Owned, KeyOf;
    StageCrash(env, s, fw, who, draw, clear, sweep, i);
  }

  /** A stage, fresh or over an earlier submission, may be stopped anywhere with every live version
      still served, exactly when no live manifest's blob is read from the directory it replaces. */
  lemma StageServesIff(env: Env, s: State, fw: Firmware, who: string, draw: Draw)
    requires Invariant(env, s) && Stage(env, s, fw, who).result.Ok? && SameFileSameSha(fw) && Trimmed(who)
    requires KeyOf(fw).Ok? && FreshDraw(s, Staging, KeyOf(fw).value, fw, draw)
    ensures StageServes(env, s, fw, who, draw) <==> Borrowed(s, KeyOf(fw).value) == {}
  {
    hide Invariant, Opened, Stage, Served, RecoversTorn, RecoversEither, StageStop, StagePlan, LiveServed, FreshDraw,
      KeyOf, SameFileSameSha, SweepSet;
    var key := KeyOf(fw).value;
    InvariantCached(env, s);
    if Borrowed(s, key) == {} {
      forall clear, sweep, i | RemovalOrder(clear, DirAt(s.disk, Staging, key).Keys)
        && RemovalOrder(sweep, SweepSet(env, s, fw, who)) && 0 <= i <= |StagePlan(env, s, fw, who, draw, clear, sweep)|
        ensures LiveServed(env, Opened(env, StageStop(env, s, fw, who, draw, clear, sweep, i)), s.index.live)
      {
        var disk := StageStop(env, s, fw, who, draw, clear, sweep, i);
        StageStopRecovers(env, s, fw, who, draw, clear, sweep, i);
        if RecoversEither(env, disk, s, Stage(env, s, fw, who).state, SameFileSameSha(fw)) {
          EitherServes(env, s, fw, who, disk);
        } else {
          TornServesAll(env, s, disk, key);
        }
      }
    } else {
      var sha :| sha in Borrowed(s, key);
      StageStopLoses(env, s, fw, who, draw, sha);
    }
  }

  lemma EitherServes(env: Env, s: State, fw: Firmware, who: string, disk: Disk)
    requires Invariant(env, s) && Stage(env, s, fw, who).result.Ok? && SameFileSameSha(fw)
    requires RecoversEither(env, disk, s, Stage(env, s, fw, who).state, SameFileSameSha(fw))
    ensures LiveServed(env, Opened(env, disk), s.index.live)
  {
    hide Invariant, LiveServed, SameFileSameSha, Opened;
    SoundServes(env, Opened(env, disk));
    StageLeavesLive(env, s, fw, who);
  }

  lemma StageLeavesLive(env: Env, s: State, fw: Firmware, who: string)
    ensures Stage(env, s, fw, who).state.index.live == s.index.live
    ensures Stage(env, s, fw, who).result.Ok? && KeyOf(fw).Ok? ==>
      KeyOf(fw).value in Stage(env, s, fw, who).state.index.staged
  {
    hide FirstFault, VersionDir, Rebuild, OverQuota, Copyable;
  }

  /** The calls up to and including the first removal. */
  lemma StageFirstUnlink(env: Env, s: State, fw: Firmware, who: string, draw: Draw, clear: seq<string>,
                         sweep: seq<string>)
    requires KeyOf(fw).Ok? && FreshDraw(s, Staging, KeyOf(fw).value, fw, draw)
    requires Copyable(s.disk, s.index.blobPaths, fw.blobs) && KeyOf(fw).value in s.disk.staging && clear != []
    ensures var key, i := KeyOf(fw).value, |BuildSteps(env, s, Staging, KeyOf(fw).value, fw, Some(who), draw)| + 1;
      && i <= |StagePlan(env, s, fw, who, draw, clear, sweep)|
      && Reap(StageStop(env, s, fw, who, draw, clear, sweep, i)) == Reap(Nibbled(s.disk, key, clear[0]))
  {
    hide BuildSteps, VersionDir, FreshDraw, Copyable, KeyOf, Apply, Reap, Nibbled;
    var key, tmp, dir := KeyOf(fw).value, TmpKey(KeyOf(fw).value, draw), VersionDir(env, s, fw, Some(who));
    var build := BuildSteps(env, s, Staging, key, fw, Some(who), draw);
    var rest := ClearSteps(Staging, key, clear) + ([MoveDir(Staging, tmp, Staging, key)] + SweepSteps(sweep));
    var plan := StagePlan(env, s, fw, who, draw, clear, sweep);
    assert plan == build + rest;
    BuildBuilds(env, s, Staging, key, fw, Some(who), draw);
    PrefixSplit(s.disk, build, rest, |build| + 1);
    var built := PutDir(s.disk, Staging, tmp, dir);
    assert rest[..1] == [rest[0]] && rest[0] == RemoveFile(Staging, key, clear[0]);
    ApplyOne(built, rest[0]);
    TmpUnlike(s, key, fw, draw);
    UnlinkReaps(s.disk, tmp, dir, key, clear[0]);
  }

  lemma TmpUnlike(s: State, key: Key, fw: Firmware, draw: Draw)
    requires FreshDraw(s, Staging, key, fw, draw) && key in s.disk.staging
    ensures TmpKey(key, draw) != key && StartsWith(TmpKey(key, draw).version, TMP_PREFIX)
  {
  }

  /** Beside a build directory, removing one file of `key` reaps to the tree without that file. */
  lemma UnlinkReaps(d: Disk, tmp: Key, dir: Dir, key: Key, file: string)
    requires key in d.staging && tmp != key && StartsWith(tmp.version, TMP_PREFIX)
    ensures Reap(Apply(PutDir(d, Staging, tmp, dir), RemoveFile(Staging, key, file))) == Reap(Nibbled(d, key, file))
  {
    hide StartsWith;
    var next := d.staging[key] - {file};
    assert d.staging[tmp := dir][key := next] == d.staging[key := next][tmp := dir];
    ReapPut(d.staging[key := next], tmp, dir);
  }

  /** Stopped after the first removal, if that is the borrowed file. */
  lemma StageFirstLoses(env: Env, s: State, fw: Firmware, who: string, draw: Draw,
                        clear: seq<string>, sweep: seq<string>, sha: string)
    requires Cached(env, s) && Stage(env, s, fw, who).result.Ok? && Trimmed(who)
    requires KeyOf(fw).Ok? && FreshDraw(s, Staging, KeyOf(fw).value, fw, draw)
    requires KeyOf(fw).value in s.index.staged && KeyOf(fw).value in s.disk.staging
    requires sha in s.index.blobPaths && Into(s.index.blobPaths[sha], KeyOf(fw).value)
    requires clear != [] && clear[0] == s.index.blobPaths[sha].file
    ensures var i := |BuildSteps(env, s, Staging, KeyOf(fw).value, fw, Some(who), draw)| + 1;
      && i <= |StagePlan(env, s, fw, who, draw, clear, sweep)|
      && GetBlob(env, Opened(env, StageStop(env, s, fw, who, draw, clear, sweep, i)), sha) == Err(Io)
  {
    hide Cached, Invariant, Opened, Stage, StageStop, StagePlan, FreshDraw, KeyOf, Reap, BuildSteps, Nibbled,
      Copyable, GetBlob;
    StagePlaced(env, s, fw, who);
    StageFirstUnlink(env, s, fw, who, draw, clear, sweep);
    var i := |BuildSteps(env, s, Staging, KeyOf(fw).value, fw, Some(who), draw)| + 1;
    NibbledLoses(env, s, StageStop(env, s, fw, who, draw, clear, sweep, i), KeyOf(fw).value, sha);
  }

  lemma StageStopLoses(env: Env, s: State, fw: Firmware, who: string, draw: Draw, sha: string)
    requires Invariant(env, s) && Stage(env, s, fw, who).result.Ok? && Trimmed(who)
    requires KeyOf(fw).Ok? && FreshDraw(s, Staging, KeyOf(fw).value, fw, draw)
    requires sha in Borrowed(s, KeyOf(fw).value)
    ensures !StageServes(env, s, fw, who, draw)
  {
    hide Invariant, Cached, Opened, Stage, StageStop, StagePlan, FreshDraw, KeyOf, SweepSet, CarriedBy, RemovalOrder,
      BuildSteps, GetBlob;
    var key := KeyOf(fw).value;
    InvariantCached(env, s);
    BorrowedStaged(env, s, key, sha);
    OrderFrom(s.disk.staging[key].Keys, s.index.blobPaths[sha].file);
    var clear :| RemovalOrder(clear, s.disk.staging[key].Keys) && clear != []
      && clear[0] == s.index.blobPaths[sha].file;
    OrderExists(SweepSet(env, s, fw, who));
    var sweep :| RemovalOrder(sweep, SweepSet(env, s, fw, who));
    StageFirstLoses(env, s, fw, who, draw, clear, sweep, sha);
    var i := |BuildSteps(env, s, Staging, key, fw, Some(who), draw)| + 1;
    assert !LiveServed(env, Opened(env, StageStop(env, s, fw, who, draw, clear, sweep, i)), s.index.live);
  }

  ghost predicate StageIndexed(env: Env, s: State, fw: Firmware, who: string, draw: Draw)
    requires KeyOf(fw).Ok?
  {
    forall clear, sweep, i {:trigger StageStop(env, s, fw, who, draw, clear, sweep, i)} ::
      RemovalOrder(clear, DirAt(s.disk, Staging, KeyOf(fw).value).Keys)
      && RemovalOrder(sweep, SweepSet(env, s, fw, who))
      && 0 <= i <= |StagePlan(env, s, fw, who, draw, clear, sweep)| ==>
      var ix := Opened(env, StageStop(env, s, fw, who, draw, clear, sweep, i)).index;
      ix == s.index || ix == Stage(env, s, fw, who).state.index
  }

  /** Stopped right after the old directory is gone, a re-stage has lost the submission: neither
      the old one nor the new one is found. */
  lemma RestageLoses(env: Env, s: State, fw: Firmware, who: string, draw: Draw, clear: seq<string>, sweep: seq<string>)
    requires Cached(env, s) && Stage(env, s, fw, who).result.Ok? && Trimmed(who)
    requires KeyOf(fw).Ok? && FreshDraw(s, Staging, KeyOf(fw).value, fw, draw) && KeyOf(fw).value in s.index.staged
    ensures var key, build := KeyOf(fw).value, BuildSteps(env, s, Staging, KeyOf(fw).value, fw, Some(who), draw);
      var i := |build| + |ClearSteps(Staging, key, clear)|;
      && i <= |StagePlan(env, s, fw, who, draw, clear, sweep)|
      && key !in Opened(env, StageStop(env, s, fw, who, draw, clear, sweep, i)).index.staged
      && key in s.index.staged && key in Stage(env, s, fw, who).state.index.staged
  {
    hide BuildSteps, VersionDir, FreshDraw, Copyable, KeyOf, Apply, Reap, Stage, Rebuild, Cached, ClearSteps, Opened,
      ManifestIn, SubmitterIn, ApplyAll, DropDir;
    StagePlaced(env, s, fw, who);
    StageLeavesLive(env, s, fw, who);
    var key, tmp, dir := KeyOf(fw).value, TmpKey(KeyOf(fw).value, draw), VersionDir(env, s, fw, Some(who));
    IndexedProper(env, s, key);
    var build, erase := BuildSteps(env, s, Staging, key, fw, Some(who), draw), ClearSteps(Staging, key, clear);
    var rest := [MoveDir(Staging, tmp, Staging, key)] + SweepSteps(sweep);
    var plan, i := StagePlan(env, s, fw, who, draw, clear, sweep), |build| + |erase|;
    assert plan == build + (erase + rest);
    BuildBuilds(env, s, Staging, key, fw, Some(who), draw);
    PrefixSplit(s.disk, build, erase + rest, i);
    var built := PutDir(s.disk, Staging, tmp, dir);
    assert (erase + rest)[..|erase|] == erase;
    BuiltStill(s.disk, Staging, key, tmp, dir);
    ClearClears(built, Staging, key, clear);
    GoneUnfound(env, built, key);
  }

  lemma GoneUnfound(env: Env, d: Disk, key: Key)
    ensures key !in Opened(env, DropDir(d, Staging, key)).index.staged
  {
    hide Rebuild;
    ReapInvisible(env, DropDir(d, Staging, key));
  }

  /** The index a stopped stage recovers is always the one before or the one after exactly when the
      key is not already staged. */
  lemma StageIndexIff(env: Env, s: State, fw: Firmware, who: string, draw: Draw)
    requires Cached(env, s) && Stage(env, s, fw, who).result.Ok? && Trimmed(who)
    requires KeyOf(fw).Ok? && FreshDraw(s, Staging, KeyOf(fw).value, fw, draw)
    ensures StageIndexed(env, s, fw, who, draw) <==> KeyOf(fw).value !in s.index.staged
  {
    hide Cached, Invariant, Opened, Stage, RecoversTorn, StageStop, StagePlan, FreshDraw, KeyOf, SameFileSameSha,
      SweepSet;
    var key := KeyOf(fw).value;
    if key !in s.index.staged {
      forall clear, sweep, i | RemovalOrder(clear, DirAt(s.disk, Staging, key).Keys)
        && RemovalOrder(sweep, SweepSet(env, s, fw, who)) && 0 <= i <= |StagePlan(env, s, fw, who, draw, clear, sweep)|
        ensures var ix := Opened(env, StageStop(env, s, fw, who, draw, clear, sweep, i)).index;
          ix == s.index || ix == Stage(env, s, fw, who).state.index
      {
        StageStopRecovers(env, s, fw, who, draw, clear, sweep, i);
      }
    } else {
      OrderExists(DirAt(s.disk, Staging, key).Keys);
      var clear :| RemovalOrder(clear, DirAt(s.disk, Staging, key).Keys);
      OrderExists(SweepSet(env, s, fw, who));
      var sweep :| RemovalOrder(sweep, SweepSet(env, s, fw, who));
      RestageLoses(env, s, fw, who, draw, clear, sweep);
    }
  }
}
