/** Crashes: each operation as its filesystem calls in program order, stopped after
    any number of them, followed by a fresh open (reap, then scan). */
module Crash {
  import opened Basics
  import opened Names
  import opened Manifests
  import opened Tree
  import opened StoreSpec
  import opened StoreCache
  import opened StoreInvariant
  import opened StoreRuns

  /** One filesystem call; a file being written may be seen with torn content first. */
  datatype FsStep =
    | MakeDir(area: Area, key: Key)
    | WriteFile(area: Area, key: Key, file: string, bytes: Bytes)
    | MoveFile(area: Area, key: Key, file: string, target: string)
    | RemoveFile(area: Area, key: Key, file: string)
    | RemoveDir(area: Area, key: Key)
    | MoveDir(area: Area, key: Key, toArea: Area, toKey: Key)
    | WriteUpload(name: string, upload: Upload)
    | MoveUpload(name: string, toName: string)
    | RemoveUpload(name: string)

  function DirAt(d: Disk, area: Area, key: Key): Dir {
    if key in d.In(area) then d.In(area)[key] else map[]
  }

  function PutDir(d: Disk, area: Area, key: Key, dir: Dir): Disk {
    d.With(area, d.In(area)[key := dir])
  }

  function DropDir(d: Disk, area: Area, key: Key): Disk {
    d.With(area, d.In(area) - {key})
  }

  function Apply(d: Disk, step: FsStep): Disk {
    match step
    case MakeDir(area, key) => PutDir(d, area, key, DirAt(d, area, key))
    case WriteFile(area, key, file, bytes) => PutDir(d, area, key, DirAt(d, area, key)[file := bytes])
    case MoveFile(area, key, file, target) =>
      var dir := DirAt(d, area, key);
      if file in dir then PutDir(d, area, key, (dir - {file})[target := dir[file]]) else d
    case RemoveFile(area, key, file) =>
      if key in d.In(area) then PutDir(d, area, key, d.In(area)[key] - {file}) else d
    case RemoveDir(area, key) => DropDir(d, area, key)
    case MoveDir(area, key, toArea, toKey) =>
      if key in d.In(area) then PutDir(DropDir(d, area, key), toArea, toKey, d.In(area)[key]) else d
    case WriteUpload(name, upload) => d.(incoming := d.incoming[name := upload])
    case MoveUpload(name, toName) =>
      if name in d.incoming then d.(incoming := (d.incoming - {name})[toName := d.incoming[name]]) else d
    case RemoveUpload(name) => d.(incoming := d.incoming - {name})
  }

  function ApplyAll(d: Disk, steps: seq<FsStep>): Disk {
    if steps == [] then d else Apply(ApplyAll(d, steps[..|steps| - 1]), steps[|steps| - 1])
  }

  lemma {:induction false} ApplyConcat(d: Disk, a: seq<FsStep>, b: seq<FsStep>)
    ensures ApplyAll(d, a + b) == ApplyAll(ApplyAll(d, a), b)
  {
    if b == [] {
      assert a + b == a;
    } else {
      assert (a + b)[..|a + b| - 1] == a + b[..|b| - 1];
      ApplyConcat(d, a, b[..|b| - 1]);
    }
  }

  /** A prefix of two plans run in sequence is a prefix of the first, or the first and a prefix of the second. */
  lemma PrefixSplit(d: Disk, a: seq<FsStep>, b: seq<FsStep>, i: nat)
    requires i <= |a + b|
    ensures i <= |a| ==> ApplyAll(d, (a + b)[..i]) == ApplyAll(d, a[..i])
    ensures i >= |a| ==> ApplyAll(d, (a + b)[..i]) == ApplyAll(ApplyAll(d, a), b[..i - |a|])
  {
    if i <= |a| {
      assert (a + b)[..i] == a[..i];
    }
    if i >= |a| {
      assert (a + b)[..i] == a + b[..i - |a|];
      ApplyConcat(d, a, b[..i - |a|]);
    }
  }

  // ----- steps on temporary names -----

  /** The step touches nothing but names the open-time reaping removes. */
  predicate Temporary(step: FsStep) {
    match step
    case MakeDir(_, key) => StartsWith(key.version, TMP_PREFIX)
    case WriteFile(_, key, _, _) => StartsWith(key.version, TMP_PREFIX)
    case MoveFile(_, key, _, _) => StartsWith(key.version, TMP_PREFIX)
    case RemoveFile(_, key, _) => StartsWith(key.version, TMP_PREFIX)
    case RemoveDir(_, key) => StartsWith(key.version, TMP_PREFIX)
    case WriteUpload(name, _) => Contains(name, TMP_PREFIX)
    case RemoveUpload(name) => Contains(name, TMP_PREFIX)
    case _ => false
  }

  lemma ReapPut(dirs: map<Key, Dir>, key: Key, dir: Dir)
    ensures StartsWith(key.version, TMP_PREFIX) ==> ReapDirs(dirs[key := dir]) == ReapDirs(dirs)
    ensures !StartsWith(key.version, TMP_PREFIX) ==> ReapDirs(dirs[key := dir]) == ReapDirs(dirs)[key := dir]
    ensures StartsWith(key.version, TMP_PREFIX) ==> ReapDirs(dirs - {key}) == ReapDirs(dirs)
    ensures !StartsWith(key.version, TMP_PREFIX) ==> ReapDirs(dirs - {key}) == ReapDirs(dirs) - {key}
  {
  }

  lemma TemporaryInvisible(d: Disk, step: FsStep)
    requires Temporary(step)
    ensures Reap(Apply(d, step)) == Reap(d)
  {
    match step
    case MakeDir(area, key) => ReapPut(d.In(area), key, DirAt(d, area, key));
    case WriteFile(area, key, file, bytes) => ReapPut(d.In(area), key, DirAt(d, area, key)[file := bytes]);
    case MoveFile(area, key, file, target) =>
      var dir := DirAt(d, area, key);
      if file in dir { ReapPut(d.In(area), key, (dir - {file})[target := dir[file]]); }
    case RemoveFile(area, key, file) =>
      if key in d.In(area) { ReapPut(d.In(area), key, d.In(area)[key] - {file}); }
    case RemoveDir(area, key) => ReapPut(d.In(area), key, map[]);
    case RemoveUpload(name) => assert ReapIncoming(d.incoming - {name}) == ReapIncoming(d.incoming);
    case WriteUpload(name, upload) => assert ReapIncoming(d.incoming[name := upload]) == ReapIncoming(d.incoming);
  }

  lemma {:induction false} TemporaryPrefix(d: Disk, steps: seq<FsStep>, i: nat)
    requires i <= |steps| && forall st :: st in steps ==> Temporary(st)
    ensures Reap(ApplyAll(d, steps[..i])) == Reap(d)
  {
    if i > 0 {
      TemporaryPrefix(d, steps, i - 1);
      assert steps[..i][..i - 1] == steps[..i - 1] && steps[..i][i - 1] == steps[i - 1];
      TemporaryInvisible(ApplyAll(d, steps[..i - 1]), steps[i - 1]);
    }
  }

  // ----- plans -----

  /** The random suffixes one write draws, and what a half-written file may contain. */
  datatype Draw = Draw(tmp: string, manifestScratch: string, submitterScratch: string, torn: Bytes -> Bytes)

  function TmpKey(key: Key, draw: Draw): Key { Key(key.device, TMP_PREFIX + draw.tmp) }

  function CopySteps(disk: Disk, paths: map<string, Path>, area: Area, tmp: Key, blobs: seq<Blob>,
                     draw: Draw): seq<FsStep> {
    if blobs == [] then []
    else
      var last := blobs[|blobs| - 1];
      var bytes := if last.Sha() in paths then Read(disk, paths[last.Sha()]).GetOr([]) else [];
      CopySteps(disk, paths, area, tmp, blobs[..|blobs| - 1], draw)
      + [WriteFile(area, tmp, last.File(), draw.torn(bytes)), WriteFile(area, tmp, last.File(), bytes)]
  }

  /** `write_atomic` inside a build directory. */
  function AtomicSteps(area: Area, tmp: Key, file: string, scratch: string, bytes: Bytes, draw: Draw): seq<FsStep> {
    [WriteFile(area, tmp, scratch, draw.torn(bytes)), WriteFile(area, tmp, scratch, bytes),
     MoveFile(area, tmp, scratch, file)]
  }

  function BuildSteps(env: Env, s: State, area: Area, key: Key, fw: Firmware, who: Option<string>,
                      draw: Draw): seq<FsStep> {
    var tmp := TmpKey(key, draw);
    [MakeDir(area, tmp)]
    + CopySteps(s.disk, s.index.blobPaths, area, tmp, fw.blobs, draw)
    + AtomicSteps(area, tmp, MANIFEST, draw.manifestScratch, env.encode(fw), draw)
    + if who.None? then []
      else AtomicSteps(area, tmp, SUBMITTED_BY, draw.submitterScratch, env.fromText(who.value), draw)
  }

  /** `remove_dir_all`: the files in some order, then the directory. */
  function ClearSteps(area: Area, key: Key, order: seq<string>): seq<FsStep> {
    seq(|order|, i requires 0 <= i < |order| => RemoveFile(area, key, order[i])) + [RemoveDir(area, key)]
  }

  function SweepSteps(order: seq<string>): seq<FsStep> {
    seq(|order|, i requires 0 <= i < |order| => RemoveUpload(order[i]))
  }

  /** `write_version_dir` followed by the sweep. */
  function WritePlan(env: Env, s: State, area: Area, key: Key, fw: Firmware, who: Option<string>, draw: Draw,
                     clear: seq<string>, sweep: seq<string>): seq<FsStep> {
    BuildSteps(env, s, area, key, fw, who, draw)
    + ((if key in s.disk.In(area) then ClearSteps(area, key, clear) else [])
       + ([MoveDir(area, TmpKey(key, draw), area, key)] + SweepSteps(sweep)))
  }

  /** The random names are unused. */
  ghost predicate FreshDraw(s: State, area: Area, key: Key, fw: Firmware, draw: Draw) {
    && TmpKey(key, draw) !in s.disk.In(area)
    && (forall b :: b in fw.blobs ==> b.File() != draw.manifestScratch && b.File() != draw.submitterScratch)
    && draw.manifestScratch !in {MANIFEST, SUBMITTED_BY} && draw.submitterScratch !in {MANIFEST, SUBMITTED_BY}
  }

  // ----- what the build phase leaves -----

  lemma {:induction false} CopyBuilds(d: Disk, disk: Disk, paths: map<string, Path>, area: Area, tmp: Key,
                                      blobs: seq<Blob>, draw: Draw)
    requires Copyable(disk, paths, blobs) && tmp in d.In(area) && d.In(area)[tmp] == map[]
    ensures ApplyAll(d, CopySteps(disk, paths, area, tmp, blobs, draw))
         == PutDir(d, area, tmp, Copied(disk, paths, blobs))
  {
    if blobs == [] {
      assert d.In(area)[tmp := map[]] == d.In(area);
    } else {
      var rest, last := blobs[..|blobs| - 1], blobs[|blobs| - 1];
      assert forall b :: b in rest ==> b in blobs;
      var bytes := Read(disk, paths[last.Sha()]).value;
      var first := CopySteps(disk, paths, area, tmp, rest, draw);
      var two := [WriteFile(area, tmp, last.File(), draw.torn(bytes)), WriteFile(area, tmp, last.File(), bytes)];
      CopyBuilds(d, disk, paths, area, tmp, rest, draw);
      ApplyConcat(d, first, two);
      WriteTwice(ApplyAll(d, first), area, tmp, last.File(), draw.torn(bytes), bytes);
      PutTwice(d, area, tmp, Copied(disk, paths, rest), Copied(disk, paths, blobs));
    }
  }

  lemma PutTwice(d: Disk, area: Area, key: Key, a: Dir, b: Dir)
    ensures PutDir(PutDir(d, area, key, a), area, key, b) == PutDir(d, area, key, b)
    ensures DirAt(PutDir(d, area, key, a), area, key) == a
  {
    assert d.In(area)[key := a][key := b] == d.In(area)[key := b];
  }

  lemma ApplyOne(d: Disk, a: FsStep)
    ensures ApplyAll(d, [a]) == Apply(d, a)
  {
    assert [a][..0] == [];
    assert ApplyAll(d, []) == d;
  }

  lemma ApplyTwo(d: Disk, a: FsStep, b: FsStep)
    ensures ApplyAll(d, [a, b]) == Apply(Apply(d, a), b)
  {
    assert [a, b][..1] == [a];
    ApplyOne(d, a);
  }

  lemma WriteTwice(d: Disk, area: Area, key: Key, file: string, torn: Bytes, bytes: Bytes)
    ensures ApplyAll(d, [WriteFile(area, key, file, torn), WriteFile(area, key, file, bytes)])
         == PutDir(d, area, key, DirAt(d, area, key)[file := bytes])
  {
    var dir := DirAt(d, area, key);
    ApplyTwo(d, WriteFile(area, key, file, torn), WriteFile(area, key, file, bytes));
    PutTwice(d, area, key, dir[file := torn], dir[file := torn][file := bytes]);
    assert dir[file := torn][file := bytes] == dir[file := bytes];
  }

  lemma AtomicBuilds(d: Disk, area: Area, tmp: Key, file: string, scratch: string, bytes: Bytes, draw: Draw)
    requires scratch !in DirAt(d, area, tmp) && scratch != file
    ensures ApplyAll(d, AtomicSteps(area, tmp, file, scratch, bytes, draw))
         == PutDir(d, area, tmp, DirAt(d, area, tmp)[file := bytes])
  {
    var dir := DirAt(d, area, tmp);
    var steps := AtomicSteps(area, tmp, file, scratch, bytes, draw);
    assert steps[..2] == [WriteFile(area, tmp, scratch, draw.torn(bytes)), WriteFile(area, tmp, scratch, bytes)];
    WriteTwice(d, area, tmp, scratch, draw.torn(bytes), bytes);
    var written := dir[scratch := bytes];
    PutTwice(d, area, tmp, written, (written - {scratch})[file := bytes]);
    assert (written - {scratch})[file := bytes] == dir[file := bytes];
  }

  /** The build phase ends with exactly the specified directory under the temporary name. */
  lemma BuildBuilds(env: Env, s: State, area: Area, key: Key, fw: Firmware, who: Option<string>, draw: Draw)
    requires Copyable(s.disk, s.index.blobPaths, fw.blobs) && FreshDraw(s, area, key, fw, draw)
    ensures ApplyAll(s.disk, BuildSteps(env, s, area, key, fw, who, draw))
         == PutDir(s.disk, area, TmpKey(key, draw), VersionDir(env, s, fw, who))
  {
    var tmp := TmpKey(key, draw);
    var make := [MakeDir(area, tmp)];
    var copy := CopySteps(s.disk, s.index.blobPaths, area, tmp, fw.blobs, draw);
    var manifest := AtomicSteps(area, tmp, MANIFEST, draw.manifestScratch, env.encode(fw), draw);
    var submitter := if who.None? then []
      else AtomicSteps(area, tmp, SUBMITTED_BY, draw.submitterScratch, env.fromText(who.value), draw);
    var files := Copied(s.disk, s.index.blobPaths, fw.blobs);
    CopiedFiles(s.disk, s.index.blobPaths, fw.blobs);

    ApplyOne(s.disk, make[0]);
    var d1 := ApplyAll(s.disk, make);
    assert d1 == PutDir(s.disk, area, tmp, map[]);
    CopyBuilds(d1, s.disk, s.index.blobPaths, area, tmp, fw.blobs, draw);
    PutTwice(s.disk, area, tmp, map[], files);
    var d2 := PutDir(s.disk, area, tmp, files);
    ApplyConcat(s.disk, make, copy);
    ScratchUnused(s, fw, draw);
    PutTwice(s.disk, area, tmp, files, files[MANIFEST := env.encode(fw)]);
    AtomicBuilds(d2, area, tmp, MANIFEST, draw.manifestScratch, env.encode(fw), draw);
    var d3 := PutDir(s.disk, area, tmp, files[MANIFEST := env.encode(fw)]);
    ApplyConcat(s.disk, make + copy, manifest);
    if who.Some? {
      PutTwice(s.disk, area, tmp, files[MANIFEST := env.encode(fw)], VersionDir(env, s, fw, who));
      AtomicBuilds(d3, area, tmp, SUBMITTED_BY, draw.submitterScratch, env.fromText(who.value), draw);
    }
    ApplyConcat(s.disk, make + copy + manifest, submitter);
  }

  lemma ScratchUnused(s: State, fw: Firmware, draw: Draw)
    requires Copyable(s.disk, s.index.blobPaths, fw.blobs)
    requires forall b :: b in fw.blobs ==> b.File() != draw.manifestScratch && b.File() != draw.submitterScratch
    ensures draw.manifestScratch !in Copied(s.disk, s.index.blobPaths, fw.blobs)
    ensures draw.submitterScratch !in Copied(s.disk, s.index.blobPaths, fw.blobs)
  {
    var files := Copied(s.disk, s.index.blobPaths, fw.blobs);
    CopiedFiles(s.disk, s.index.blobPaths, fw.blobs);
    forall f | f in files ensures f != draw.manifestScratch && f != draw.submitterScratch {
      assert HasSource(f, files[f], s.disk, s.index.blobPaths, fw.blobs);
    }
  }

  lemma {:induction false} CopyTemporary(disk: Disk, paths: map<string, Path>, area: Area, tmp: Key, blobs: seq<Blob>,
                                         draw: Draw)
    requires StartsWith(tmp.version, TMP_PREFIX)
    ensures forall st :: st in CopySteps(disk, paths, area, tmp, blobs, draw) ==> Temporary(st)
  {
    if blobs != [] {
      CopyTemporary(disk, paths, area, tmp, blobs[..|blobs| - 1], draw);
    }
  }

  lemma BuildTemporary(env: Env, s: State, area: Area, key: Key, fw: Firmware, who: Option<string>, draw: Draw)
    ensures forall st :: st in BuildSteps(env, s, area, key, fw, who, draw) ==> Temporary(st)
  {
    CopyTemporary(s.disk, s.index.blobPaths, area, TmpKey(key, draw), fw.blobs, draw);
  }

  // ----- clearing, committing, sweeping -----

  /** Only the directory `key` of `area` changed, and it only lost files or vanished. */
  ghost predicate Shrunk(d: Disk, e: Disk, area: Area, key: Key) {
    && e == d.With(area, e.In(area))
    && e.In(area) - {key} == d.In(area) - {key}
    && (key in e.In(area) ==> key in d.In(area) && Submap(e.In(area)[key], d.In(area)[key]))
  }

  lemma DropShrinks(d: Disk, area: Area, key: Key)
    ensures Shrunk(d, DropDir(d, area, key), area, key)
  {
    assert d.In(area) - {key} - {key} == d.In(area) - {key};
  }

  ghost predicate Submap(a: Dir, b: Dir) {
    forall f :: f in a ==> f in b && a[f] == b[f]
  }

  lemma {:induction false} ClearPrefix(d: Disk, area: Area, key: Key, order: seq<string>, i: nat)
    requires i <= |order| && key in d.In(area)
    ensures Shrunk(d, ApplyAll(d, ClearSteps(area, key, order)[..i]), area, key)
    ensures key in ApplyAll(d, ClearSteps(area, key, order)[..i]).In(area)
  {
    var steps := ClearSteps(area, key, order);
    if i > 0 {
      ClearPrefix(d, area, key, order, i - 1);
      var e := ApplyAll(d, steps[..i - 1]);
      assert steps[..i][..i - 1] == steps[..i - 1] && steps[..i][i - 1] == RemoveFile(area, key, order[i - 1]);
      var after := e.In(area)[key := e.In(area)[key] - {order[i - 1]}];
      assert after - {key} == e.In(area) - {key};
    }
  }

  /** Clearing ends with the directory gone and nothing else changed. */
  lemma ClearClears(d: Disk, area: Area, key: Key, order: seq<string>)
    requires key in d.In(area)
    ensures ApplyAll(d, ClearSteps(area, key, order)) == DropDir(d, area, key)
  {
    var steps := ClearSteps(area, key, order);
    ClearPrefix(d, area, key, order, |order|);
    assert steps[..|steps| - 1] == steps[..|order|];
  }

  lemma WithTwice(d: Disk, area: Area, a: map<Key, Dir>, b: map<Key, Dir>)
    ensures d.With(area, a).With(area, b) == d.With(area, b)
  {
  }

  lemma MoveWithin(d: Disk, area: Area, dirs: map<Key, Dir>, from: Key, target: Key)
    requires from in dirs
    ensures Apply(d.With(area, dirs), MoveDir(area, from, area, target))
         == d.With(area, (dirs - {from})[target := dirs[from]])
  {
    hide Disk.With;
    WithTwice(d, area, dirs, dirs - {from});
    WithTwice(d, area, dirs - {from}, (dirs - {from})[target := dirs[from]]);
  }

  /** The rename puts the built directory in place of whatever was cleared. */
  lemma MoveCommits(d: Disk, area: Area, key: Key, tmp: Key, dir: Dir)
    requires tmp !in d.In(area) && tmp != key
    ensures Apply(DropDir(PutDir(d, area, tmp, dir), area, key), MoveDir(area, tmp, area, key))
         == PutDir(d, area, key, dir)
    ensures key !in d.In(area) ==>
      Apply(PutDir(d, area, tmp, dir), MoveDir(area, tmp, area, key)) == PutDir(d, area, key, dir)
  {
    hide Disk.With, Apply;
    var dirs := d.In(area);
    assert (dirs[tmp := dir] - {key} - {tmp})[key := dir] == dirs[key := dir];
    assert key !in dirs ==> (dirs[tmp := dir] - {tmp})[key := dir] == dirs[key := dir];
    WithTwice(d, area, dirs[tmp := dir], dirs[tmp := dir] - {key});
    MoveWithin(d, area, dirs[tmp := dir] - {key}, tmp, key);
    MoveWithin(d, area, dirs[tmp := dir], tmp, key);
  }

  function Elements(order: seq<string>): set<string> { set n | n in order }

  lemma {:induction false} SweepPrefix(d: Disk, order: seq<string>, i: nat)
    requires i <= |order|
    ensures ApplyAll(d, SweepSteps(order)[..i]) == d.(incoming := d.incoming - Elements(order[..i]))
  {
    var steps := SweepSteps(order);
    if i == 0 {
      assert d.incoming - {} == d.incoming;
    } else {
      SweepPrefix(d, order, i - 1);
      assert steps[..i][..i - 1] == steps[..i - 1] && steps[..i][i - 1] == RemoveUpload(order[i - 1]);
      assert order[..i] == order[..i - 1] + [order[i - 1]];
      assert Elements(order[..i]) == Elements(order[..i - 1]) + {order[i - 1]};
      assert d.incoming - Elements(order[..i - 1]) - {order[i - 1]} == d.incoming - Elements(order[..i]);
    }
  }

  /** Losing any of the redundant uploads keeps the index right, and the contents sound. */
  lemma PartialSweepKeeps(env: Env, p: State, gone: set<string>)
    requires Cached(env, p) && gone <= Owned(p.index.live, p.index.staged)
    ensures var q := State(p.disk.(incoming := p.disk.incoming - gone), p.index, p.bumps);
      Cached(env, q) && (Invariant(env, p) ==> Invariant(env, q))
  {
    hide Rebuild, EnvOk, ScanLive, ScanStaged;
    var incoming := p.disk.incoming - gone;
    RebuildIgnoresOwned(p.disk.incoming.Keys, incoming.Keys, p.index.live, p.index.staged);
  }

  // ----- what a half-cleared directory means for the scan -----

  /** The path leads into the staged directory `key`. */
  predicate Into(path: Path, key: Key) {
    path.InDir? && path.area == Staging && path.key == key
  }

  /** Two indexes that differ at most in the staged entry `key`, which is as it was, without its
      submitter, or gone, and in the paths that led into its directory. */
  ghost predicate OnlyEntryTorn(a: Index, b: Index, key: Key) {
    && key in a.staged
    && b.live == a.live
    && b.staged - {key} == a.staged - {key}
    && (key in b.staged ==>
          && b.staged[key].firmware == a.staged[key].firmware
          && b.staged[key].submittedBy in {a.staged[key].submittedBy, ""}
          && b.blobPaths == a.blobPaths)
    && b.blobPaths.Keys <= a.blobPaths.Keys
    && forall sha :: sha in a.blobPaths && !Into(a.blobPaths[sha], key) ==>
         sha in b.blobPaths && b.blobPaths[sha] == a.blobPaths[sha]
  }

  /** Dropping a manifest changes no path but those it owned. */
  lemma OverlayDrop(base: map<string, Path>, area: Area, fws: map<Key, Firmware>, key: Key, sha: string)
    requires key in fws && sha in Overlay(base, area, fws)
    requires var p := Overlay(base, area, fws)[sha]; !(p.InDir? && p.area == area && p.key == key)
    ensures sha in Overlay(base, area, fws - {key})
    ensures Overlay(base, area, fws - {key})[sha] == Overlay(base, area, fws)[sha]
  {
    hide CarriedBy, FileFor, Carries;
    var rest := fws - {key};
    OwnersNonEmpty(fws, sha);
    OwnersNonEmpty(rest, sha);
    OwnersDrop(fws, key, sha);
    if Owners(fws, sha) != {} {
      var k := MaxKey(Owners(fws, sha));
      assert k != key;
      assert IsMax(k, Owners(rest, sha));
      MaxUnique(k, Owners(rest, sha));
    }
  }

  lemma OwnersDrop(fws: map<Key, Firmware>, key: Key, sha: string)
    ensures Owners(fws - {key}, sha) == Owners(fws, sha) - {key}
  {
  }

  lemma ScanShrunkOther(env: Env, d: map<Key, Dir>, e: map<Key, Dir>, key: Key)
    requires e - {key} == d - {key}
    requires key in e ==> key in d && Submap(e[key], d[key])
    ensures ScanLive(env, e) - {key} == ScanLive(env, d) - {key}
    ensures ScanStaged(env, e) - {key} == ScanStaged(env, d) - {key}
    ensures key in ScanLive(env, e) ==> key in ScanLive(env, d) && ScanLive(env, e)[key] == ScanLive(env, d)[key]
    ensures key in ScanStaged(env, e) ==>
      && key in ScanStaged(env, d) && ScanStaged(env, e)[key].firmware == ScanStaged(env, d)[key].firmware
      && ScanStaged(env, e)[key].submittedBy in {ScanStaged(env, d)[key].submittedBy, ""}
  {
    ScanDrop(env, d, key);
    ScanDrop(env, e, key);
  }

  lemma DropEqual<V>(a: map<Key, V>, b: map<Key, V>, key: Key)
    requires a - {key} == b - {key} && key !in a && key !in b
    ensures a == b
  {
    assert a - {key} == a && b - {key} == b;
  }

  /** A directory the scan skipped before is still skipped while it is being cleared. */
  lemma ClearingUnindexed(env: Env, d: Disk, e: Disk, area: Area, key: Key)
    requires Shrunk(d, e, area, key)
    requires key !in (if area == Live then Scan(env, d).live.Keys else Scan(env, d).staged.Keys)
    ensures Scan(env, e) == Scan(env, d)
  {
    ScanShrunkOther(env, d.In(area), e.In(area), key);
    if area == Live {
      DropEqual(ScanLive(env, d.live), ScanLive(env, e.live), key);
    } else {
      DropEqual(ScanStaged(env, d.staging), ScanStaged(env, e.staging), key);
    }
  }

  lemma ClearingStaged(env: Env, d: Disk, e: Disk, key: Key)
    requires Shrunk(d, e, Staging, key) && key in Scan(env, d).staged
    ensures OnlyEntryTorn(Scan(env, d), Scan(env, e), key)
  {
    ScanShrunkOther(env, d.staging, e.staging, key);
    var a, b := Scan(env, d), Scan(env, e);
    StagedManifestsDrop(a.staged, b.staged, key);
    var base := Overlay(IncomingPaths(d.incoming.Keys), Live, a.live);
    var fws := StagedManifests(a.staged);
    if key !in b.staged {
      forall sha | sha in a.blobPaths && !Into(a.blobPaths[sha], key)
        ensures sha in b.blobPaths && b.blobPaths[sha] == a.blobPaths[sha]
      {
        OverlayDrop(base, Staging, fws, key, sha);
      }
      CarriedShrinks(fws, key);
    }
  }

  lemma CarriedShrinks(fws: map<Key, Firmware>, key: Key)
    ensures CarriedBy(fws - {key}) <= CarriedBy(fws)
  {
    var rest := fws - {key};
    forall sha | sha in CarriedBy(rest) ensures sha in CarriedBy(fws) {
      var k, b :| k in rest && b in rest[k].blobs && b.Named() && b.Sha() == sha;
      assert k in fws && b in fws[k].blobs;
    }
  }

  lemma StagedManifestsDrop(a: map<Key, Staged>, b: map<Key, Staged>, key: Key)
    requires key in a && b - {key} == a - {key} && (key in b ==> b[key].firmware == a[key].firmware)
    ensures StagedManifests(b) == if key in b then StagedManifests(a) else StagedManifests(a) - {key}
  {
    if key in b {
      forall k | k in a ensures k in b && b[k].firmware == a[k].firmware {
        if k != key { assert k in a - {key} && (b - {key})[k] == (a - {key})[k]; }
      }
      forall k | k in b ensures k in a { if k != key { assert k in b - {key}; } }
    } else {
      assert b - {key} == b;
    }
  }
}
