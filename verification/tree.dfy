/** The directory tree, the in-memory index, and what a full scan of the tree yields. */
module Tree {
  import opened Basics
  import opened Names
  import opened Manifests

  datatype Area = Live | Staging

  /** A version directory: file name to content, the manifest included. */
  type Dir = map<string, Bytes>

  /** An upload waiting in `incoming/`. */
  datatype Upload = Upload(bytes: Bytes, mtime: int)

  /** `firmware/` and `staging/` hold `<device>/<name>` directories, build
      directories and foreign drops included; `incoming/` holds plain files. */
  datatype Disk = Disk(live: map<Key, Dir>, staging: map<Key, Dir>, incoming: map<string, Upload>) {
    function In(area: Area): map<Key, Dir> {
      match area
      case Live => live
      case Staging => staging
    }

    function With(area: Area, dirs: map<Key, Dir>): (d: Disk)
      ensures d.In(area) == dirs && d.incoming == incoming
      ensures forall other :: other != area ==> d.In(other) == In(other)
    {
      match area
      case Live => this.(live := dirs)
      case Staging => this.(staging := dirs)
    }
  }

  datatype Path = Incoming(name: string) | InDir(area: Area, key: Key, file: string)

  datatype Index = Index(live: map<Key, Firmware>, staged: map<Key, Staged>, blobPaths: map<string, Path>)

  // ----- paths as the filesystem sees them -----

  /** Components of a path under the root, joined with slashes. */
  function Joined(parts: seq<string>): string {
    if parts == [] then "" else "/" + parts[0] + Joined(parts[1..])
  }

  function Parts(path: Path): seq<string> {
    match path
    case Incoming(name) => ["incoming", name]
    case InDir(area, key, file) =>
      [if area == Live then "firmware" else "staging", key.device, key.version, file]
  }

  /** The names in the path went through the parsers. */
  predicate Proper(path: Path) {
    match path
    case Incoming(name) => ValidSha(name)
    case InDir(_, key, file) => key.Valid() && ValidBasename(file)
  }

  predicate Slashless(parts: seq<string>) {
    forall i :: 0 <= i < |parts| ==> '/' !in parts[i]
  }

  lemma {:induction false} JoinedInjective(a: seq<string>, b: seq<string>)
    requires Slashless(a) && Slashless(b) && Joined(a) == Joined(b)
    ensures a == b
  {
    if a != [] && b != [] {
      var ra, rb := Joined(a[1..]), Joined(b[1..]);
      assert ra == "" || ra[0] == '/';
      assert rb == "" || rb[0] == '/';
      assert Joined(a)[1..] == a[0] + ra && Joined(b)[1..] == b[0] + rb;
      SplitUnique(a[0], ra, b[0], rb);
      JoinedInjective(a[1..], b[1..]);
    }
  }

  lemma SplitUnique(a: string, ra: string, b: string, rb: string)
    requires a + ra == b + rb && '/' !in a && '/' !in b
    requires (ra == "" || ra[0] == '/') && (rb == "" || rb[0] == '/')
    ensures a == b && ra == rb
  {
    var s := a + ra;
    assert forall i :: 0 <= i < |a| ==> s[i] == a[i];
    assert forall i :: 0 <= i < |b| ==> s[i] == b[i];
    assert |a| < |s| ==> s[|a|] == '/';
    assert |b| < |s| ==> s[|b|] == '/';
    assert a == (a + ra)[..|a|] && ra == (a + ra)[|a|..];
    assert b == (b + rb)[..|b|] && rb == (b + rb)[|b|..];
  }

  /** Different paths of the model are different files: no two keys, areas, uploads or file
      names share one. */
  lemma PathsDistinct(p: Path, q: Path)
    requires Proper(p) && Proper(q)
    ensures Joined(Parts(p)) == Joined(Parts(q)) <==> p == q
  {
    ProperSlashless(p);
    ProperSlashless(q);
    if Joined(Parts(p)) == Joined(Parts(q)) {
      JoinedInjective(Parts(p), Parts(q));
    }
  }

  lemma ProperSlashless(p: Path)
    requires Proper(p)
    ensures Slashless(Parts(p))
  {
    if p.InDir? {
      VersionShape(p.key.version);
    }
  }

  /** The bytes a path leads to, if the file exists. */
  function Read(disk: Disk, path: Path): Option<Bytes> {
    match path
    case Incoming(name) => if name in disk.incoming then Some(disk.incoming[name].bytes) else None
    case InDir(area, key, file) =>
      var dirs := disk.In(area);
      if key in dirs && file in dirs[key] then Some(dirs[key][file]) else None
  }

  // Maps with computed values are picked by their defining property, entry by entry.

  ghost predicate AreManifestsOf(m: map<Key, Firmware>, staged: map<Key, Staged>) {
    && m.Keys == staged.Keys
    && forall k :: k in m ==> m[k] == staged[k].firmware
  }

  ghost function StagedManifests(staged: map<Key, Staged>): (m: map<Key, Firmware>)
    ensures AreManifestsOf(m, staged)
  {
    assert AreManifestsOf(map k | k in staged :: staged[k].firmware, staged);
    var m :| AreManifestsOf(m, staged);
    m
  }

  // ----- scanning -----

  /** The manifest a directory yields under `key`, when the scan accepts it. */
  function ManifestIn(env: Env, key: Key, dir: Dir): Option<Firmware> {
    if StartsWith(key.version, TMP_PREFIX) || MANIFEST !in dir then None
    else if !key.Valid() || key.device !in env.slots then None
    else
      match env.decode(dir[MANIFEST])
      case None => None
      case Some(fw) => if Claims(fw, key) then Some(fw) else None
  }

  function SubmitterIn(env: Env, dir: Dir): string {
    if SUBMITTED_BY in dir then Trim(env.toText(dir[SUBMITTED_BY]).GetOr("")) else ""
  }

  /** The directories the scan accepts. */
  ghost function Found(env: Env, dirs: map<Key, Dir>): set<Key> {
    set k | k in dirs && ManifestIn(env, k, dirs[k]).Some?
  }

  ghost predicate LiveIn(m: map<Key, Firmware>, env: Env, dirs: map<Key, Dir>) {
    && m.Keys == Found(env, dirs)
    && forall k :: k in m ==> m[k] == ManifestIn(env, k, dirs[k]).value
  }

  ghost function ScanLive(env: Env, dirs: map<Key, Dir>): (m: map<Key, Firmware>)
    ensures LiveIn(m, env, dirs)
  {
    LiveExists(env, dirs);
    var m :| LiveIn(m, env, dirs);
    m
  }

  lemma LiveExists(env: Env, dirs: map<Key, Dir>)
    ensures exists m :: LiveIn(m, env, dirs)
  {
    var m := map k | k in Found(env, dirs) :: ManifestIn(env, k, dirs[k]).value;
    assert LiveIn(m, env, dirs);
  }

  ghost predicate StagedIn(m: map<Key, Staged>, env: Env, dirs: map<Key, Dir>) {
    && m.Keys == Found(env, dirs)
    && forall k :: k in m ==> m[k] == Staged(ManifestIn(env, k, dirs[k]).value, SubmitterIn(env, dirs[k]))
  }

  ghost function ScanStaged(env: Env, dirs: map<Key, Dir>): (m: map<Key, Staged>)
    ensures StagedIn(m, env, dirs)
  {
    StagedExists(env, dirs);
    var m :| StagedIn(m, env, dirs);
    m
  }

  lemma StagedExists(env: Env, dirs: map<Key, Dir>)
    ensures exists m :: StagedIn(m, env, dirs)
  {
    var m := map k | k in Found(env, dirs) :: Staged(ManifestIn(env, k, dirs[k]).value, SubmitterIn(env, dirs[k]));
    assert StagedIn(m, env, dirs);
  }

  /** The index a full rescan of the tree builds. */
  ghost function Scan(env: Env, disk: Disk): Index {
    var live := ScanLive(env, disk.live);
    var staged := ScanStaged(env, disk.staging);
    Index(live, staged, Rebuild(disk.incoming.Keys, live, staged))
  }

  // ----- the sha to path map -----

  /** `fw` maps `sha` to a file of its own directory. */
  predicate Carries(fw: Firmware, sha: string) { CarriedIn(fw.blobs, sha) }

  predicate CarriedIn(blobs: seq<Blob>, sha: string) {
    exists b :: b in blobs && b.Named() && b.Sha() == sha
  }

  /** The file that holds `sha`: the last entry naming it wins. */
  function FileFor(blobs: seq<Blob>, sha: string): (file: string)
    requires CarriedIn(blobs, sha)
    ensures exists b :: b in blobs && b.Named() && b.Sha() == sha && b.File() == file
  {
    var last := blobs[|blobs| - 1];
    if last.Named() && last.Sha() == sha then last.File() else
      assert forall b :: b in blobs ==> b == last || b in blobs[..|blobs| - 1];
      FileFor(blobs[..|blobs| - 1], sha)
  }

  ghost function ShasOf(blobs: seq<Blob>): set<string> {
    set b | b in blobs && b.Named() :: b.Sha()
  }

  ghost function Owners(fws: map<Key, Firmware>, sha: string): set<Key> {
    set k | k in fws && Carries(fws[k], sha)
  }

  ghost function CarriedBy(fws: map<Key, Firmware>): set<string> {
    set k, b | k in fws && b in fws[k].blobs && b.Named() :: b.Sha()
  }

  lemma OwnersNonEmpty(fws: map<Key, Firmware>, sha: string)
    ensures sha in CarriedBy(fws) <==> Owners(fws, sha) != {}
  {
    if sha in CarriedBy(fws) {
      var k, b :| k in fws && b in fws[k].blobs && b.Named() && b.Sha() == sha;
      assert Carries(fws[k], sha);
      assert k in Owners(fws, sha);
    }
    if Owners(fws, sha) != {} {
      var k :| k in Owners(fws, sha);
      var b :| b in fws[k].blobs && b.Named() && b.Sha() == sha;
    }
  }

  /** Every sha the manifests carry, sent to its greatest owner; other entries kept. */
  ghost function Overlay(base: map<string, Path>, area: Area, fws: map<Key, Firmware>): (m: map<string, Path>)
    ensures Overlays(m, base, area, fws)
  {
    OverlayExists(base, area, fws);
    var m :| Overlays(m, base, area, fws);
    m
  }

  ghost predicate Overlays(m: map<string, Path>, base: map<string, Path>, area: Area, fws: map<Key, Firmware>) {
    && m.Keys == base.Keys + CarriedBy(fws)
    && forall sha :: sha in m ==> m[sha] == Choose(base, area, fws, sha)
  }

  lemma OverlayExists(base: map<string, Path>, area: Area, fws: map<Key, Firmware>)
    ensures exists m :: Overlays(m, base, area, fws)
  {
    hide Choose;
    var m := map sha | sha in base.Keys + CarriedBy(fws) :: Choose(base, area, fws, sha);
    assert Overlays(m, base, area, fws);
  }

  ghost function Choose(base: map<string, Path>, area: Area, fws: map<Key, Firmware>, sha: string): Path
    requires sha in base.Keys + CarriedBy(fws)
  {
    OwnersNonEmpty(fws, sha);
    if sha in CarriedBy(fws) then
      var k := MaxKey(Owners(fws, sha));
      InDir(area, k, FileFor(fws[k].blobs, sha))
    else base[sha]
  }

  ghost predicate PoolPaths(m: map<string, Path>, names: set<string>) {
    && m.Keys == (set n | n in names && ValidSha(n))
    && forall n :: n in m ==> m[n] == Incoming(n)
  }

  ghost function IncomingPaths(names: set<string>): (m: map<string, Path>)
    ensures PoolPaths(m, names)
  {
    assert PoolPaths(map n | n in names && ValidSha(n) :: Incoming(n), names);
    var m :| PoolPaths(m, names);
    m
  }

  /** Version directories win over the incoming pool, staged entries over live ones. */
  ghost function Rebuild(incoming: set<string>, live: map<Key, Firmware>, staged: map<Key, Staged>)
    : (m: map<string, Path>)
  {
    Overlay(Overlay(IncomingPaths(incoming), Live, live), Staging, StagedManifests(staged))
  }

  /** Shas some manifest of the index carries: the ones a version directory owns. */
  ghost function Owned(live: map<Key, Firmware>, staged: map<Key, Staged>): set<string> {
    CarriedBy(live) + CarriedBy(StagedManifests(staged))
  }

  /** A carried sha is sent to a file that one of the manifests names for it. */
  lemma ChosenFile(base: map<string, Path>, area: Area, fws: map<Key, Firmware>, sha: string)
    requires sha in CarriedBy(fws)
    ensures var p := Choose(base, area, fws, sha);
      p.InDir? && p.area == area && p.key in fws
      && exists b :: b in fws[p.key].blobs && b.Named() && b.Sha() == sha && b.File() == p.file
  {
    hide Blob.Named, CarriedBy;
    OwnersNonEmpty(fws, sha);
  }

  lemma NotChosen(base: map<string, Path>, area: Area, fws: map<Key, Firmware>, sha: string)
    requires sha in base && sha !in CarriedBy(fws)
    ensures Choose(base, area, fws, sha) == base[sha]
  {
  }

  /** What the rebuilt map holds, and where each entry may point. */
  lemma RebuildShape(incoming: set<string>, live: map<Key, Firmware>, staged: map<Key, Staged>)
    ensures var m := Rebuild(incoming, live, staged);
      && m.Keys == (set n | n in incoming && ValidSha(n)) + Owned(live, staged)
      && (forall sha :: sha in m && sha !in Owned(live, staged) ==> m[sha] == Incoming(sha) && sha in incoming)
      && (forall sha :: sha in m && sha in Owned(live, staged) ==> PointsInto(m[sha], live, staged, sha))
  {
    hide CarriedBy, ValidSha, Choose;
    var mid := Overlay(IncomingPaths(incoming), Live, live);
    var m := Rebuild(incoming, live, staged);
    forall sha | sha in m && sha in Owned(live, staged) ensures PointsInto(m[sha], live, staged, sha) {
      if sha in CarriedBy(StagedManifests(staged)) {
        ChosenFile(mid, Staging, StagedManifests(staged), sha);
      } else {
        ChosenFile(IncomingPaths(incoming), Live, live, sha);
        NotChosen(mid, Staging, StagedManifests(staged), sha);
      }
    }
    forall sha | sha in m && sha !in Owned(live, staged) ensures m[sha] == Incoming(sha) && sha in incoming {
      NotChosen(IncomingPaths(incoming), Live, live, sha);
      NotChosen(mid, Staging, StagedManifests(staged), sha);
    }
  }

  /** Which copy a carried sha is sent to: a staged manifest's before a live one's, the greatest
      key's within an area, and the last entry naming the sha within a manifest. */
  lemma RebuildOwner(incoming: set<string>, live: map<Key, Firmware>, staged: map<Key, Staged>, sha: string)
    requires sha in Owned(live, staged)
    ensures var m, (area, fws) := Rebuild(incoming, live, staged), Holders(live, staged, sha);
      && sha in m && Owners(fws, sha) != {}
      && var k := MaxKey(Owners(fws, sha));
         CarriedIn(fws[k].blobs, sha) && m[sha] == InDir(area, k, FileFor(fws[k].blobs, sha))
  {
    hide CarriedBy, Owners;
    var mid := Overlay(IncomingPaths(incoming), Live, live);
    OwnersNonEmpty(live, sha);
    OwnersNonEmpty(StagedManifests(staged), sha);
    var fws := Holders(live, staged, sha).1;
    OwnerCarries(fws, sha);
    if sha !in CarriedBy(StagedManifests(staged)) {
      NotChosen(mid, Staging, StagedManifests(staged), sha);
    }
  }

  /** The manifests that decide where `sha` is found. */
  ghost function Holders(live: map<Key, Firmware>, staged: map<Key, Staged>, sha: string): (Area, map<Key, Firmware>) {
    if sha in CarriedBy(StagedManifests(staged)) then (Staging, StagedManifests(staged)) else (Live, live)
  }

  lemma OwnerCarries(fws: map<Key, Firmware>, sha: string)
    requires Owners(fws, sha) != {}
    ensures var k := MaxKey(Owners(fws, sha)); k in fws && CarriedIn(fws[k].blobs, sha)
  {
    assert MaxKey(Owners(fws, sha)) in Owners(fws, sha);
  }

  /** The path leads to a file that the index says carries `sha`. */
  ghost predicate PointsInto(path: Path, live: map<Key, Firmware>, staged: map<Key, Staged>, sha: string) {
    && path.InDir?
    && var fws := if path.area == Live then live else StagedManifests(staged);
       path.key in fws && exists b :: b in fws[path.key].blobs && b.Named() && b.Sha() == sha && b.File() == path.file
  }

  ghost predicate AgreeOff(a: map<string, Path>, b: map<string, Path>, d: set<string>) {
    forall sha :: sha !in d ==> (sha in a <==> sha in b) && (sha in a ==> a[sha] == b[sha])
  }

  lemma OverlayAgree(a: map<string, Path>, b: map<string, Path>, area: Area, fws: map<Key, Firmware>, d: set<string>)
    requires AgreeOff(a, b, d)
    ensures AgreeOff(Overlay(a, area, fws), Overlay(b, area, fws), d - CarriedBy(fws))
  {
    var oa, ob := Overlay(a, area, fws), Overlay(b, area, fws);
    forall sha | sha !in d - CarriedBy(fws)
      ensures (sha in oa <==> sha in ob) && (sha in oa ==> oa[sha] == ob[sha])
    {
      if sha in oa && sha in ob {
        assert oa[sha] == Choose(a, area, fws, sha) && ob[sha] == Choose(b, area, fws, sha);
      }
    }
  }

  lemma AgreeEverywhere(a: map<string, Path>, b: map<string, Path>, d: set<string>)
    requires AgreeOff(a, b, d) && d == {}
    ensures a == b
  {
  }

  /** Which incoming copies exist is irrelevant for shas a version directory owns. */
  lemma RebuildIgnoresOwned(a: set<string>, b: set<string>, live: map<Key, Firmware>, staged: map<Key, Staged>)
    requires forall n :: ValidSha(n) && n !in Owned(live, staged) ==> (n in a <==> n in b)
    ensures Rebuild(a, live, staged) == Rebuild(b, live, staged)
  {
    OverlayTwiceAgree(IncomingPaths(a), IncomingPaths(b), live, StagedManifests(staged));
  }

  lemma OverlayTwiceAgree(a: map<string, Path>, b: map<string, Path>,
                          live: map<Key, Firmware>, staged: map<Key, Firmware>)
    requires AgreeOff(a, b, CarriedBy(live) + CarriedBy(staged))
    ensures Overlay(Overlay(a, Live, live), Staging, staged) == Overlay(Overlay(b, Live, live), Staging, staged)
  {
    var d := CarriedBy(live) + CarriedBy(staged);
    OverlayAgree(a, b, Live, live, d);
    var ma, mb := Overlay(a, Live, live), Overlay(b, Live, live);
    OverlayAgree(ma, mb, Staging, staged, d - CarriedBy(live));
    AgreeEverywhere(Overlay(ma, Staging, staged), Overlay(mb, Staging, staged),
                    d - CarriedBy(live) - CarriedBy(staged));
  }
}
