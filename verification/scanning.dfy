/** The loops that read the tree: scanning, rebuilding the path map, reaping. */
module Scanning {
  import opened Basics
  import opened Names
  import opened Manifests
  import opened Tree
  import opened StoreSpec

  /** Visit the version directories of `firmware/` in whatever order the filesystem lists them. */
  method ScanLiveDirs(env: Env, dirs: map<Key, Dir>) returns (live: map<Key, Firmware>)
    ensures live == ScanLive(env, dirs)
  {
    hide ManifestIn;
    live := map[];
    var rest := dirs.Keys;
    while rest != {}
      invariant rest <= dirs.Keys
      invariant live == ScanLive(env, dirs) - rest
      decreases rest
    {
      var k :| k in rest;
      match ManifestIn(env, k, dirs[k]) {
        case Some(fw) => live := live[k := fw];
        case None =>
      }
      rest := rest - {k};
    }
  }

  method ScanStagedDirs(env: Env, dirs: map<Key, Dir>) returns (staged: map<Key, Staged>)
    ensures staged == ScanStaged(env, dirs)
  {
    hide ManifestIn, SubmitterIn;
    staged := map[];
    var rest := dirs.Keys;
    while rest != {}
      invariant rest <= dirs.Keys
      invariant staged == ScanStaged(env, dirs) - rest
      decreases rest
    {
      var k :| k in rest;
      match ManifestIn(env, k, dirs[k]) {
        case Some(fw) => staged := staged[k := Staged(fw, SubmitterIn(env, dirs[k]))];
        case None =>
      }
      rest := rest - {k};
    }
  }

  // ----- rebuilding the sha to path map -----

  ghost function Restrict(fws: map<Key, Firmware>, keys: set<Key>): map<Key, Firmware> {
    fws - (fws.Keys - keys)
  }

  /** The map after one manifest's blobs were inserted in order. */
  ghost function OverlayBlobs(m: map<string, Path>, area: Area, k: Key, blobs: seq<Blob>): (r: map<string, Path>)
    ensures OverlaysBlobs(r, m, area, k, blobs)
  {
    OverlayBlobsExists(m, area, k, blobs);
    var r :| OverlaysBlobs(r, m, area, k, blobs);
    r
  }

  ghost predicate OverlaysBlobs(r: map<string, Path>, m: map<string, Path>, area: Area, k: Key, blobs: seq<Blob>) {
    && r.Keys == m.Keys + ShasOf(blobs)
    && (forall sha :: sha in r && CarriedIn(blobs, sha) ==> r[sha] == InDir(area, k, FileFor(blobs, sha)))
    && (forall sha :: sha in r && !CarriedIn(blobs, sha) ==> sha in m && r[sha] == m[sha])
  }

  lemma OverlayBlobsExists(m: map<string, Path>, area: Area, k: Key, blobs: seq<Blob>)
    ensures exists r :: OverlaysBlobs(r, m, area, k, blobs)
  {
    hide Blob.Named;
    var r := map sha | sha in m.Keys + ShasOf(blobs) ::
      if CarriedIn(blobs, sha) then InDir(area, k, FileFor(blobs, sha)) else m[sha];
    assert OverlaysBlobs(r, m, area, k, blobs);
  }

  lemma CarriedStep(blobs: seq<Blob>, sha: string)
    requires blobs != []
    ensures var init, last := blobs[..|blobs| - 1], blobs[|blobs| - 1];
      && (CarriedIn(blobs, sha) <==> (last.Named() && last.Sha() == sha) || CarriedIn(init, sha))
      && (sha in ShasOf(blobs) <==> CarriedIn(blobs, sha))
  {
    hide Blob.Named;
    var init, last := blobs[..|blobs| - 1], blobs[|blobs| - 1];
    assert forall b :: b in blobs <==> b in init || b == last;
  }

  lemma ShasOfCarried(blobs: seq<Blob>, sha: string)
    ensures sha in ShasOf(blobs) <==> CarriedIn(blobs, sha)
  {
    hide Blob.Named;
  }

  lemma OverlayBlobsStep(m: map<string, Path>, area: Area, k: Key, blobs: seq<Blob>)
    requires blobs != []
    ensures var init, last := blobs[..|blobs| - 1], blobs[|blobs| - 1];
      OverlayBlobs(m, area, k, blobs) ==
      if last.Named() then OverlayBlobs(m, area, k, init)[last.Sha() := InDir(area, k, last.File())]
      else OverlayBlobs(m, area, k, init)
  {
    hide Blob.Named, Blob.Sha, Blob.File, ShasOf, CarriedIn;
    var init, last := blobs[..|blobs| - 1], blobs[|blobs| - 1];
    var now, was := OverlayBlobs(m, area, k, blobs), OverlayBlobs(m, area, k, init);
    var put := if last.Named() then was[last.Sha() := InDir(area, k, last.File())] else was;
    forall sha ensures sha in now <==> sha in put {
      CarriedStep(blobs, sha);
      ShasOfCarried(init, sha);
    }
    forall sha | sha in now ensures now[sha] == put[sha] {
      CarriedStep(blobs, sha);
    }
  }

  /** Inserting the greatest manifest last makes it the owner of every sha it carries. */
  lemma OverlayStep(base: map<string, Path>, area: Area, fws: map<Key, Firmware>, done: set<Key>, k: Key)
    requires k in fws && k !in done && forall j :: j in done ==> KeyLess(j, k)
    ensures OverlayBlobs(Overlay(base, area, Restrict(fws, done)), area, k, fws[k].blobs)
         == Overlay(base, area, Restrict(fws, done + {k}))
  {
    hide KeyLess, CarriedBy, ShasOf, Choose, Carries, CarriedIn, Restrict;
    var before, after := Restrict(fws, done), Restrict(fws, done + {k});
    var m := Overlay(base, area, before);
    var left, right := OverlayBlobs(m, area, k, fws[k].blobs), Overlay(base, area, after);
    CarriedRestrict(fws, done, k);
    assert left.Keys == right.Keys;
    forall sha | sha in left ensures left[sha] == right[sha] {
      OverlayStepAt(base, area, fws, done, k, sha);
    }
  }

  lemma CarriedRestrict(fws: map<Key, Firmware>, done: set<Key>, k: Key)
    requires k in fws
    ensures CarriedBy(Restrict(fws, done + {k})) == CarriedBy(Restrict(fws, done)) + ShasOf(fws[k].blobs)
  {
    var before, after := Restrict(fws, done), Restrict(fws, done + {k});
    forall sha ensures sha in CarriedBy(after) <==> sha in CarriedBy(before) + ShasOf(fws[k].blobs) {
      if sha in CarriedBy(after) {
        var j, b :| j in after && b in after[j].blobs && b.Named() && b.Sha() == sha;
        if j != k { assert j in before && before[j] == after[j]; }
      }
      if sha in CarriedBy(before) {
        var j, b :| j in before && b in before[j].blobs && b.Named() && b.Sha() == sha;
        assert j in after && after[j] == before[j];
      }
      if sha in ShasOf(fws[k].blobs) {
        assert k in after && after[k] == fws[k];
      }
    }
  }

  /** Adding the greatest key: it becomes the greatest owner of what it carries, and of nothing else. */
  lemma OwnersStep(fws: map<Key, Firmware>, done: set<Key>, k: Key, sha: string)
    requires k in fws && k !in done && forall j :: j in done ==> KeyLess(j, k)
    ensures var before, after := Restrict(fws, done), Restrict(fws, done + {k});
      && k in after && after[k] == fws[k] && (forall j :: j in before ==> j in after && after[j] == before[j])
      && (if CarriedIn(fws[k].blobs, sha) then IsMax(k, Owners(after, sha))
          else Owners(after, sha) == Owners(before, sha))
  {
    hide CarriedIn, KeyLess;
  }

  lemma OverlayStepAt(base: map<string, Path>, area: Area, fws: map<Key, Firmware>, done: set<Key>, k: Key, sha: string)
    requires k in fws && k !in done && forall j :: j in done ==> KeyLess(j, k)
    requires sha in Overlay(base, area, Restrict(fws, done)).Keys + ShasOf(fws[k].blobs)
    requires sha in Overlay(base, area, Restrict(fws, done + {k}))
    ensures OverlayBlobs(Overlay(base, area, Restrict(fws, done)), area, k, fws[k].blobs)[sha]
         == Overlay(base, area, Restrict(fws, done + {k}))[sha]
  {
    hide Blob.Named, KeyLess, CarriedBy, ShasOf, CarriedIn, FileFor, Restrict;
    var before, after := Restrict(fws, done), Restrict(fws, done + {k});
    OwnersNonEmpty(after, sha);
    OwnersNonEmpty(before, sha);
    OwnersStep(fws, done, k, sha);
    if CarriedIn(fws[k].blobs, sha) {
      MaxUnique(k, Owners(after, sha));
    }
  }

  /** Map one manifest's blobs to files of its directory; unusable entries are skipped. */
  method AddBlobs(base: map<string, Path>, area: Area, k: Key, blobs: seq<Blob>) returns (m: map<string, Path>)
    ensures m == OverlayBlobs(base, area, k, blobs)
  {
    hide Blob.Named, Blob.Sha, Blob.File;
    m := base;
    for i := 0 to |blobs|
      invariant m == OverlayBlobs(base, area, k, blobs[..i])
    {
      OverlayBlobsStep(base, area, k, blobs[..i + 1]);
      assert blobs[..i + 1][..i] == blobs[..i];
      if blobs[i].Named() {
        m := m[blobs[i].Sha() := InDir(area, k, blobs[i].File())];
      }
    }
    assert blobs[..|blobs|] == blobs;
  }

  /** Insert the blobs of every manifest, in ascending key order. */
  method AddManifests(base: map<string, Path>, area: Area, fws: map<Key, Firmware>) returns (m: map<string, Path>)
    ensures m == Overlay(base, area, fws)
  {
    hide KeyLess, Overlay, OverlayBlobs;
    m := base;
    ghost var done: set<Key> := {};
    var rest := fws.Keys;
    OverlayNothing(base, area, fws);
    while rest != {}
      invariant rest <= fws.Keys && done == fws.Keys - rest
      invariant forall i, j :: i in done && j in rest ==> KeyLess(i, j)
      invariant m == Overlay(base, area, Restrict(fws, done))
      decreases rest
    {
      MinExists(rest);
      var k :| k in rest && forall j :: j in rest && j != k ==> KeyLess(k, j);
      OverlayStep(base, area, fws, done, k);
      m := AddBlobs(m, area, k, fws[k].blobs);
      rest, done := rest - {k}, done + {k};
    }
    assert Restrict(fws, done) == fws;
  }

  lemma OverlayNothing(base: map<string, Path>, area: Area, fws: map<Key, Firmware>)
    ensures Overlay(base, area, Restrict(fws, {})) == base
  {
    assert Restrict(fws, {}) == map[];
  }

  /** `rebuild_blob_paths`: the pool first, then live, then staged manifests. */
  method RebuildBlobPaths(incoming: map<string, Upload>, live: map<Key, Firmware>, staged: map<Key, Staged>)
    returns (m: map<string, Path>)
    ensures m == Rebuild(incoming.Keys, live, staged)
  {
    m := map[];
    var rest := incoming.Keys;
    while rest != {}
      invariant rest <= incoming.Keys
      invariant m == IncomingPaths(incoming.Keys - rest)
      decreases rest
    {
      var name :| name in rest;
      if ValidSha(name) {
        m := m[name := Incoming(name)];
      }
      rest := rest - {name};
    }
    assert incoming.Keys - {} == incoming.Keys;
    m := AddManifests(m, Live, live);
    var manifests := map k | k in staged :: staged[k].firmware;
    assert manifests == StagedManifests(staged);
    m := AddManifests(m, Staging, manifests);
  }

  method ScanTree(env: Env, disk: Disk) returns (index: Index)
    ensures index == Scan(env, disk)
  {
    var live := ScanLiveDirs(env, disk.live);
    var staged := ScanStagedDirs(env, disk.staging);
    var paths := RebuildBlobPaths(disk.incoming, live, staged);
    index := Index(live, staged, paths);
  }

  // ----- reaping -----

  method ReapArea(dirs: map<Key, Dir>) returns (kept: map<Key, Dir>)
    ensures kept == ReapDirs(dirs)
  {
    kept := dirs;
    var rest := dirs.Keys;
    while rest != {}
      invariant rest <= dirs.Keys
      invariant kept == dirs - (set k | k in dirs && k !in rest && StartsWith(k.version, TMP_PREFIX))
      decreases rest
    {
      var k :| k in rest;
      if StartsWith(k.version, TMP_PREFIX) {
        kept := kept - {k};
      }
      rest := rest - {k};
    }
  }

  /** `gc_tmp_artifacts` over the whole tree. */
  method GcTmpArtifacts(disk: Disk) returns (reaped: Disk)
    ensures reaped == Reap(disk)
  {
    var live := ReapArea(disk.live);
    var staging := ReapArea(disk.staging);
    var incoming := disk.incoming;
    var rest := disk.incoming.Keys;
    while rest != {}
      invariant rest <= disk.incoming.Keys
      invariant incoming == 
                disk.incoming - (set n | n in disk.incoming && n !in rest && Contains(n, TMP_PREFIX))
      decreases rest
    {
      var n :| n in rest;
      if Contains(n, TMP_PREFIX) {
        incoming := incoming - {n};
      }
      rest := rest - {n};
    }
    reaped := Disk(live, staging, incoming);
  }
}
