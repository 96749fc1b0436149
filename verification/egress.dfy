/** Blob egress: a mirror that may fail at any call, in front of the authoritative tree. */
module Egress {
  import opened Basics
  import opened Manifests
  import opened Tree
  import opened StoreSpec
  import opened StoreCache
  import opened StoreInvariant
  import opened Store

  datatype Delivery = Inline(bytes: Bytes) | Redirect(sha: string)

  /** How a put may end: stored, refused, or stored although an error is reported. */
  datatype PutFault = Stores | Refuses | StoresThenFails

  /** Which mirror calls fail during one download. */
  datatype Faults = Faults(head: bool, headBeforePut: bool, put: PutFault, sign: bool)

  /** The object bucket, keyed by digest; this program is its only writer. */
  class Mirror {
    var objects: map<string, Bytes>

    ghost predicate Sound(env: Env)
      reads this
    {
      forall sha :: sha in objects ==> env.digest(objects[sha]) == sha
    }

    method Has(sha: string, fails: bool) returns (r: Result<bool, ()>)
      ensures r == if fails then Err(()) else Ok(sha in objects)
    {
      r := if fails then Err(()) else Ok(sha in objects);
    }

    method PutIfAbsent(sha: string, content: Bytes, headFails: bool, fault: PutFault) returns (r: Result<(), ()>)
      modifies this
      ensures objects == if !headFails && sha !in old(objects) && !fault.Refuses? then old(objects)[sha := content]
                         else old(objects)
      ensures r.Ok? <==> !headFails && (sha in old(objects) || fault.Stores?)
    {
      var present := Has(sha, headFails);
      if present.Err? {
        return Err(());
      }
      if present.value {
        return Ok(());
      }
      if !fault.Refuses? {
        objects := objects[sha := content];
      }
      r := if fault.Stores? then Ok(()) else Err(());
    }
  }

  /** The mirror answers its first head request, and has the object or takes it, and signs a URL. */
  ghost predicate Cooperates(mirrored: bool, faults: Faults) {
    !faults.head && !faults.sign && (mirrored || (!faults.headBeforePut && faults.put.Stores?))
  }

  /** When a download fills the mirror: the object is absent, the local bytes verify, and the put lands. */
  ghost predicate Mirrors(store: Store, sha: string, mirrored: bool, faults: Faults)
    reads store
  {
    && !mirrored && !faults.head && !faults.headBeforePut && !faults.put.Refuses?
    && sha in store.index.blobPaths
    && var local := Read(store.disk, store.index.blobPaths[sha]); local.Some? && store.env.digest(local.value) == sha
  }

  /** `download`: a mirror URL when the mirror cooperates, the local bytes otherwise. Bytes that fail
      verification are neither mirrored nor sent; the object already in the mirror still is. */
  method Download(store: Store, mirror: Mirror?, sha: string, faults: Faults)
    returns (r: Result<Option<Delivery>, StoreError>)
    modifies mirror
    ensures r == Ok(None) <==> sha !in store.index.blobPaths
    ensures sha in store.index.blobPaths ==>
      match Read(store.disk, store.index.blobPaths[sha])
      case None => r == Err(Io)
      case Some(bytes) =>
        if mirror != null && Cooperates(sha in old(mirror.objects), faults)
           && (sha in old(mirror.objects) || store.env.digest(bytes) == sha)
        then r == Ok(Some(Redirect(sha)))
        else if store.env.digest(bytes) == sha then r == Ok(Some(Inline(bytes)))
        else r == Err(Io)
    ensures mirror != null ==>
      mirror.objects == if Mirrors(store, sha, sha in old(mirror.objects), faults)
                        then old(mirror.objects)[sha := Read(store.disk, store.index.blobPaths[sha]).value]
                        else old(mirror.objects)
    ensures r.Err? ==> StoreSpec.GetBlob(store.env, store.Now(), sha).Err?
    ensures Invariant(store.env, store.Now()) ==> r.Ok?
    ensures r.Ok? && r.value.Some? && r.value.value.Inline? ==> store.env.digest(r.value.value.bytes) == sha
    ensures r.Ok? && r.value.Some? && r.value.value.Redirect? ==>
      mirror != null && r.value.value.sha == sha && sha in mirror.objects
    ensures mirror != null && old(mirror.Sound(store.env)) ==> mirror.Sound(store.env)
  {
    hide Invariant;
    ServableUnderInvariant(store.env, store.Now(), sha);
    if sha !in store.index.blobPaths {
      return Ok(None);
    }
    if Read(store.disk, store.index.blobPaths[sha]).None? {
      return Err(Io);
    }
    if mirror == null {
      r := LocalBytes(store, sha);
      return;
    }
    var present := mirror.Has(sha, faults.head);
    if present.Err? {
      r := LocalBytes(store, sha);
      return;
    }
    if !present.value {
      var local := store.GetBlob(sha);
      if local.Err? {
        return Err(local.error);
      }
      if local.value.None? {
        return Ok(None);
      }
      var stored := mirror.PutIfAbsent(sha, local.value.value, faults.headBeforePut, faults.put);
      if stored.Err? {
        return Ok(Some(Inline(local.value.value)));
      }
    }
    if faults.sign {
      r := LocalBytes(store, sha);
      return;
    }
    r := Ok(Some(Redirect(sha)));
  }

  method LocalBytes(store: Store, sha: string) returns (r: Result<Option<Delivery>, StoreError>)
    ensures r == match StoreSpec.GetBlob(store.env, store.Now(), sha)
      case Err(e) => Err(e)
      case Ok(None) => Ok(None)
      case Ok(Some(bytes)) => Ok(Some(Inline(bytes)))
    ensures r.Ok? && r.value.Some? ==> store.env.digest(r.value.value.bytes) == sha
  {
    var local := store.GetBlob(sha);
    r := match local
      case Err(e) => Err(e)
      case Ok(None) => Ok(None)
      case Ok(Some(bytes)) => Ok(Some(Inline(bytes)));
  }

  lemma ServableUnderInvariant(env: Env, s: State, sha: string)
    ensures Invariant(env, s) ==> StoreSpec.GetBlob(env, s, sha).Ok?
    ensures Invariant(env, s) && sha in s.index.blobPaths ==> Read(s.disk, s.index.blobPaths[sha]).Some?
  {
    if Invariant(env, s) && sha in s.index.blobPaths {
      PathContent(env, s, sha);
    }
  }
}
