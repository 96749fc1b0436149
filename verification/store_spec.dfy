/** What each store operation does to the tree, the index and the change counter,
    stated on values; the `Store` class is proved against these functions. */
module StoreSpec {
  import opened Basics
  import opened Names
  import opened Manifests
  import opened Tree

  const MAX_STAGED_PER_USER: nat := 32

  /** `bumps` counts change notifications. */
  datatype State = State(disk: Disk, index: Index, bumps: nat)

  datatype Out = Out(state: State, result: Result<Firmware, StoreError>)

  // ----- validation -----

  /** Why one blob entry is refused, if it is; the checks in order. */
  function Fault(b: Blob, slots: nat, paths: map<string, Path>): Option<StoreError> {
    if b.slot.GetOr(0) >= slots then Some(InvalidArgument)
    else if !ValidSha(b.Sha()) then Some(InvalidArgument)
    else if !ValidBasename(b.File()) then Some(InvalidArgument)
    else if b.Sha() !in paths then Some(MissingBlob(b.Sha(), b.File()))
    else None
  }

  function FirstFault(blobs: seq<Blob>, slots: nat, paths: map<string, Path>): (e: Option<StoreError>)
    ensures e.None? <==> forall b :: b in blobs ==> Fault(b, slots, paths).None?
  {
    if blobs == [] then None
    else if Fault(blobs[0], slots, paths).Some? then Fault(blobs[0], slots, paths)
    else FirstFault(blobs[1..], slots, paths)
  }

  function Verdict(env: Env, index: Index, fw: Firmware, rejectIfLive: bool): Result<Key, StoreError> {
    match KeyOf(fw)
    case Err(e) => Err(e)
    case Ok(key) =>
      if key.device !in env.slots then Err(UnknownDevice(key.device))
      else if fw.blobs == [] || |fw.blobs| > env.slots[key.device] then Err(InvalidArgument)
      else
        match FirstFault(fw.blobs, env.slots[key.device], index.blobPaths)
        case Some(e) => Err(e)
        case None => if rejectIfLive && key in index.live then Err(AlreadyExists(key)) else Ok(key)
  }

  // ----- building a version directory -----

  /** Every copy succeeds: the source is there and the target name can be created. */
  ghost predicate Copyable(disk: Disk, paths: map<string, Path>, blobs: seq<Blob>) {
    forall b :: b in blobs ==> b.Sha() in paths && Read(disk, paths[b.Sha()]).Some? && Creatable(b.File())
  }

  /** The blob files of a build directory; a later entry overwrites an earlier one of the same name. */
  ghost function Copied(disk: Disk, paths: map<string, Path>, blobs: seq<Blob>): Dir
    requires Copyable(disk, paths, blobs)
  {
    if blobs == [] then map[]
    else
      var last := blobs[|blobs| - 1];
      Copied(disk, paths, blobs[..|blobs| - 1])[last.File() := Read(disk, paths[last.Sha()]).value]
  }

  ghost function VersionDir(env: Env, s: State, fw: Firmware, who: Option<string>): Dir
    requires Copyable(s.disk, s.index.blobPaths, fw.blobs)
  {
    var files := Copied(s.disk, s.index.blobPaths, fw.blobs)[MANIFEST := env.encode(fw)];
    if who.Some? then files[SUBMITTED_BY := env.fromText(who.value)] else files
  }

  // ----- operations -----

  function PathOwned(paths: map<string, Path>): set<string> {
    set sha | sha in paths && paths[sha].InDir?
  }

  function SweptIncoming(incoming: map<string, Upload>, owned: set<string>): map<string, Upload> {
    incoming - (set n | n in incoming && ValidSha(n) && n in owned)
  }

  ghost function WithIndex(disk: Disk, live: map<Key, Firmware>, staged: map<Key, Staged>, bumps: nat): State {
    State(disk, Index(live, staged, Rebuild(disk.incoming.Keys, live, staged)), bumps)
  }

  /** `sweep_incoming`: drop the uploads a version directory now owns, then rebuild. */
  ghost function Swept(s: State): State {
    var incoming := SweptIncoming(s.disk.incoming, PathOwned(s.index.blobPaths));
    WithIndex(s.disk.(incoming := incoming), s.index.live, s.index.staged, s.bumps)
  }

  ghost function PutBlob(env: Env, s: State, content: Bytes, now: int): (State, Result<string, StoreError>) {
    if content == [] || |content| > env.maxBlobBytes then (s, Err(InvalidArgument))
    else
      var sha := env.digest(content);
      var disk := if sha in s.disk.incoming then s.disk
                  else s.disk.(incoming := s.disk.incoming[sha := Upload(content, now)]);
      var paths := if sha in s.index.blobPaths then s.index.blobPaths else s.index.blobPaths[sha := Incoming(sha)];
      (State(disk, s.index.(blobPaths := paths), s.bumps), Ok(sha))
  }

  ghost function Publish(env: Env, s: State, fw: Firmware): Out {
    match Verdict(env, s.index, fw, true)
    case Err(e) => Out(s, Err(e))
    case Ok(key) =>
      if !Copyable(s.disk, s.index.blobPaths, fw.blobs) then Out(s, Err(Io))
      else
        var disk := s.disk.(live := s.disk.live[key := VersionDir(env, s, fw, None)]);
        var placed := WithIndex(disk, s.index.live[key := fw], s.index.staged - {key}, s.bumps + 1);
        Out(Swept(placed), Ok(fw))
  }

  ghost function StagedBy(staged: map<Key, Staged>, who: string): set<Key> {
    set k | k in staged && staged[k].submittedBy == who
  }

  ghost predicate OverQuota(staged: map<Key, Staged>, key: Key, who: string) {
    !(key in staged && staged[key].submittedBy == who) && |StagedBy(staged, who)| >= MAX_STAGED_PER_USER
  }

  ghost function Stage(env: Env, s: State, fw: Firmware, who: string): Out {
    match Verdict(env, s.index, fw, true)
    case Err(e) => Out(s, Err(e))
    case Ok(key) =>
      if OverQuota(s.index.staged, key, who) then Out(s, Err(Quota))
      else if !Copyable(s.disk, s.index.blobPaths, fw.blobs) then Out(s, Err(Io))
      else
        var disk := s.disk.(staging := s.disk.staging[key := VersionDir(env, s, fw, Some(who))]);
        var placed := WithIndex(disk, s.index.live, s.index.staged[key := Staged(fw, who)], s.bumps + 1);
        Out(Swept(placed), Ok(fw))
  }

  ghost function Reject(s: State, device: string, version: string): (State, Result<(), StoreError>) {
    match KeyFor(device, version)
    case Err(e) => (s, Err(e))
    case Ok(key) =>
      if key !in s.index.staged then (s, Err(NotFound(key)))
      else
        var disk := s.disk.(staging := s.disk.staging - {key});
        (WithIndex(disk, s.index.live, s.index.staged - {key}, s.bumps + 1), Ok(()))
  }

  /** The target of a directory rename may exist only as an empty directory. */
  predicate RenameBlocked(disk: Disk, key: Key) {
    key !in disk.staging || (key in disk.live && disk.live[key] != map[])
  }

  ghost function Approve(s: State, device: string, version: string): Out {
    match KeyFor(device, version)
    case Err(e) => Out(s, Err(e))
    case Ok(key) =>
      if key in s.index.live then Out(Reject(s, device, version).0, Err(AlreadyExists(key)))
      else if key !in s.index.staged then Out(s, Err(NotFound(key)))
      else if RenameBlocked(s.disk, key) then Out(s, Err(Io))
      else
        var fw := s.index.staged[key].firmware;
        var disk := s.disk.(staging := s.disk.staging - {key},
                            live := s.disk.live[key := s.disk.staging[key] - {SUBMITTED_BY}]);
        Out(WithIndex(disk, s.index.live[key := fw], s.index.staged - {key}, s.bumps + 1), Ok(fw))
  }

  /** Every digest string a live or staged manifest mentions. */
  function Referenced(index: Index): set<string> {
    (set k, b | k in index.live && b in index.live[k].blobs && b.sha.Some? :: b.sha.value) +
    (set k, b | k in index.staged && b in index.staged[k].firmware.blobs && b.sha.Some? :: b.sha.value)
  }

  /** The uploads garbage collection takes: unreferenced, older than the cutoff, not temporary. */
  ghost function Abandoned(s: State, cutoff: int): set<string> {
    set n | n in s.disk.incoming && !Contains(n, TMP_PREFIX) && n !in Referenced(s.index)
            && s.disk.incoming[n].mtime < cutoff
  }

  lemma AbandonedIff(s: State, cutoff: int)
    ensures forall n :: n in Abandoned(s, cutoff) <==>
      n in s.disk.incoming && !Contains(n, TMP_PREFIX) && n !in Referenced(s.index) && s.disk.incoming[n].mtime < cutoff
  {
  }

  ghost function Gc(s: State, cutoff: int): (State, nat) {
    var gone := Abandoned(s, cutoff);
    if gone == {} then (s, 0)
    else
      (WithIndex(s.disk.(incoming := s.disk.incoming - gone), s.index.live, s.index.staged, s.bumps), |gone|)
  }

  ghost function Reload(env: Env, s: State): (State, bool) {
    var rescan := Scan(env, s.disk);
    var changed := s.index.live.Keys != rescan.live.Keys || s.index.staged.Keys != rescan.staged.Keys;
    (State(s.disk, rescan, if changed then s.bumps + 1 else s.bumps), changed)
  }

  function ReapDirs(dirs: map<Key, Dir>): map<Key, Dir> {
    dirs - (set k | k in dirs && StartsWith(k.version, TMP_PREFIX))
  }

  function ReapIncoming(incoming: map<string, Upload>): map<string, Upload> {
    incoming - (set n | n in incoming && Contains(n, TMP_PREFIX))
  }

  /** `gc_tmp_artifacts`: remove what an interrupted write may have left. */
  function Reap(disk: Disk): Disk {
    Disk(ReapDirs(disk.live), ReapDirs(disk.staging), ReapIncoming(disk.incoming))
  }

  /** `Store::open` over an existing tree. */
  ghost function Opened(env: Env, disk: Disk): State {
    State(Reap(disk), Scan(env, Reap(disk)), 0)
  }

  /** `get_blob`: the indexed bytes, checked against the digest. */
  ghost function GetBlob(env: Env, s: State, sha: string): Result<Option<Bytes>, StoreError> {
    if sha !in s.index.blobPaths then Ok(None)
    else
      match Read(s.disk, s.index.blobPaths[sha])
      case None => Err(Io)
      case Some(bytes) => if env.digest(bytes) == sha then Ok(Some(bytes)) else Err(Io)
  }

  // ----- runs -----

  datatype Op =
    | PutBlobOp(content: Bytes, now: int)
    | StageOp(fw: Firmware, who: string)
    | PublishOp(fw: Firmware)
    | ApproveOp(device: string, version: string)
    | RejectOp(device: string, version: string)
    | GcOp(cutoff: int)
    | ReloadOp
    | ReopenOp

  ghost function Step(env: Env, s: State, op: Op): State {
    match op
    case PutBlobOp(content, now) => PutBlob(env, s, content, now).0
    case StageOp(fw, who) => Stage(env, s, fw, who).state
    case PublishOp(fw) => Publish(env, s, fw).state
    case ApproveOp(device, version) => Approve(s, device, version).state
    case RejectOp(device, version) => Reject(s, device, version).0
    case GcOp(cutoff) => Gc(s, cutoff).0
    case ReloadOp => Reload(env, s).0
    case ReopenOp => Opened(env, s.disk)
  }

  ghost function Run(env: Env, s: State, ops: seq<Op>): State {
    if ops == [] then s else Step(env, Run(env, s, ops[..|ops| - 1]), ops[|ops| - 1])
  }
}
