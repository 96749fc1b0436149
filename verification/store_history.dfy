/** The staging state machine over whole runs, read off the log of successful
    operations, and the per-user quota. */
module StoreHistory {
  import opened Basics
  import opened Names
  import opened Manifests
  import opened Tree
  import opened StoreSpec
  import opened StoreCache
  import opened StoreInvariant
  import opened StoreRuns

  datatype Event =
    | Submitted(key: Key, entry: Staged)
    | Approved(key: Key)
    | Rejected(key: Key)
    | Published(key: Key, fw: Firmware)

  /** What a caller is told has happened: nothing for a refused operation. */
  ghost function EventsOf(env: Env, s: State, op: Op): seq<Event> {
    match op
    case StageOp(fw, who) =>
      if Stage(env, s, fw, who).result.Ok? && KeyOf(fw).Ok? then [Submitted(KeyOf(fw).value, Staged(fw, who))] else []
    case PublishOp(fw) =>
      if Publish(env, s, fw).result.Ok? && KeyOf(fw).Ok? then [Event.Published(KeyOf(fw).value, fw)] else []
    case ApproveOp(device, version) =>
      if Approve(s, device, version).result.Ok? then [Approved(Key(device, version))] else []
    case RejectOp(device, version) =>
      if Reject(s, device, version).1.Ok? then [Rejected(Key(device, version))] else []
    case _ => []
  }

  ghost function Log(env: Env, s: State, ops: seq<Op>): seq<Event> {
    if ops == [] then []
    else Log(env, s, ops[..|ops| - 1]) + EventsOf(env, Run(env, s, ops[..|ops| - 1]), ops[|ops| - 1])
  }

  function Lookup<T>(m: map<Key, T>, k: Key): Option<T> {
    if k in m then Some(m[k]) else None
  }

  /** The submission awaiting review for `k`, by the log and the staged entries it started
      from: the last event about `k` is its submission. */
  function Pending(staged0: map<Key, Staged>, log: seq<Event>, k: Key): Option<Staged> {
    if log == [] then Lookup(staged0, k)
    else
      var last := log[|log| - 1];
      if last.key != k then Pending(staged0, log[..|log| - 1], k)
      else if last.Submitted? then Some(last.entry)
      else None
  }

  /** The live manifest of `k`, by the log and the index it started from: what was pending
      when it was last approved. */
  function LiveByLog(start: Index, log: seq<Event>, k: Key): Option<Firmware> {
    if log == [] then Lookup(start.live, k)
    else
      var last, before := log[|log| - 1], log[..|log| - 1];
      if last.key != k then LiveByLog(start, before, k)
      else
        match last
        case Published(_, fw) => Some(fw)
        case Approved(_) =>
          (match Pending(start.staged, before, k) case Some(e) => Some(e.firmware) case None => None)
        case _ => LiveByLog(start, before, k)
  }

  ghost predicate Agrees(start: Index, s: State, log: seq<Event>) {
    forall k ::
      && Lookup(s.index.staged, k) == Pending(start.staged, log, k)
      && Lookup(s.index.live, k) == LiveByLog(start, log, k)
  }

  /** How an event changes the two maps of the catalogue. */
  function LiveAfter(live: map<Key, Firmware>, staged: map<Key, Staged>, e: Event): map<Key, Firmware> {
    match e
    case Published(k, fw) => live[k := fw]
    case Approved(k) => if k in staged then live[k := staged[k].firmware] else live
    case _ => live
  }

  function StagedAfter(staged: map<Key, Staged>, e: Event): map<Key, Staged> {
    match e
    case Submitted(k, entry) => staged[k := entry]
    case _ => staged - {e.key}
  }

  /** The maps of `t` are those of `s` changed by the logged event, if there is one. */
  ghost predicate Follows(s: State, events: seq<Event>, t: State) {
    && |events| <= 1
    && t.index.live == (if events == [] then s.index.live else LiveAfter(s.index.live, s.index.staged, events[0]))
    && t.index.staged == (if events == [] then s.index.staged else StagedAfter(s.index.staged, events[0]))
    && (events != [] && events[0].Approved? ==> events[0].key in s.index.staged)
  }

  lemma StageFollows(env: Env, s: State, fw: Firmware, who: string)
    ensures Follows(s, EventsOf(env, s, StageOp(fw, who)), Stage(env, s, fw, who).state)
  {
    hide FirstFault, Rebuild, VersionDir, Copyable, OverQuota, SweptIncoming, PathOwned;
  }

  lemma PublishFollows(env: Env, s: State, fw: Firmware)
    ensures Follows(s, EventsOf(env, s, PublishOp(fw)), Publish(env, s, fw).state)
  {
    hide FirstFault, Rebuild, VersionDir, Copyable, OverQuota, SweptIncoming, PathOwned;
  }

  lemma RejectOutcome(s: State, device: string, version: string)
    ensures var key, (t, result) := Key(device, version), Reject(s, device, version);
      if result.Ok? then t.index.live == s.index.live && t.index.staged == s.index.staged - {key} else t == s
  {
    hide Rebuild;
  }

  lemma ReviewFollows(env: Env, s: State, device: string, version: string)
    requires s.index.live.Keys !! s.index.staged.Keys
    ensures Follows(s, EventsOf(env, s, ApproveOp(device, version)), Approve(s, device, version).state)
    ensures Follows(s, EventsOf(env, s, RejectOp(device, version)), Reject(s, device, version).0)
  {
    hide Approve, Reject, Rebuild;
    ApproveShape(env, s, device, version);
    RejectOutcome(s, device, version);
  }

  lemma RestartFollows(env: Env, s: State)
    requires Cached(env, s)
    ensures Reload(env, s).0.index == s.index && Opened(env, s.disk).index == s.index
  {
    ReloadIdle(env, s);
    ReopenCached(env, s);
  }

  lemma UploadFollows(env: Env, s: State, content: Bytes, now: int)
    ensures var t := PutBlob(env, s, content, now).0; t.index.live == s.index.live && t.index.staged == s.index.staged
  {
  }

  lemma StepFollows(env: Env, s: State, op: Op)
    requires Settled(env, s)
    ensures Follows(s, EventsOf(env, s, op), Step(env, s, op))
  {
    hide Stage, Publish, Approve, Reject, PutBlob, Gc, Reload, Opened, Cached;
    match op
    case PutBlobOp(content, now) => UploadFollows(env, s, content, now);
    case StageOp(fw, who) => StageFollows(env, s, fw, who);
    case PublishOp(fw) => PublishFollows(env, s, fw);
    case ApproveOp(device, version) => ReviewFollows(env, s, device, version);
    case RejectOp(device, version) => ReviewFollows(env, s, device, version);
    case GcOp(cutoff) => GcShape(s, cutoff);
    case ReloadOp => RestartFollows(env, s);
    case ReopenOp => RestartFollows(env, s);
  }

  /** Only keys that are not live are submitted. */
  lemma SubmittedNotLive(env: Env, s: State, op: Op)
    requires EventsOf(env, s, op) != [] && EventsOf(env, s, op)[0].Submitted?
    ensures EventsOf(env, s, op)[0].key !in s.index.live
  {
    hide FirstFault, Rebuild, VersionDir, Copyable, OverQuota, Swept;
  }

  lemma StepSettled(env: Env, s: State, op: Op)
    requires Settled(env, s) && Orderly(s, op)
    ensures Settled(env, Step(env, s, op))
  {
    hide Cached, EventsOf, Step;
    StepCached(env, s, op);
    StepFollows(env, s, op);
    var events := EventsOf(env, s, op);
    if events != [] && events[0].Submitted? {
      SubmittedNotLive(env, s, op);
    }
  }

  lemma {:induction false} RunSettled(env: Env, s: State, ops: seq<Op>)
    requires Settled(env, s) && OrderlyRun(env, s, ops)
    ensures Settled(env, Run(env, s, ops))
  {
    if ops != [] {
      RunSettled(env, s, ops[..|ops| - 1]);
      StepSettled(env, Run(env, s, ops[..|ops| - 1]), ops[|ops| - 1]);
    }
  }

  lemma LogStep(start: Index, s: State, events: seq<Event>, t: State, log: seq<Event>)
    requires Follows(s, events, t) && Agrees(start, s, log)
    ensures Agrees(start, t, log + events)
  {
    if events == [] {
      assert log + events == log;
    } else {
      assert (log + events)[..|log + events| - 1] == log;
      var e := events[0];
      forall k ensures Lookup(t.index.staged, k) == Pending(start.staged, log + events, k)
               ensures Lookup(t.index.live, k) == LiveByLog(start, log + events, k)
      {
        assert Lookup(s.index.staged, k) == Pending(start.staged, log, k);
        assert Lookup(s.index.live, k) == LiveByLog(start, log, k);
      }
    }
  }

  /** From any start without overlap, the staged and live maps are exactly what the log of
      successful operations makes of the starting ones: a key is staged iff its last event is a
      submission, and live with the manifest that was pending at its approval. */
  lemma {:induction false} CatalogueIsReplayOfLog(env: Env, s: State, ops: seq<Op>)
    requires Settled(env, s) && OrderlyRun(env, s, ops)
    ensures Agrees(s.index, Run(env, s, ops), Log(env, s, ops))
    ensures Run(env, s, ops).index.live.Keys !! Run(env, s, ops).index.staged.Keys
  {
    RunSettled(env, s, ops);
    if ops != [] {
      var init, last := ops[..|ops| - 1], ops[|ops| - 1];
      CatalogueIsReplayOfLog(env, s, init);
      RunSettled(env, s, init);
      StepFollows(env, Run(env, s, init), last);
      LogStep(s.index, Run(env, s, init), EventsOf(env, Run(env, s, init), last), Run(env, s, ops), Log(env, s, init));
    }
  }

  /** `i` is a submission of `entry` for `k` and nothing about `k` happens between `i` and `j`. */
  ghost predicate LastSubmission(log: seq<Event>, k: Key, i: nat, j: nat, entry: Staged) {
    && i < j <= |log|
    && log[i] == Submitted(k, entry)
    && Untouched(log, k, i + 1, j)
  }

  ghost predicate Untouched(log: seq<Event>, k: Key, i: nat, j: nat)
    requires j <= |log|
  {
    forall m :: i <= m < j ==> log[m].key != k
  }

  /** Before event `j`, `entry` is the last submission for `k`: logged, or there from the start. */
  ghost predicate PendingAt(staged0: map<Key, Staged>, log: seq<Event>, k: Key, j: nat, entry: Staged)
    requires j <= |log|
  {
    || (Lookup(staged0, k) == Some(entry) && Untouched(log, k, 0, j))
    || exists i :: LastSubmission(log, k, i, j, entry)
  }

  lemma PendingExtends(staged0: map<Key, Staged>, before: seq<Event>, log: seq<Event>, k: Key, j: nat, entry: Staged)
    requires |before| <= |log| && before == log[..|before|] && j <= |before|
    requires PendingAt(staged0, before, k, j, entry)
    ensures PendingAt(staged0, log, k, j, entry)
  {
    assert forall m :: 0 <= m < |before| ==> log[m] == before[m];
    if exists i :: LastSubmission(before, k, i, j, entry) {
      var i :| LastSubmission(before, k, i, j, entry);
      assert LastSubmission(log, k, i, j, entry);
    } else {
      assert Untouched(log, k, 0, j);
    }
  }

  lemma {:induction false} PendingOrigin(staged0: map<Key, Staged>, log: seq<Event>, k: Key)
    requires Pending(staged0, log, k).Some?
    ensures PendingAt(staged0, log, k, |log|, Pending(staged0, log, k).value)
  {
    if log != [] {
      var before, entry := log[..|log| - 1], Pending(staged0, log, k).value;
      if log[|log| - 1].key == k {
        assert LastSubmission(log, k, |log| - 1, |log|, entry);
      } else {
        PendingOrigin(staged0, before, k);
        PendingExtends(staged0, before, log, k, |before|, entry);
        if exists i :: LastSubmission(log, k, i, |before|, entry) {
          var i :| LastSubmission(log, k, i, |before|, entry);
          assert LastSubmission(log, k, i, |log|, entry);
        } else {
          assert Untouched(log, k, 0, |log|);
        }
      }
    }
  }

  /** Event `j` put `fw` live under `k`: by direct publication, or by approving the
      last submission, untouched since. */
  ghost predicate WentLive(staged0: map<Key, Staged>, log: seq<Event>, k: Key, j: nat, fw: Firmware)
    requires j < |log|
  {
    || log[j] == Event.Published(k, fw)
    || (log[j] == Approved(k) && exists e :: PendingAt(staged0, log, k, j, e) && e.firmware == fw)
  }

  /** `fw` is live under `k` from the start, or some event of the log put it there. */
  ghost predicate HasOrigin(start: Index, log: seq<Event>, k: Key, fw: Firmware) {
    || Lookup(start.live, k) == Some(fw)
    || exists j :: 0 <= j < |log| && WentLive(start.staged, log, k, j, fw)
  }

  lemma {:induction false} LiveOrigin(start: Index, log: seq<Event>, k: Key)
    requires LiveByLog(start, log, k).Some?
    ensures HasOrigin(start, log, k, LiveByLog(start, log, k).value)
  {
    if log != [] {
      var before, last, fw := log[..|log| - 1], |log| - 1, LiveByLog(start, log, k).value;
      if log[last].key == k && log[last].Approved? {
        PendingOrigin(start.staged, before, k);
        PendingExtends(start.staged, before, log, k, last, Pending(start.staged, before, k).value);
        assert WentLive(start.staged, log, k, last, fw);
      } else if log[last] == Event.Published(k, fw) {
        assert WentLive(start.staged, log, k, last, fw);
      } else {
        LiveOrigin(start, before, k);
        OriginExtends(start, before, log, k, fw);
      }
    }
  }

  lemma OriginExtends(start: Index, before: seq<Event>, log: seq<Event>, k: Key, fw: Firmware)
    requires |before| <= |log| && before == log[..|before|] && HasOrigin(start, before, k, fw)
    ensures HasOrigin(start, log, k, fw)
  {
    if Lookup(start.live, k) != Some(fw) {
      var j :| 0 <= j < |before| && WentLive(start.staged, before, k, j, fw);
      assert log[j] == before[j];
      if log[j].Approved? {
        var e :| PendingAt(start.staged, before, k, j, e) && e.firmware == fw;
        PendingExtends(start.staged, before, log, k, j, e);
      }
      assert WentLive(start.staged, log, k, j, fw);
    }
  }

  /** A live manifest was live from the start, was published directly, or was the last one
      submitted before its approval: a rejected or overwritten submission never goes live. */
  lemma LiveWasLastSubmitted(env: Env, s: State, ops: seq<Op>, k: Key)
    requires Settled(env, s) && OrderlyRun(env, s, ops) && k in Run(env, s, ops).index.live
    ensures HasOrigin(s.index, Log(env, s, ops), k, Run(env, s, ops).index.live[k])
  {
    CatalogueIsReplayOfLog(env, s, ops);
    AgreedOrigin(s.index, Run(env, s, ops), Log(env, s, ops), k);
  }

  lemma AgreedOrigin(start: Index, s: State, log: seq<Event>, k: Key)
    requires Agrees(start, s, log) && k in s.index.live
    ensures HasOrigin(start, log, k, s.index.live[k])
  {
    assert Lookup(s.index.live, k) == LiveByLog(start, log, k);
    LiveOrigin(start, log, k);
  }

  // ----- notifications -----

  /** Every successful change of the catalogue is announced, once, and nothing else is. */
  lemma StepAnnounces(env: Env, s: State, op: Op)
    requires Settled(env, s) && op != ReopenOp
    ensures Step(env, s, op).bumps == s.bumps + |EventsOf(env, s, op)|
  {
    hide Verdict, Rebuild, VersionDir, KeyOf, Swept, Scan, EnvOk, Abandoned;
    match op
    case StageOp(fw, who) => SubmitAnnounces(env, s, fw, who);
    case PublishOp(fw) => SubmitAnnounces(env, s, fw, "");
    case ApproveOp(device, version) => ApproveShape(env, s, device, version);
    case ReloadOp => ReloadCached(env, s);
    case _ =>
  }

  lemma SubmitAnnounces(env: Env, s: State, fw: Firmware, who: string)
    ensures Stage(env, s, fw, who).state.bumps == s.bumps + |EventsOf(env, s, StageOp(fw, who))|
    ensures Publish(env, s, fw).state.bumps == s.bumps + |EventsOf(env, s, PublishOp(fw))|
  {
    hide FirstFault, Rebuild, VersionDir, KeyOf;
  }

  // ----- quota -----

  ghost predicate WithinQuota(staged: map<Key, Staged>) {
    forall who :: |StagedBy(staged, who)| <= MAX_STAGED_PER_USER
  }

  /** Staging moves at most one unit: it is the submitter's, taken from whoever held the key. */
  lemma StagedByPut(staged: map<Key, Staged>, key: Key, entry: Staged, who: string)
    ensures StagedBy(staged[key := entry], who) ==
            if who == entry.submittedBy then StagedBy(staged, who) + {key} else StagedBy(staged, who) - {key}
    ensures |StagedBy(staged[key := entry], who)| ==
            |StagedBy(staged, who)|
            + (if who == entry.submittedBy && key !in StagedBy(staged, who) then 1 else 0)
            - (if who != entry.submittedBy && key in StagedBy(staged, who) then 1 else 0)
  {
    var was, now := StagedBy(staged, who), StagedBy(staged[key := entry], who);
    assert now == if who == entry.submittedBy then was + {key} else was - {key};
  }

  lemma RemovalQuota(staged: map<Key, Staged>, key: Key)
    requires WithinQuota(staged)
    ensures WithinQuota(staged - {key})
  {
    forall who ensures |StagedBy(staged - {key}, who)| <= MAX_STAGED_PER_USER {
      assert StagedBy(staged - {key}, who) == StagedBy(staged, who) - {key};
    }
  }

  lemma SubmissionQuota(staged: map<Key, Staged>, key: Key, entry: Staged)
    requires WithinQuota(staged) && !OverQuota(staged, key, entry.submittedBy)
    ensures WithinQuota(staged[key := entry])
  {
    var after := staged[key := entry];
    forall who ensures |StagedBy(after, who)| <= MAX_STAGED_PER_USER {
      StagedByPut(staged, key, entry, who);
    }
  }

  lemma SubmittedWithinQuota(env: Env, s: State, op: Op)
    requires EventsOf(env, s, op) != [] && EventsOf(env, s, op)[0].Submitted?
    ensures var e := EventsOf(env, s, op)[0]; !OverQuota(s.index.staged, e.key, e.entry.submittedBy)
  {
  }

  lemma StepQuota(env: Env, s: State, op: Op)
    requires Settled(env, s) && WithinQuota(s.index.staged)
    ensures WithinQuota(Step(env, s, op).index.staged)
  {
    StepFollows(env, s, op);
    var events := EventsOf(env, s, op);
    if events != [] {
      match events[0]
      case Submitted(key, entry) =>
        SubmittedWithinQuota(env, s, op);
        SubmissionQuota(s.index.staged, key, entry);
      case _ => RemovalQuota(s.index.staged, events[0].key);
    }
  }

  /** No user ever has more than 32 submissions awaiting review. */
  lemma {:induction false} QuotaOverRuns(env: Env, s: State, ops: seq<Op>)
    requires Settled(env, s) && WithinQuota(s.index.staged) && OrderlyRun(env, s, ops)
    ensures WithinQuota(Run(env, s, ops).index.staged)
  {
    if ops != [] {
      var init := ops[..|ops| - 1];
      RunSettled(env, s, init);
      QuotaOverRuns(env, s, init);
      StepQuota(env, Run(env, s, init), ops[|ops| - 1]);
    }
  }
}
