/** The store as the writer of the watch feeds. */
module StoreFeeds {
  import opened Basics
  import opened Manifests
  import opened Tree
  import opened StoreSpec
  import opened StoreCache
  import opened StoreRuns
  import opened Feeds

  /** Whatever a store operation does to the live set is a write the feeds rely on: it only
      adds well-keyed entries. */
  lemma StepOnlyGrows(env: Env, s: State, op: Op)
    requires Grounded(env, s)
    ensures WellKeyed(s.index.live)
    ensures WellKeyed(Step(env, s, op).index.live) && Grows(s.index.live, Step(env, s, op).index.live)
  {
    hide Step, Grounded;
    StepPreserves(env, s, op);
    GroundedKeyed(env, s);
    GroundedKeyed(env, Step(env, s, op));
  }

  lemma GroundedKeyed(env: Env, s: State)
    requires Grounded(env, s)
    ensures WellKeyed(s.index.live)
  {
  }

  /** What happens around one reader: a store operation, an announcement, a wake, a read. */
  datatype Act =
    | Operate(op: Op)
    | Announce
    | Rouse
    | Look

  /** The store once the operations are done; a restart would end the streams. */
  ghost function StoreAfter(env: Env, s: State, acts: seq<Act>): State
    decreases acts
  {
    if acts == [] then s
    else StoreAfter(env, if acts[0].Operate? then Step(env, s, acts[0].op) else s, acts[1..])
  }

  /** The same acts as the signal sees them: an operation that announces is a write. */
  ghost function Signals(env: Env, s: State, acts: seq<Act>): seq<Action<Catalogue>>
    decreases acts
  {
    if acts == [] then []
    else
      match acts[0]
      case Operate(op) =>
        var t := Step(env, s, op);
        (if t.bumps == s.bumps then [] else [Write(t.index.live)]) + Signals(env, t, acts[1..])
      case Announce => [Bump] + Signals(env, s, acts[1..])
      case Rouse => [Wake] + Signals(env, s, acts[1..])
      case Look => [Read] + Signals(env, s, acts[1..])
  }

  ghost predicate NoRestart(acts: seq<Act>) {
    forall a :: a in acts ==> a != Operate(ReopenOp)
  }

  /** An operation that announces nothing leaves the live set alone. */
  lemma Unannounced(env: Env, s: State, op: Op)
    requires Grounded(env, s) && op != ReopenOp && Step(env, s, op).bumps == s.bumps
    ensures Step(env, s, op).index.live == s.index.live
  {
    hide FirstFault, VersionDir, Rebuild, OverQuota, Copyable, ManifestIn, Abandoned, EnvOk;
  }

  /** A run of store operations is a growing run of the signal, and its current state the live set. */
  lemma {:induction false} SignalsGrow(env: Env, s: State, g: Signal<Catalogue>, acts: seq<Act>)
    requires Grounded(env, s) && NoRestart(acts) && g.current == s.index.live
    ensures OnlyGrows(g, Signals(env, s, acts))
    ensures Exec(g, Signals(env, s, acts)).current == StoreAfter(env, s, acts).index.live
    decreases acts
  {
    hide Grounded, Step, Grows, WellKeyed;
    if acts != [] {
      assert acts[0] in acts && forall a :: a in acts[1..] ==> a in acts;
      var signals := Signals(env, s, acts);
      match acts[0]
      case Operate(op) =>
        var t := Step(env, s, op);
        StepPreserves(env, s, op);
        StepOnlyGrows(env, s, op);
        if t.bumps == s.bumps {
          Unannounced(env, s, op);
          assert signals == Signals(env, t, acts[1..]);
          SignalsGrow(env, t, g, acts[1..]);
        } else {
          assert signals[0] == Write(t.index.live) && signals[1..] == Signals(env, t, acts[1..]);
          SignalsGrow(env, t, Next(g, signals[0]), acts[1..]);
        }
      case _ =>
        assert signals[1..] == Signals(env, s, acts[1..]);
        SignalsGrow(env, s, Next(g, signals[0]), acts[1..]);
    }
  }

  /** Over any interleaving of store operations, announcements, wakes and reads, what the feeds have
      sent is the catalogue at their last read, and the store's own catalogue whenever they are
      quiet. */
  lemma FeedsFollowStore(env: Env, s: State, g: Signal<Catalogue>, acts: seq<Act>, lists: seq<seq<Firmware>>,
                         device: Option<string>, slots: map<string, nat>)
    requires Grounded(env, s) && NoRestart(acts) && Subscribed(g) && g.current == s.index.live
    requires Legal(g, Signals(env, s, acts))
    requires ListsAll(lists, Exec(g, Signals(env, s, acts)).snaps, device) && lists != []
    ensures var t, live := Exec(g, Signals(env, s, acts)), StoreAfter(env, s, acts).index.live;
      && DistinctKeys(Emitted(lists))
      && Lists(Emitted(lists), t.snaps[|t.snaps| - 1], device)
      && ClientView(slots, t.snaps) == DeviceCounts(slots, t.snaps[|t.snaps| - 1])
      && (Quiet(t) ==> Lists(Emitted(lists), live, device) && ClientView(slots, t.snaps) == DeviceCounts(slots, live))
  {
    hide Grounded, Legal, OnlyGrows, Exec, Signals, StoreAfter, Lists, DistinctKeys;
    GroundedKeyed(env, s);
    SignalsGrow(env, s, g, acts);
    FeedsEqualFullView(g, Signals(env, s, acts), lists, device, slots);
  }
}
