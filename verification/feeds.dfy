/** The watch feeds: writers change the catalogue and then bump a generation; readers
    subscribe, snapshot, and send deltas. The signal protocol is shared; each feed is a
    fold over the snapshots its reader takes. */
module Feeds {
  import opened Basics
  import opened Manifests

  // ----- the signal -----

  /** `Starting` has subscribed and not read yet; `Blocked` waits on the generation;
      `Woken` has consumed it and not read yet. */
  datatype Phase = Starting | Blocked | Woken

  /** `unbumped` writers have changed `current` and not bumped yet; `snaps` are the
      snapshots this reader has taken, oldest first. */
  datatype Signal<T> = Signal(current: T, version: nat, unbumped: nat, seen: nat, phase: Phase, snaps: seq<T>)

  datatype Action<T> =
    | Write(next: T)
    | Bump
    | Wake
    | Read

  predicate Enabled<T>(s: Signal<T>, a: Action<T>) {
    match a
    case Write(_) => true
    case Bump => s.unbumped > 0
    case Wake => s.phase.Blocked? && s.seen != s.version
    case Read => !s.phase.Blocked?
  }

  function Next<T>(s: Signal<T>, a: Action<T>): Signal<T> {
    match a
    case Write(next) => s.(current := next, unbumped := s.unbumped + 1)
    case Bump => if s.unbumped > 0 then s.(unbumped := s.unbumped - 1, version := s.version + 1) else s
    case Wake => s.(seen := s.version, phase := Woken)
    case Read => s.(phase := Blocked, snaps := s.snaps + [s.current])
  }

  predicate Legal<T>(s: Signal<T>, run: seq<Action<T>>)
    decreases run
  {
    run == [] || (Enabled(s, run[0]) && Legal(Next(s, run[0]), run[1..]))
  }

  function Exec<T>(s: Signal<T>, run: seq<Action<T>>): Signal<T>
    decreases run
  {
    if run == [] then s else Exec(Next(s, run[0]), run[1..])
  }

  /** A reader subscribing at any moment, whatever writers are under way. */
  predicate Subscribed<T>(s: Signal<T>) {
    s.seen == s.version && s.phase.Starting? && s.snaps == []
  }

  /** The reader waits and no write is still to be announced. */
  predicate Quiet<T>(s: Signal<T>) {
    s.phase.Blocked? && s.seen == s.version && s.unbumped == 0
  }

  ghost predicate SignalInvariant<T>(s: Signal<T>) {
    && s.seen <= s.version
    && (s.snaps == [] <==> s.phase.Starting?)
    && (Quiet(s) ==> s.snaps[|s.snaps| - 1] == s.current)
  }

  /** Any interleaving of writers, bumps (coalesced or not), wakes and reads: a blocked reader
      with no write awaiting its bump has last read the current state. Streams that resend
      their whole state on every wake are therefore current whenever they are quiet. */
  lemma {:induction false} NoLostWakeup<T>(s: Signal<T>, run: seq<Action<T>>)
    requires SignalInvariant(s) && Legal(s, run)
    ensures SignalInvariant(Exec(s, run))
    decreases run
  {
    if run != [] {
      NoLostWakeup(Next(s, run[0]), run[1..]);
    }
  }

  // ----- a catalogue that only grows -----

  type Catalogue = map<Key, Firmware>

  ghost predicate WellKeyed(live: Catalogue) {
    forall k :: k in live ==> Claims(live[k], k)
  }

  /** `b` has every entry of `a`. */
  ghost predicate Grows(a: Catalogue, b: Catalogue) {
    forall k :: k in a ==> k in b && b[k] == a[k]
  }

  /** Every write of the run only adds well-keyed entries. */
  ghost predicate OnlyGrows(s: Signal<Catalogue>, run: seq<Action<Catalogue>>)
    decreases run
  {
    run == [] ||
    (&& (run[0].Write? ==> WellKeyed(run[0].next) && Grows(s.current, run[0].next))
     && OnlyGrows(Next(s, run[0]), run[1..]))
  }

  ghost predicate Chain(snaps: seq<Catalogue>) {
    && (forall i :: 0 <= i < |snaps| ==> WellKeyed(snaps[i]))
    && (forall i, j :: 0 <= i <= j < |snaps| ==> Grows(snaps[i], snaps[j]))
  }

  ghost predicate Growing(s: Signal<Catalogue>) {
    WellKeyed(s.current) && Chain(s.snaps) && forall i :: 0 <= i < |s.snaps| ==> Grows(s.snaps[i], s.current)
  }

  lemma {:induction false} SnapshotsGrow(s: Signal<Catalogue>, run: seq<Action<Catalogue>>)
    requires Growing(s) && OnlyGrows(s, run)
    ensures Growing(Exec(s, run))
    decreases run
  {
    if run != [] {
      SnapshotsGrow(Next(s, run[0]), run[1..]);
    }
  }

  // ----- the firmware feed -----

  function WireKey(fw: Firmware): Key { Key(fw.device.GetOr(""), fw.version.GetOr("")) }

  predicate Wanted(device: Option<string>, fw: Firmware) { device.None? || fw.device == device }

  /** `list(device)` of a catalogue, in some order. */
  ghost predicate Lists(list: seq<Firmware>, live: Catalogue, device: Option<string>) {
    && (forall fw :: fw in list <==> fw in live.Values && Wanted(device, fw))
    && DistinctKeys(list)
  }

  ghost predicate DistinctKeys(list: seq<Firmware>) {
    forall i, j :: 0 <= i < j < |list| ==> WireKey(list[i]) != WireKey(list[j])
  }

  /** In the order of the sorted map. */
  ghost predicate Ascending(list: seq<Firmware>) {
    forall i, j :: 0 <= i < j < |list| ==> KeyLess(WireKey(list[i]), WireKey(list[j]))
  }

  /** `list(device)`: the live manifests in key order, filtered. */
  method ListFirmware(live: Catalogue, device: Option<string>) returns (list: seq<Firmware>)
    requires WellKeyed(live)
    ensures Lists(list, live, device) && Ascending(list)
  {
    hide KeyLess;
    list := [];
    var rest := live.Keys;
    while rest != {}
      invariant rest <= live.Keys
      invariant forall i, j :: i in live && i !in rest && j in rest ==> KeyLess(i, j)
      invariant forall fw :: fw in list <==> exists k :: k in live && k !in rest && live[k] == fw && Wanted(device, fw)
      invariant DistinctKeys(list) && Ascending(list)
      decreases rest
    {
      MinExists(rest);
      var k :| k in rest && forall j :: j in rest && j != k ==> KeyLess(k, j);
      forall i | 0 <= i < |list|
        ensures KeyLess(WireKey(list[i]), WireKey(live[k])) && WireKey(list[i]) != WireKey(live[k])
      {
        assert list[i] in list;
        var j :| j in live && j !in rest && live[j] == list[i];
        assert WireKey(list[i]) == j && WireKey(live[k]) == k;
      }
      rest := rest - {k};
      if Wanted(device, live[k]) {
        list := list + [live[k]];
      }
    }
  }

  function KeysOf(list: seq<Firmware>): set<Key> { set fw | fw in list :: WireKey(fw) }

  /** By coordinates: a listing has exactly the live versions of the device asked for, or all of them. */
  lemma ListedKeys(list: seq<Firmware>, live: Catalogue, device: Option<string>)
    requires WellKeyed(live) && Lists(list, live, device)
    ensures KeysOf(list) == set k | k in live && (device == None || device == Some(k.device))
    ensures forall fw :: fw in list ==> live[WireKey(fw)] == fw
  {
    forall fw | fw in list
      ensures WireKey(fw) in live && live[WireKey(fw)] == fw && (device == None || device == Some(WireKey(fw).device))
    {
      var k :| k in live && live[k] == fw;
    }
    forall k | k in live && (device == None || device == Some(k.device)) ensures k in KeysOf(list) {
      assert live[k] in list && WireKey(live[k]) == k;
    }
  }

  /** The entries not sent before, in order. */
  function Additions(sent: set<Key>, list: seq<Firmware>): seq<Firmware>
    decreases list
  {
    if list == [] then []
    else
      var k := WireKey(list[0]);
      if k in sent then Additions(sent, list[1..])
      else [list[0]] + Additions(sent + {k}, list[1..])
  }

  /** Exactly one addition per key that is new, none for a key sent before. */
  lemma {:induction false} AdditionsFacts(sent: set<Key>, list: seq<Firmware>)
    ensures var r := Additions(sent, list);
      && (forall fw :: fw in r ==> fw in list && WireKey(fw) !in sent)
      && (forall fw :: fw in list && WireKey(fw) !in sent ==> WireKey(fw) in KeysOf(r))
      && DistinctKeys(r)
    decreases list
  {
    if list != [] {
      var k := WireKey(list[0]);
      var rest := if k in sent then Additions(sent, list[1..]) else Additions(sent + {k}, list[1..]);
      AdditionsFacts(if k in sent then sent else sent + {k}, list[1..]);
      forall fw | fw in list && WireKey(fw) !in sent ensures WireKey(fw) in KeysOf(Additions(sent, list)) {
        if WireKey(fw) == k {
          assert list[0] in Additions(sent, list);
        } else {
          assert fw in list[1..];
          var other :| other in rest && WireKey(other) == WireKey(fw);
          assert other in Additions(sent, list);
        }
      }
    }
  }

  class FirmwareFeed {
    const device: Option<string>
    var sent: set<Key>
    var first: bool

    constructor (device: Option<string>)
      ensures this.device == device && sent == {} && first
    {
      this.device, sent, first := device, {}, true;
    }

    /** One read of the loop: the batch to send, or nothing for a spurious wake. */
    method Poll(list: seq<Firmware>) returns (batch: Option<seq<Firmware>>)
      modifies this
      ensures sent == old(sent) + KeysOf(list)
      ensures batch == if old(first) || Additions(old(sent), list) != [] then Some(Additions(old(sent), list)) else None
      ensures first == (old(first) && batch.None?)
    {
      var additions: seq<Firmware> := [];
      for i := 0 to |list|
        invariant sent == old(sent) + KeysOf(list[..i])
        invariant additions + Additions(sent, list[i..]) == Additions(old(sent), list)
        invariant first == old(first)
      {
        var fw := list[i];
        PrefixKeys(list, i);
        AdditionsStep(sent, list, i, additions);
        if WireKey(fw) !in sent {
          sent := sent + {WireKey(fw)};
          additions := additions + [fw];
        }
      }
      assert list[..|list|] == list && list[|list|..] == [] && additions + [] == additions;
      if first || additions != [] {
        first := false;
        return Some(additions);
      }
      batch := None;
    }
  }

  lemma PrefixKeys(list: seq<Firmware>, i: nat)
    requires i < |list|
    ensures KeysOf(list[..i + 1]) == KeysOf(list[..i]) + {WireKey(list[i])}
  {
    assert list[..i + 1] == list[..i] + [list[i]];
  }

  lemma AdditionsStep(sent: set<Key>, list: seq<Firmware>, i: nat, done: seq<Firmware>)
    requires i < |list|
    ensures var k := WireKey(list[i]);
      done + Additions(sent, list[i..]) ==
      if k in sent then done + Additions(sent, list[i + 1..])
      else (done + [list[i]]) + Additions(sent + {k}, list[i + 1..])
  {
    assert list[i..][0] == list[i] && list[i..][1..] == list[i + 1..];
  }

  function SentAfter(lists: seq<seq<Firmware>>): set<Key> {
    if lists == [] then {} else SentAfter(lists[..|lists| - 1]) + KeysOf(lists[|lists| - 1])
  }

  /** Everything the feed has sent after reading `lists` in turn. */
  function Emitted(lists: seq<seq<Firmware>>): seq<Firmware> {
    if lists == [] then []
    else
      var init := lists[..|lists| - 1];
      Emitted(init) + Additions(SentAfter(init), lists[|lists| - 1])
  }

  ghost predicate ListsAll(lists: seq<seq<Firmware>>, snaps: seq<Catalogue>, device: Option<string>) {
    |lists| == |snaps| && forall i :: 0 <= i < |snaps| ==> Lists(lists[i], snaps[i], device)
  }

  lemma {:induction false} SentAreLast(lists: seq<seq<Firmware>>, snaps: seq<Catalogue>, device: Option<string>)
    requires Chain(snaps) && ListsAll(lists, snaps, device) && lists != []
    ensures SentAfter(lists) == KeysOf(lists[|lists| - 1])
  {
    var init := lists[..|lists| - 1];
    if init != [] {
      SentAreLast(init, snaps[..|snaps| - 1], device);
      var was, now := init[|init| - 1], lists[|lists| - 1];
      assert Grows(snaps[|snaps| - 2], snaps[|snaps| - 1]);
      forall fw | fw in was ensures fw in now {
        assert Lists(was, snaps[|snaps| - 2], device) && Lists(now, snaps[|snaps| - 1], device);
        var k :| k in snaps[|snaps| - 2] && snaps[|snaps| - 2][k] == fw;
        assert snaps[|snaps| - 1][k] == fw;
      }
    }
  }

  /** Each key is sent exactly once, and all that was sent is exactly the last snapshot. */
  lemma {:induction false} FirmwareFeedExact(lists: seq<seq<Firmware>>, snaps: seq<Catalogue>, device: Option<string>)
    requires Chain(snaps) && ListsAll(lists, snaps, device) && lists != []
    ensures DistinctKeys(Emitted(lists))
    ensures Lists(Emitted(lists), snaps[|snaps| - 1], device)
  {
    var init, last := lists[..|lists| - 1], lists[|lists| - 1];
    var live := snaps[|snaps| - 1];
    assert Lists(last, live, device);
    if init == [] {
      assert Emitted(init) == [] && Emitted(lists) == Additions({}, last);
      AdditionsFacts({}, last);
      AdditionsLists({}, last, live, device);
    } else {
      var before := snaps[|snaps| - 2];
      FirmwareFeedExact(init, snaps[..|snaps| - 1], device);
      SentAreLast(init, snaps[..|snaps| - 1], device);
      assert Lists(init[|init| - 1], before, device) && Grows(before, live);
      ExtendEmitted(Emitted(init), init[|init| - 1], before, last, live, device);
    }
  }

  lemma AdditionsLists(sent: set<Key>, list: seq<Firmware>, live: Catalogue, device: Option<string>)
    requires WellKeyed(live) && Lists(list, live, device)
    ensures forall fw :: fw in Additions(sent, list) <==> fw in list && WireKey(fw) !in sent
  {
    AdditionsFacts(sent, list);
    forall fw | fw in list && WireKey(fw) !in sent ensures fw in Additions(sent, list) {
      var other :| other in Additions(sent, list) && WireKey(other) == WireKey(fw);
      var k :| k in live && live[k] == fw;
      assert other in list;
      var j :| j in live && live[j] == other;
      assert k == WireKey(fw) == WireKey(other) == j;
    }
  }

  lemma ExtendEmitted(emitted: seq<Firmware>, was: seq<Firmware>, before: Catalogue,
                      now: seq<Firmware>, live: Catalogue, device: Option<string>)
    requires WellKeyed(before) && WellKeyed(live) && Grows(before, live)
    requires Lists(emitted, before, device) && Lists(was, before, device) && Lists(now, live, device)
    ensures Lists(emitted + Additions(KeysOf(was), now), live, device)
  {
    AdditionsFacts(KeysOf(was), now);
    AdditionsLists(KeysOf(was), now, live, device);
    var all := emitted + Additions(KeysOf(was), now);
    forall fw | fw in now && WireKey(fw) in KeysOf(was) ensures fw in emitted {
      var other :| other in was && WireKey(other) == WireKey(fw);
      var k :| k in live && live[k] == fw;
      var j :| j in before && before[j] == other;
      assert j == WireKey(other) == WireKey(fw) == k;
    }
    forall fw | fw in emitted ensures fw in now && WireKey(fw) in KeysOf(was) {
      var k :| k in before && before[k] == fw;
      assert live[k] == fw && fw in was;
    }
    forall i, j | 0 <= i < j < |all| ensures WireKey(all[i]) != WireKey(all[j]) {
      if i < |emitted| <= j {
        assert all[i] in emitted && all[j] in Additions(KeysOf(was), now);
      }
    }
  }

  function Flatten(batches: seq<seq<Firmware>>): seq<Firmware> {
    if batches == [] then [] else Flatten(batches[..|batches| - 1]) + batches[|batches| - 1]
  }

  /** The whole stream: one read per list, a batch sent when there is one. Together the batches are
      what the feed has to send, and only the first may be empty. */
  method FollowFirmware(device: Option<string>, lists: seq<seq<Firmware>>) returns (batches: seq<seq<Firmware>>)
    ensures Flatten(batches) == Emitted(lists)
    ensures (batches == [] <==> lists == []) && forall k :: 0 < k < |batches| ==> batches[k] != []
  {
    var feed := new FirmwareFeed(device);
    batches := [];
    for i := 0 to |lists|
      invariant fresh(feed)
      invariant feed.sent == SentAfter(lists[..i]) && Flatten(batches) == Emitted(lists[..i])
      invariant (feed.first <==> i == 0) && (batches == [] <==> i == 0)
      invariant forall k :: 0 < k < |batches| ==> batches[k] != []
    {
      assert lists[..i + 1][..i] == lists[..i];
      var batch := feed.Poll(lists[i]);
      match batch {
        case Some(b) =>
          assert (batches + [b])[..|batches|] == batches;
          batches := batches + [b];
        case None =>
      }
    }
    assert lists[..|lists|] == lists;
  }

  // ----- the device feed -----

  /** The devices with at least one live version, each with how many. */
  ghost function DeviceCounts(slots: map<string, nat>, live: Catalogue): (m: map<string, nat>)
    ensures Counts(m, slots, live)
  {
    assert Counts(map d | d in slots && VersionsOf(live, d) != {} :: |VersionsOf(live, d)|, slots, live);
    var m :| Counts(m, slots, live);
    m
  }

  ghost predicate Counts(m: map<string, nat>, slots: map<string, nat>, live: Catalogue) {
    && m.Keys == (set d | d in slots && VersionsOf(live, d) != {})
    && forall d :: d in m ==> m[d] == |VersionsOf(live, d)|
  }

  ghost function VersionsOf(live: Catalogue, device: string): set<Key> {
    set k | k in live && live[k].device == Some(device)
  }

  /** By coordinates: a catalogued device is listed with the number of its live keys, if it has any. */
  lemma CountedKeys(slots: map<string, nat>, live: Catalogue, d: string)
    requires WellKeyed(live)
    ensures var keys := set k | k in live && k.device == d;
      && (d in DeviceCounts(slots, live) <==> d in slots && keys != {})
      && (d in DeviceCounts(slots, live) ==> DeviceCounts(slots, live)[d] == |keys|)
  {
    assert VersionsOf(live, d) == set k | k in live && k.device == d;
  }

  /** `devices()`: count the live versions of each device, then keep the catalogued ones. */
  method Devices(slots: map<string, nat>, live: Catalogue) returns (counts: map<string, nat>)
    ensures counts == DeviceCounts(slots, live)
  {
    var tally: map<string, nat> := map[];
    var rest := live.Keys;
    ghost var seen: Catalogue := map[];
    while rest != {}
      invariant rest <= live.Keys && seen == live - rest
      invariant Tallies(tally, seen)
      decreases rest
    {
      var k :| k in rest;
      rest := rest - {k};
      TallyOne(tally, seen, k, live[k]);
      if live[k].device.Some? {
        var d := live[k].device.value;
        tally := tally[d := (if d in tally then tally[d] else 0) + 1];
      }
      seen := seen[k := live[k]];
    }
    assert seen == live;
    counts := tally - (set d | d in tally && d !in slots);
  }

  ghost predicate Tallies(tally: map<string, nat>, seen: Catalogue) {
    && (forall d :: d in tally <==> VersionsOf(seen, d) != {})
    && (forall d :: d in tally ==> tally[d] == |VersionsOf(seen, d)|)
  }

  lemma TallyOne(tally: map<string, nat>, seen: Catalogue, k: Key, fw: Firmware)
    requires Tallies(tally, seen) && k !in seen
    ensures fw.device.None? ==> Tallies(tally, seen[k := fw])
    ensures fw.device.Some? ==>
      var d := fw.device.value;
      Tallies(tally[d := (if d in tally then tally[d] else 0) + 1], seen[k := fw])
  {
    hide VersionsOf;
    var after := seen[k := fw];
    forall d
      ensures |VersionsOf(after, d)| == |VersionsOf(seen, d)| + (if fw.device == Some(d) then 1 else 0)
      ensures VersionsOf(after, d) == {} <==> VersionsOf(seen, d) == {} && fw.device != Some(d)
    {
      VersionsPut(seen, k, fw, d);
    }
  }

  /** A new version counts once, for its own device only. */
  lemma VersionsPut(seen: Catalogue, k: Key, fw: Firmware, d: string)
    requires k !in seen
    ensures |VersionsOf(seen[k := fw], d)| == |VersionsOf(seen, d)| + (if fw.device == Some(d) then 1 else 0)
    ensures VersionsOf(seen[k := fw], d) == {} <==> VersionsOf(seen, d) == {} && fw.device != Some(d)
  {
    assert VersionsOf(seen[k := fw], d) == VersionsOf(seen, d) + (if fw.device == Some(d) then {k} else {});
  }

  /** The devices whose count is new or different. */
  function Changed(sent: map<string, nat>, counts: map<string, nat>): map<string, nat> {
    counts - (set d | d in counts && d in sent && sent[d] == counts[d])
  }

  class DeviceFeed {
    var sent: map<string, nat>
    var first: bool

    constructor ()
      ensures sent == map[] && first
    {
      sent, first := map[], true;
    }

    method Poll(counts: map<string, nat>) returns (batch: Option<map<string, nat>>)
      modifies this
      ensures sent == old(sent) + counts
      ensures var changed := Changed(old(sent), counts);
        batch == if old(first) || changed != map[] then Some(changed) else None
      ensures first == (old(first) && batch.None?)
    {
      hide Changed;
      var changed: map<string, nat> := map[];
      var rest := counts.Keys;
      ghost var before := sent;
      CountStart(before, counts);
      while rest != {}
        invariant rest <= counts.Keys && first == old(first)
        invariant sent == before + (counts - rest)
        invariant changed == Changed(before, counts) - rest
        decreases rest
      {
        var d :| d in rest;
        CountStep(before, counts, rest, d);
        rest := rest - {d};
        var was := if d in sent then Some(sent[d]) else None;
        sent := sent[d := counts[d]];
        if was != Some(counts[d]) {
          changed := changed[d := counts[d]];
        }
      }
      CountEnd(before, counts);
      if first || changed != map[] {
        first := false;
        return Some(changed);
      }
      batch := None;
    }
  }

  lemma CountStart(before: map<string, nat>, counts: map<string, nat>)
    ensures before + (counts - counts.Keys) == before && Changed(before, counts) - counts.Keys == map[]
  {
  }

  lemma CountEnd(before: map<string, nat>, counts: map<string, nat>)
    ensures counts - {} == counts && Changed(before, counts) - {} == Changed(before, counts)
  {
  }

  /** Visiting one more device: recorded as sent, and in the batch if it differs from what was sent. */
  lemma CountStep(before: map<string, nat>, counts: map<string, nat>, rest: set<string>, d: string)
    requires rest <= counts.Keys && d in rest
    ensures before + (counts - (rest - {d})) == (before + (counts - rest))[d := counts[d]]
    ensures d in before + (counts - rest) <==> d in before
    ensures d in before ==> (before + (counts - rest))[d] == before[d]
    ensures Changed(before, counts) - (rest - {d}) ==
            if d in before && before[d] == counts[d] then Changed(before, counts) - rest
            else (Changed(before, counts) - rest)[d := counts[d]]
  {
  }

  /** The client merges every batch by device id. */
  ghost function ClientView(slots: map<string, nat>, snaps: seq<Catalogue>): map<string, nat> {
    if snaps == [] then map[]
    else
      var view := ClientView(slots, snaps[..|snaps| - 1]);
      view + Changed(SentCounts(slots, snaps[..|snaps| - 1]), DeviceCounts(slots, snaps[|snaps| - 1]))
  }

  ghost function SentCounts(slots: map<string, nat>, snaps: seq<Catalogue>): map<string, nat> {
    if snaps == [] then map[] else SentCounts(slots, snaps[..|snaps| - 1]) + DeviceCounts(slots, snaps[|snaps| - 1])
  }

  /** The whole stream as the client sees it: one read per snapshot, every batch merged. */
  method FollowDevices(slots: map<string, nat>, snaps: seq<Catalogue>) returns (view: map<string, nat>)
    ensures view == ClientView(slots, snaps)
  {
    hide Changed;
    var feed := new DeviceFeed();
    view := map[];
    for i := 0 to |snaps|
      invariant fresh(feed)
      invariant feed.sent == SentCounts(slots, snaps[..i]) && view == ClientView(slots, snaps[..i])
    {
      assert snaps[..i + 1][..i] == snaps[..i];
      var counts := Devices(slots, snaps[i]);
      var batch := feed.Poll(counts);
      match batch {
        case Some(changed) => view := view + changed;
        case None => assert view + map[] == view;
      }
    }
    assert snaps[..|snaps|] == snaps;
  }

  lemma GrowingCounts(slots: map<string, nat>, a: Catalogue, b: Catalogue)
    requires Grows(a, b)
    ensures DeviceCounts(slots, a).Keys <= DeviceCounts(slots, b).Keys
  {
    forall d | d in DeviceCounts(slots, a) ensures VersionsOf(b, d) != {} {
      var k :| k in VersionsOf(a, d);
      assert k in VersionsOf(b, d);
    }
  }

  /** The merged batches are exactly the per-device counts of the last snapshot. */
  lemma {:induction false} DeviceFeedExact(slots: map<string, nat>, snaps: seq<Catalogue>)
    requires Chain(snaps) && snaps != []
    ensures ClientView(slots, snaps) == DeviceCounts(slots, snaps[|snaps| - 1])
    ensures SentCounts(slots, snaps) == DeviceCounts(slots, snaps[|snaps| - 1])
  {
    var init, live := snaps[..|snaps| - 1], snaps[|snaps| - 1];
    if init != [] {
      DeviceFeedExact(slots, init);
      GrowingCounts(slots, init[|init| - 1], live);
      MergeChanged(DeviceCounts(slots, init[|init| - 1]), DeviceCounts(slots, live));
    } else {
      MergeChanged(map[], DeviceCounts(slots, live));
    }
  }

  lemma MergeChanged(was: map<string, nat>, now: map<string, nat>)
    requires was.Keys <= now.Keys
    ensures was + Changed(was, now) == now && was + now == now
  {
  }

  // ----- feeds over the protocol -----

  /** In every reachable state both feeds have delivered exactly their last snapshot; a blocked
      reader with no write awaiting its bump has delivered the current catalogue. */
  lemma FeedsEqualFullView(s: Signal<Catalogue>, run: seq<Action<Catalogue>>, lists: seq<seq<Firmware>>,
                           device: Option<string>, slots: map<string, nat>)
    requires Subscribed(s) && WellKeyed(s.current) && Legal(s, run) && OnlyGrows(s, run)
    requires ListsAll(lists, Exec(s, run).snaps, device) && Exec(s, run).snaps != []
    ensures var t := Exec(s, run);
      && DistinctKeys(Emitted(lists))
      && Lists(Emitted(lists), t.snaps[|t.snaps| - 1], device)
      && ClientView(slots, t.snaps) == DeviceCounts(slots, t.snaps[|t.snaps| - 1])
      && (Quiet(t) ==>
            Lists(Emitted(lists), t.current, device) && ClientView(slots, t.snaps) == DeviceCounts(slots, t.current))
  {
    NoLostWakeup(s, run);
    SnapshotsGrow(s, run);
    var t := Exec(s, run);
    FirmwareFeedExact(lists, t.snaps, device);
    DeviceFeedExact(slots, t.snaps);
  }
}
