/** Device-flow sign-in: two linked maps, expiry, one-shot delivery. */
module LoginStore {
  import opened Basics
  import opened Names

  const EXPIRES_NANOS: int := 600_000_000_000
  const MAX_PENDING: nat := 4096
  const MAX_LABEL: nat := 128

  datatype Status = Pending | Approved(token: string, username: string) | Denied

  datatype Entry = Entry(userCode: string, caption: string, created: int, status: Status) {
    predicate Expired(now: int) { now - created > EXPIRES_NANOS }

    predicate Open(now: int) { !Expired(now) && status.Pending? }
  }

  datatype Logins = Logins(byDevice: map<string, Entry>, byUser: map<string, string>)

  datatype PollResult = StillPending | Granted(token: string, username: string) | Refused | Gone

  datatype Decision = Accepted | NotPending | MintFailed

  datatype BeginError = TooManyPending | Rng

  /** Letters and digits only, upper-cased: the form codes are looked up by. */
  function Normalize(code: string): (r: string)
    ensures forall i :: 0 <= i < |r| ==> IsAlphanumeric(r[i]) && ToUpper(r[i]) == r[i]
  {
    if code == "" then ""
    else if IsAlphanumeric(code[0]) then [ToUpper(code[0])] + Normalize(code[1..])
    else Normalize(code[1..])
  }

  function CleanLabel(caption: string): string {
    var t := Trim(caption);
    if t == "" then "a device" else if |t| <= MAX_LABEL then t else t[..MAX_LABEL]
  }

  // ----- what each call does -----

  /** The expired requests, but for those in `rest`. */
  function ExpiredIn(l: Logins, rest: set<string>, now: int): set<string> {
    set d | d in l.byDevice && d !in rest && l.byDevice[d].Expired(now)
  }

  function Swept(l: Logins, now: int): Logins {
    Logins(l.byDevice - (set d | d in l.byDevice && l.byDevice[d].Expired(now)),
           l.byUser - (set d | d in l.byDevice && l.byDevice[d].Expired(now) :: l.byDevice[d].userCode))
  }

  function InsertUser(l: Logins, key: string, device: string): Logins {
    l.(byUser := l.byUser[key := device])
  }

  function InsertDevice(l: Logins, key: string, device: string, caption: string, now: int): Logins {
    l.(byDevice := l.byDevice[device := Entry(key, caption, now, Pending)])
  }

  function AfterBegin(l: Logins, caption: string, codes: Option<(string, string)>, now: int)
    : (Logins, Result<(string, string), BeginError>)
  {
    var s := Swept(l, now);
    if |s.byDevice| >= MAX_PENDING then (s, Err(TooManyPending))
    else if codes.None? then (s, Err(Rng))
    else
      var (device, user) := codes.value;
      (InsertDevice(InsertUser(s, Normalize(user), device), Normalize(user), device, CleanLabel(caption), now),
       Ok(codes.value))
  }

  /** Forget a request in both maps. */
  function Removed(l: Logins, device: string): Logins
    requires device in l.byDevice
  {
    Logins(l.byDevice - {device}, l.byUser - {l.byDevice[device].userCode})
  }

  function AfterPoll(l: Logins, device: string, now: int): (Logins, PollResult) {
    if device !in l.byDevice then (l, Gone)
    else
      var e := l.byDevice[device];
      if e.Expired(now) then (Removed(l, device), Gone)
      else
        match e.status
        case Pending => (l, StillPending)
        case Denied => (l, Refused)
        case Approved(token, username) => (Removed(l, device), Granted(token, username))
  }

  /** The request a user code decides on, if it is pending and live. */
  function Target(l: Logins, user: string, now: int): Option<string> {
    var key := Normalize(user);
    if key in l.byUser && l.byUser[key] in l.byDevice && l.byDevice[l.byUser[key]].Open(now) then Some(l.byUser[key])
    else None
  }

  function Decided(l: Logins, device: string, status: Status): Logins
    requires device in l.byDevice
  {
    l.(byDevice := l.byDevice[device := l.byDevice[device].(status := status)])
  }

  /** `minted` is what the mint closure would return; it runs only for an open request. */
  function AfterApprove(l: Logins, user: string, username: string, minted: Option<string>, now: int)
    : (Logins, Decision)
  {
    match Target(l, user, now)
    case None => (l, NotPending)
    case Some(device) =>
      if minted.None? then (l, MintFailed)
      else (Decided(l, device, Approved(minted.value, username)), Accepted)
  }

  function AfterDeny(l: Logins, user: string, now: int): (Logins, bool) {
    match Target(l, user, now)
    case None => (l, false)
    case Some(device) => (Decided(l, device, Denied), true)
  }

  // ----- the linked-map invariant -----

  /** The two maps are inverse to each other. */
  ghost predicate Linked(l: Logins) {
    && DevicesLinked(l)
    && forall u :: u in l.byUser ==> l.byUser[u] in l.byDevice && l.byDevice[l.byUser[u]].userCode == u
  }

  /** Every request can be found by its user code. */
  ghost predicate DevicesLinked(l: Logins) {
    forall d :: d in l.byDevice ==> l.byDevice[d].userCode in l.byUser && l.byUser[l.byDevice[d].userCode] == d
  }

  ghost predicate Wf(l: Logins) { Linked(l) && |l.byDevice| <= MAX_PENDING }

  /** The sweep keeps exactly the unexpired requests and exactly their user codes. */
  lemma SweepExact(l: Logins, now: int)
    requires Linked(l)
    ensures Linked(Swept(l, now)) && |Swept(l, now).byDevice| <= |l.byDevice|
    ensures forall d :: d in Swept(l, now).byDevice <==> d in l.byDevice && !l.byDevice[d].Expired(now)
    ensures forall u :: u in Swept(l, now).byUser <==> u in l.byUser && !l.byDevice[l.byUser[u]].Expired(now)
  {
    var s := Swept(l, now);
    forall u | u in l.byUser ensures u in s.byUser <==> !l.byDevice[l.byUser[u]].Expired(now) {
      if u !in s.byUser {
        var d :| d in l.byDevice && l.byDevice[d].Expired(now) && l.byDevice[d].userCode == u;
        assert l.byUser[u] == d;
      }
    }
    assert s.byDevice.Keys <= l.byDevice.Keys;
    SubsetSize(s.byDevice.Keys, l.byDevice.Keys);
  }

  /** The codes drawn are unused: no other request has them. */
  ghost predicate FreshCodes(l: Logins, device: string, user: string) {
    device !in l.byDevice && Normalize(user) !in l.byUser
  }

  /** Inserting a request under unused codes links it and nothing else. */
  lemma InsertKeeps(l: Logins, device: string, key: string, caption: string, now: int)
    requires Linked(l) && device !in l.byDevice && key !in l.byUser
    ensures var t := InsertDevice(InsertUser(l, key, device), key, device, caption, now);
      Linked(t) && |t.byDevice| == |l.byDevice| + 1
  {
    var t := InsertDevice(InsertUser(l, key, device), key, device, caption, now);
    forall d | d in t.byDevice ensures t.byDevice[d].userCode in t.byUser && t.byUser[t.byDevice[d].userCode] == d {
      assert d != device ==> l.byDevice[d].userCode != key;
    }
    forall u | u in t.byUser ensures t.byUser[u] in t.byDevice && t.byDevice[t.byUser[u]].userCode == u {
      assert u != key ==> l.byUser[u] != device;
    }
  }

  lemma SweepFresh(l: Logins, now: int, device: string, key: string)
    requires device !in l.byDevice && key !in l.byUser
    ensures device !in Swept(l, now).byDevice && key !in Swept(l, now).byUser
  {
  }

  lemma BeginKeeps(l: Logins, caption: string, codes: Option<(string, string)>, now: int)
    requires Wf(l) && (codes.Some? ==> FreshCodes(l, codes.value.0, codes.value.1))
    ensures Wf(AfterBegin(l, caption, codes, now).0)
    ensures codes.Some? ==>
      (AfterBegin(l, caption, codes, now).1.Ok? <==>
         |set d | d in l.byDevice && now - l.byDevice[d].created <= 600_000_000_000| < 4096)
    ensures AfterBegin(l, caption, codes, now).1 == Err(TooManyPending) <==>
      |set d | d in l.byDevice && now - l.byDevice[d].created <= 600_000_000_000| >= 4096
  {
    hide Linked, Normalize, CleanLabel, Swept;
    SweepExact(l, now);
    var s := Swept(l, now);
    assert s.byDevice.Keys == set d | d in l.byDevice && now - l.byDevice[d].created <= 600_000_000_000;
    if codes.Some? {
      var (device, user) := codes.value;
      SweepFresh(l, now, device, Normalize(user));
      InsertKeeps(s, device, Normalize(user), CleanLabel(caption), now);
    }
  }

  lemma RemovedKeeps(l: Logins, device: string)
    requires Linked(l) && device in l.byDevice
    ensures Linked(Removed(l, device))
  {
  }

  lemma PollKeeps(l: Logins, device: string, now: int)
    requires Wf(l)
    ensures Wf(AfterPoll(l, device, now).0)
  {
    if device in l.byDevice {
      RemovedKeeps(l, device);
    }
  }

  lemma DecideKeeps(l: Logins, user: string, username: string, minted: Option<string>, now: int)
    requires Wf(l)
    ensures Wf(AfterApprove(l, user, username, minted, now).0) && Wf(AfterDeny(l, user, now).0)
    ensures AfterApprove(l, user, username, minted, now).0.byDevice.Keys == l.byDevice.Keys
  {
    if Target(l, user, now).Some? {
      var device := Target(l, user, now).value;
      assert l.byDevice.Keys + {device} == l.byDevice.Keys;
    }
  }

  // ----- lookups tolerate decoration -----

  lemma {:induction false} NormalizeIdempotent(code: string)
    ensures Normalize(Normalize(code)) == Normalize(code)
    ensures Normalize(LowerAll(code)) == Normalize(code)
  {
    if code != "" {
      NormalizeIdempotent(code[1..]);
      if IsAlphanumeric(code[0]) {
        var n := Normalize(code);
        assert n[0] == ToUpper(code[0]) && n[1..] == Normalize(code[1..]);
      }
      assert LowerAll(code)[0] == ToLower(code[0]) && LowerAll(code)[1..] == LowerAll(code[1..]);
    }
  }

  lemma {:induction false} NormalizeConcat(a: string, b: string)
    ensures Normalize(a + b) == Normalize(a) + Normalize(b)
  {
    if a == "" {
      assert a + b == b;
    } else {
      assert (a + b)[0] == a[0] && (a + b)[1..] == a[1..] + b;
      NormalizeConcat(a[1..], b);
    }
  }

  /** Separators may be put in or left out anywhere. */
  lemma NormalizeIgnores(a: string, decoration: string, b: string)
    requires forall i :: 0 <= i < |decoration| ==> !IsAlphanumeric(decoration[i])
    ensures Normalize(a + decoration + b) == Normalize(a + b)
  {
    NormalizeConcat(a + decoration, b);
    NormalizeConcat(a, decoration);
    NormalizeConcat(a, b);
    NormalizeDrops(decoration);
  }

  lemma {:induction false} NormalizeDrops(s: string)
    requires forall i :: 0 <= i < |s| ==> !IsAlphanumeric(s[i])
    ensures Normalize(s) == ""
  {
    if s != "" {
      NormalizeDrops(s[1..]);
    }
  }

  /** Two codes lead to the same request exactly when their letters and digits agree up to case. */
  lemma CodesAlike(a: string, b: string)
    ensures Normalize(a) == Normalize(b) <==>
      SameText(Filter(a, (c: char) => IsAlphanumeric(c)), Filter(b, (c: char) => IsAlphanumeric(c)))
  {
    var alphanumeric := (c: char) => IsAlphanumeric(c);
    NormalizeRaises(a);
    NormalizeRaises(b);
    UpperAlike(Filter(a, alphanumeric), Filter(b, alphanumeric));
  }

  function UpperAll(s: string): (r: string)
    ensures |r| == |s| && forall i :: 0 <= i < |s| ==> r[i] == ToUpper(s[i])
  {
    if s == "" then "" else [ToUpper(s[0])] + UpperAll(s[1..])
  }

  lemma {:induction false} NormalizeRaises(code: string)
    ensures Normalize(code) == UpperAll(Filter(code, (c: char) => IsAlphanumeric(c)))
  {
    if code != "" {
      NormalizeRaises(code[1..]);
    }
  }

  lemma UpperAlike(a: string, b: string)
    ensures UpperAll(a) == UpperAll(b) <==> SameText(a, b)
  {
    hide SameLetter, ToUpper;
    if |a| == |b| {
      forall i | 0 <= i < |a| ensures ToUpper(a[i]) == ToUpper(b[i]) <==> SameLetter(a[i], b[i]) {
        FoldsAlike(a[i], b[i]);
      }
      if SameText(a, b) {
        assert forall i :: 0 <= i < |a| ==> UpperAll(a)[i] == UpperAll(b)[i];
      } else {
        var i :| 0 <= i < |a| && !SameLetter(a[i], b[i]);
        assert UpperAll(a)[i] != UpperAll(b)[i];
      }
    }
  }

  /** The label shown for a request: never empty, at most 128 characters, all from the trimmed text. */
  lemma LabelShape(caption: string)
    ensures var shown := CleanLabel(caption);
      && 0 < |shown| <= 128
      && (AllSpace(caption) ==> shown == "a device")
      && (!AllSpace(caption) ==> shown <= Trim(caption) && (shown == Trim(caption) || |shown| == 128))
  {
    TrimCuts(caption);
    var n: nat, m: nat :| CutOf(Trim(caption), caption, n, m);
    if AllSpace(caption) {
      TrimPadded(caption, "", "");
      assert caption + "" + "" == caption;
    } else if Trim(caption) == "" {
      assert caption == caption[..n] + caption[m..];
    }
  }

  // ----- the store -----

  class LoginTable {
    var byDevice: map<string, Entry>
    var byUser: map<string, string>
    /** Decision notifications sent so far. */
    var bumps: nat

    ghost function Now(): Logins
      reads this
    {
      Logins(byDevice, byUser)
    }

    constructor ()
      ensures Now() == Logins(map[], map[]) && bumps == 0
    {
      byDevice, byUser, bumps := map[], map[], 0;
    }

    method SweepExpired(now: int)
      modifies this`byDevice, this`byUser
      ensures Now() == Swept(old(Now()), now)
    {
      var rest := byDevice.Keys;
      ghost var before := Now();
      ghost var gone: set<string> := {};
      while rest != {}
        invariant rest <= before.byDevice.Keys
        invariant byDevice == before.byDevice - ExpiredIn(before, rest, now)
        invariant gone == set d | d in ExpiredIn(before, rest, now) :: before.byDevice[d].userCode
        invariant byUser == before.byUser - gone
        decreases rest
      {
        var d :| d in rest;
        rest := rest - {d};
        var e := byDevice[d];
        if e.Expired(now) {
          assert before.byUser - gone - {e.userCode} == before.byUser - (gone + {e.userCode});
          byUser, gone := byUser - {e.userCode}, gone + {e.userCode};
          byDevice := byDevice - {d};
        }
      }
      assert gone == set d | d in before.byDevice && before.byDevice[d].Expired(now) :: before.byDevice[d].userCode;
    }

    method Begin(caption: string, codes: Option<(string, string)>, now: int)
      returns (r: Result<(string, string), BeginError>)
      modifies this
      ensures (Now(), r) == AfterBegin(old(Now()), caption, codes, now) && bumps == old(bumps)
    {
      SweepExpired(now);
      if |byDevice| >= MAX_PENDING {
        return Err(TooManyPending);
      }
      if codes.None? {
        return Err(Rng);
      }
      var (device, user) := codes.value;
      var key := Normalize(user);
      byUser := byUser[key := device];
      byDevice := byDevice[device := Entry(key, CleanLabel(caption), now, Pending)];
      r := Ok(codes.value);
    }

    method Poll(device: string, now: int) returns (r: PollResult)
      modifies this
      ensures (Now(), r) == AfterPoll(old(Now()), device, now) && bumps == old(bumps)
    {
      if device !in byDevice {
        return Gone;
      }
      var e := byDevice[device];
      if e.Expired(now) {
        byDevice, byUser := byDevice - {device}, byUser - {e.userCode};
        return Gone;
      }
      match e.status {
        case Pending => return StillPending;
        case Denied => return Refused;
        case Approved(token, username) =>
          byDevice, byUser := byDevice - {device}, byUser - {e.userCode};
          return Granted(token, username);
      }
    }

    method Approve(user: string, username: string, minted: Option<string>, now: int) returns (r: Decision)
      modifies this
      ensures (Now(), r) == AfterApprove(old(Now()), user, username, minted, now)
      ensures bumps == old(bumps) + if r.Accepted? then 1 else 0
    {
      var key := Normalize(user);
      if key !in byUser {
        return NotPending;
      }
      var device := byUser[key];
      if device in byDevice && !byDevice[device].Expired(now) && byDevice[device].status.Pending? {
        if minted.None? {
          return MintFailed;
        }
        byDevice := byDevice[device := byDevice[device].(status := Approved(minted.value, username))];
        bumps := bumps + 1;
        return Accepted;
      }
      r := NotPending;
    }

    method Deny(user: string, now: int) returns (denied: bool)
      modifies this
      ensures (Now(), denied) == AfterDeny(old(Now()), user, now)
      ensures bumps == old(bumps) + if denied then 1 else 0
    {
      var key := Normalize(user);
      if key !in byUser {
        return false;
      }
      var device := byUser[key];
      if device in byDevice && !byDevice[device].Expired(now) && byDevice[device].status.Pending? {
        byDevice := byDevice[device := byDevice[device].(status := Denied)];
        bumps := bumps + 1;
        return true;
      }
      denied := false;
    }
  }

  // ----- the watch stream -----

  predicate Terminal(r: PollResult) { !r.StillPending? }

  /** How many polls the stream makes: up to and including the first terminal one. */
  function Consumed(polls: seq<PollResult>): (n: nat)
    ensures n <= |polls|
    ensures forall i :: 0 <= i < n - 1 ==> polls[i].StillPending?
    ensures n < |polls| ==> n > 0 && Terminal(polls[n - 1])
  {
    if polls == [] then 0 else if Terminal(polls[0]) then 1 else 1 + Consumed(polls[1..])
  }

  /** What a stream over these poll results sends: one Pending if it started pending,
      then the first terminal status, once, whatever it carries. */
  function Messages(polls: seq<PollResult>): seq<PollResult> {
    var n := Consumed(polls);
    if n == 0 then []
    else if !Terminal(polls[n - 1]) then [StillPending]
    else if n == 1 then [polls[0]]
    else [StillPending, polls[n - 1]]
  }

  /** The stream's loop: poll on each wake, send on the first poll and on a change, stop when terminal. */
  method WatchLogin(polls: seq<PollResult>) returns (sent: seq<PollResult>, consumed: nat)
    ensures sent == Messages(polls) && consumed == Consumed(polls)
  {
    sent, consumed := [], 0;
    var last: Option<PollResult> := None;
    var done := false;
    while !done && consumed < |polls|
      invariant consumed <= |polls|
      invariant !done ==> forall i :: 0 <= i < consumed ==> polls[i].StillPending?
      invariant !done ==> last == (if consumed == 0 then None else Some(StillPending))
      invariant !done ==> sent == (if consumed == 0 then [] else [StillPending])
      invariant !done ==> Consumed(polls) == consumed + Consumed(polls[consumed..])
      invariant done ==> consumed == Consumed(polls) && sent == Messages(polls)
      decreases |polls| - consumed
    {
      var status := polls[consumed];
      assert polls[consumed..][0] == status && polls[consumed..][1..] == polls[consumed + 1..];
      if last.None? || last.value != status {
        sent := sent + [status];
        last := Some(status);
        done := Terminal(status);
      }
      consumed := consumed + 1;
    }
  }

  /** What a watcher is told: pending if the request was pending when it came, then the first terminal
      status, and nothing after that. A token that a stream's poll took out of the store is therefore
      always sent on that stream. */
  lemma StreamShape(polls: seq<PollResult>)
    ensures var m := Messages(polls);
      forall i :: 0 <= i < Consumed(polls) && polls[i].Granted? ==>
        m != [] && m[|m| - 1] == polls[i] && i == Consumed(polls) - 1
    ensures polls == [] ==> Messages(polls) == []
    ensures polls != [] && (forall i :: 0 <= i < |polls| ==> polls[i].StillPending?) ==>
      Messages(polls) == [StillPending] && Consumed(polls) == |polls|
    ensures forall k :: FirstTerminal(polls, k) ==>
      Consumed(polls) == k + 1 && Messages(polls) == if k == 0 then [polls[0]] else [StillPending, polls[k]]
  {
    ConsumedUpTo(polls);
  }

  /** Poll `k` is the first with another answer than pending. */
  predicate FirstTerminal(polls: seq<PollResult>, k: int) {
    0 <= k < |polls| && !polls[k].StillPending? && forall i :: 0 <= i < k ==> polls[i].StillPending?
  }

  lemma {:induction false} ConsumedUpTo(polls: seq<PollResult>)
    ensures (forall i :: 0 <= i < |polls| ==> polls[i].StillPending?) ==> Consumed(polls) == |polls|
    ensures forall k :: FirstTerminal(polls, k) ==> Consumed(polls) == k + 1
  {
    if polls != [] && polls[0].StillPending? {
      ConsumedUpTo(polls[1..]);
      forall k | FirstTerminal(polls, k) ensures Consumed(polls) == k + 1 {
        assert FirstTerminal(polls[1..], k - 1);
      }
    }
  }
}
