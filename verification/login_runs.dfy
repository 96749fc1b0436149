/** Device logins over whole runs: pollers, deciders and sweeps in any interleaving. Separate
    steps: `begin`'s two inserts, the user-code lookup and the decision it leads to, and
    `decide_login`'s mint and revoke. */
module LoginRuns {
  import opened Basics
  import opened Names
  import opened LoginStore
  import opened Sessions

  /** One approving `decide_login` call: minted, led to `device` by its user code, won that
      request, lost with its row still there, or lost and revoked. */
  datatype Decider =
    | Minted(user: string, username: string, token: string)
    | Found(device: string, key: string, username: string, token: string)
    | Won(device: string, token: string)
    | Losing(token: string)
    | Revoked(token: string)

  datatype Event =
    | Begun(device: string, key: string, at: int)
    | Granting(device: string, key: string, token: string, username: string, at: int)
    | Denying(device: string, key: string, at: int)
    | Delivered(device: string, token: string, username: string, at: int)
    | Told(device: string, answer: PollResult, at: int)

  /** `starting` holds `begin` calls between their two inserts: device to (key, caption);
      `denials` holds denying calls between lookup and decision: (device, key). */
  datatype System = System(
    logins: Logins, now: int, starting: map<string, (string, string)>, used: set<string>,
    sessions: Rows, deciders: map<nat, Decider>, denials: map<nat, (string, string)>, log: seq<Event>)

  datatype Action =
    | BeginUser(device: string, user: string, caption: string)
    | BeginDevice(device: string)
    | PollAction(device: string)
    | DenyLookUp(q: nat, user: string)
    | Deny(q: nat)
    | SweepAction
    | Tick(nanos: nat)
    | Mint(p: nat, user: string, username: string, token: string, caption: string)
    | LookUp(p: nat)
    | Commit(p: nat)
    | Revoke(p: nat)
    | Touch(digest: string, ip: string, device: string, at: int)

  /** Random draws are new; a touch may write whenever its earlier read was; each step belongs to a call in the right
      state. */
  ghost predicate Enabled(digest: string -> string, s: System, a: Action) {
    match a
    case BeginUser(device, user, _) => device !in s.used && Normalize(user) !in s.logins.byUser
    case BeginDevice(device) => device in s.starting
    case Mint(p, _, _, token, _) =>
      && p !in s.deciders && digest(token) !in s.sessions
      && forall q :: q in s.deciders ==> digest(s.deciders[q].token) != digest(token)
    case LookUp(p) => p in s.deciders && s.deciders[p].Minted?
    case Commit(p) => p in s.deciders && s.deciders[p].Found?
    case DenyLookUp(q, _) => q !in s.denials
    case Deny(q) => q in s.denials
    case Revoke(p) => p in s.deciders && s.deciders[p].Losing?
    case _ => true
  }

  /** The request is stored, pending and unexpired. */
  predicate OpenAt(l: Logins, device: string, now: int) {
    device in l.byDevice && l.byDevice[device].Open(now)
  }

  ghost function Next(digest: string -> string, s: System, a: Action): System
    requires Enabled(digest, s, a)
  {
    match a
    case BeginUser(device, user, caption) =>
      s.(logins := InsertUser(s.logins, Normalize(user), device),
         starting := s.starting[device := (Normalize(user), CleanLabel(caption))], used := s.used + {device})
    case BeginDevice(device) =>
      var (key, caption) := s.starting[device];
      s.(logins := InsertDevice(s.logins, key, device, caption, s.now), starting := s.starting - {device},
         log := s.log + [Begun(device, key, s.now)])
    case PollAction(device) =>
      var (l, r) := AfterPoll(s.logins, device, s.now);
      s.(logins := l,
         log := s.log + [if r.Granted? then Delivered(device, r.token, r.username, s.now) else Told(device, r, s.now)])
    case DenyLookUp(q, user) =>
      var key := Normalize(user);
      if key in s.logins.byUser then s.(denials := s.denials[q := (s.logins.byUser[key], key)]) else s
    case Deny(q) =>
      var (device, key) := s.denials[q];
      var t := s.(denials := s.denials - {q});
      if OpenAt(s.logins, device, s.now)
      then t.(logins := Decided(s.logins, device, Denied), log := s.log + [Denying(device, key, s.now)])
      else t
    case SweepAction => s.(logins := Swept(s.logins, s.now))
    case Tick(nanos) => s.(now := s.now + nanos)
    case Mint(p, user, username, token, caption) =>
      s.(sessions := s.sessions[digest(token) := ApiSession(username, caption, s.now)],
         deciders := s.deciders[p := Minted(user, username, token)])
    case LookUp(p) =>
      var d := s.deciders[p];
      var key := Normalize(d.user);
      s.(deciders := s.deciders[p :=
        if key in s.logins.byUser then Found(s.logins.byUser[key], key, d.username, d.token) else Losing(d.token)])
    case Commit(p) =>
      var d := s.deciders[p];
      if OpenAt(s.logins, d.device, s.now)
      then s.(logins := Decided(s.logins, d.device, Approved(d.token, d.username)),
              deciders := s.deciders[p := Won(d.device, d.token)],
              log := s.log + [Granting(d.device, d.key, d.token, d.username, s.now)])
      else s.(deciders := s.deciders[p := Losing(d.token)])
    case Revoke(p) =>
      s.(sessions := s.sessions - {digest(s.deciders[p].token)},
         deciders := s.deciders[p := Revoked(s.deciders[p].token)])
    case Touch(h, ip, device, at) => s.(sessions := Touched(s.sessions, h, ip, device, at))
  }

  ghost predicate Legal(digest: string -> string, s: System, run: seq<Action>)
    decreases run
  {
    run == [] || (Enabled(digest, s, run[0]) && Legal(digest, Next(digest, s, run[0]), run[1..]))
  }

  ghost function Exec(digest: string -> string, s: System, run: seq<Action>): System
    requires Legal(digest, s, run)
    decreases run
  {
    if run == [] then s else Exec(digest, Next(digest, s, run[0]), run[1..])
  }

  const EMPTY := System(Logins(map[], map[]), 0, map[], {}, map[], map[], map[], [])

  // ----- one request's life, by the log alone -----

  datatype Life =
    | Unborn
    | Waiting(key: string, created: int)
    | Given(key: string, created: int, token: string, username: string)
    | Refusing(created: int)
    | Handed(token: string)
    | Illegal

  /** The only legal history of a request: begun once, decided at most once, by its own user
      code and in time, and after a grant the granted token delivered at most once and in time. */
  function LifeOf(log: seq<Event>, device: string): Life {
    if log == [] then Unborn
    else
      var life, e := LifeOf(log[..|log| - 1], device), log[|log| - 1];
      if e.device != device then life
      else
        match e
        case Begun(_, key, at) => if life.Unborn? then Waiting(key, at) else Illegal
        case Granting(_, key, token, username, at) =>
          if life.Waiting? && life.key == key && at - life.created <= EXPIRES_NANOS
          then Given(key, life.created, token, username) else Illegal
        case Denying(_, key, at) =>
          if life.Waiting? && life.key == key && at - life.created <= EXPIRES_NANOS
          then Refusing(life.created) else Illegal
        case Delivered(_, token, username, at) =>
          if life.Given? && life.token == token && life.username == username && at - life.created <= EXPIRES_NANOS
          then Handed(token) else Illegal
        case Told(_, _, _) => life
  }

  ghost predicate Matches(e: Entry, life: Life) {
    match e.status
    case Pending => life == Waiting(e.userCode, e.created)
    case Approved(token, username) => life == Given(e.userCode, e.created, token, username)
    case Denied => life == Refusing(e.created)
  }

  // ----- invariants -----

  /** Every stored request is found by its user code, and so is every one being stored;
      every user code leads to the request that has it. */
  ghost predicate MapsOk(l: Logins, starting: map<string, (string, string)>, used: set<string>) {
    && DevicesLinked(l)
    && (forall d :: d in starting ==>
          d !in l.byDevice && starting[d].0 in l.byUser && l.byUser[starting[d].0] == d)
    && (forall u :: u in l.byUser ==> BelongsTo(l, starting, u, l.byUser[u]))
    && (forall d :: d in l.byDevice ==> d in used)
    && (forall d :: d in starting ==> d in used)
  }

  ghost predicate MapsInvariant(s: System) { MapsOk(s.logins, s.starting, s.used) }

  /** The user code `u` belongs to the request `d`, stored or being stored. */
  ghost predicate BelongsTo(l: Logins, starting: map<string, (string, string)>, u: string, d: string) {
    || (d in l.byDevice && l.byDevice[d].userCode == u)
    || (d in starting && starting[d].0 == u)
  }

  /** `device` is the request that `key` was drawn for, whatever has become of it. */
  ghost predicate Leads(l: Logins, starting: map<string, (string, string)>, used: set<string>, key: string,
                        device: string) {
    && device in used
    && (device in l.byDevice ==> l.byDevice[device].userCode == key)
    && (device in starting ==> starting[device].0 == key)
  }

  ghost predicate LookupsInvariant(s: System) {
    && (forall p :: p in s.deciders && s.deciders[p].Found? ==>
          Leads(s.logins, s.starting, s.used, s.deciders[p].key, s.deciders[p].device))
    && (forall q :: q in s.denials ==> Leads(s.logins, s.starting, s.used, s.denials[q].1, s.denials[q].0))
  }

  ghost predicate LivesInvariant(s: System) {
    && (forall d :: d in s.logins.byDevice ==> Matches(s.logins.byDevice[d], LifeOf(s.log, d)))
    && (forall d :: d in s.starting || d !in s.used ==> LifeOf(s.log, d).Unborn?)
    && (forall d :: !LifeOf(s.log, d).Illegal?)
  }

  /** Session rows of the deciders: distinct, and present until revoked. */
  ghost predicate RowsInvariant(digest: string -> string, deciders: map<nat, Decider>, sessions: Rows) {
    && (forall p, q :: p in deciders && q in deciders && p != q ==>
          digest(deciders[p].token) != digest(deciders[q].token))
    && (forall p :: p in deciders ==> (digest(deciders[p].token) in sessions <==> !deciders[p].Revoked?))
  }

  /** The request was granted exactly this token. */
  ghost predicate HasToken(log: seq<Event>, device: string, token: string) {
    var life := LifeOf(log, device);
    (life.Given? || life.Handed?) && life.token == token
  }

  ghost predicate WinsInvariant(s: System) {
    forall p :: p in s.deciders && s.deciders[p].Won? ==> HasToken(s.log, s.deciders[p].device, s.deciders[p].token)
  }

  ghost predicate DecidersInvariant(digest: string -> string, s: System) {
    RowsInvariant(digest, s.deciders, s.sessions) && WinsInvariant(s)
  }

  /** Extending the log leaves every other request's life alone. */
  lemma LifeFrame(log: seq<Event>, e: Event)
    ensures forall d :: d != e.device ==> LifeOf(log + [e], d) == LifeOf(log, d)
    ensures (log + [e])[..|log + [e]| - 1] == log
  {
    assert (log + [e])[..|log|] == log;
  }

  lemma MapsKeep(digest: string -> string, s: System, a: Action)
    requires MapsInvariant(s) && Enabled(digest, s, a)
    ensures MapsInvariant(Next(digest, s, a))
  {
    hide MapsOk, Normalize, CleanLabel, Removed, Decided, InsertUser, InsertDevice, Swept;
    var l := s.logins;
    match a
    case BeginUser(device, user, caption) =>
      MapsInsertUser(l, s.starting, s.used, Normalize(user), device, CleanLabel(caption));
    case BeginDevice(device) => MapsInsertDevice(l, s.starting, s.used, device, s.now);
    case PollAction(device) => if device in l.byDevice { MapsRemove(l, s.starting, s.used, device); }
    case Deny(q) =>
      if OpenAt(l, s.denials[q].0, s.now) { MapsDecide(l, s.starting, s.used, s.denials[q].0, Denied); }
    case Commit(p) =>
      var d := s.deciders[p];
      if OpenAt(l, d.device, s.now) { MapsDecide(l, s.starting, s.used, d.device, Approved(d.token, d.username)); }
    case SweepAction => MapsSweep(l, s.starting, s.used, s.now);
    case _ =>
  }

  lemma MapsInsertUser(l: Logins, starting: map<string, (string, string)>, used: set<string>, key: string,
                       device: string, caption: string)
    requires MapsOk(l, starting, used) && device !in used && key !in l.byUser
    ensures MapsOk(InsertUser(l, key, device), starting[device := (key, caption)], used + {device})
  {
  }

  lemma MapsInsertDevice(l: Logins, starting: map<string, (string, string)>, used: set<string>, device: string,
                         now: int)
    requires MapsOk(l, starting, used) && device in starting
    ensures MapsOk(InsertDevice(l, starting[device].0, device, starting[device].1, now), starting - {device}, used)
  {
  }

  lemma MapsRemove(l: Logins, starting: map<string, (string, string)>, used: set<string>, device: string)
    requires MapsOk(l, starting, used) && device in l.byDevice
    ensures MapsOk(Removed(l, device), starting, used)
  {
  }

  lemma MapsDecide(l: Logins, starting: map<string, (string, string)>, used: set<string>, device: string,
                   status: Status)
    requires MapsOk(l, starting, used) && device in l.byDevice
    ensures MapsOk(Decided(l, device, status), starting, used)
  {
  }

  lemma MapsSweep(l: Logins, starting: map<string, (string, string)>, used: set<string>, now: int)
    requires MapsOk(l, starting, used)
    ensures MapsOk(Swept(l, now), starting, used)
  {
    SweepKeepsLinks(l, now);
    var t := Swept(l, now);
    forall u | u in t.byUser ensures BelongsTo(t, starting, u, t.byUser[u]) {
      assert BelongsTo(l, starting, u, l.byUser[u]);
    }
  }

  lemma SweepKeepsLinks(l: Logins, now: int)
    requires DevicesLinked(l)
    ensures DevicesLinked(Swept(l, now))
    ensures forall u :: u in l.byUser && l.byUser[u] !in l.byDevice ==>
      u in Swept(l, now).byUser && Swept(l, now).byUser[u] == l.byUser[u]
    ensures Swept(l, now).byDevice.Keys <= l.byDevice.Keys
    ensures forall d :: d in Swept(l, now).byDevice ==> Swept(l, now).byDevice[d] == l.byDevice[d]
  {
  }

  /** Every request of `t` is one of `s`, stored or being stored, under the same user code. */
  ghost predicate Continues(s: System, t: System) {
    && s.used <= t.used
    && (forall d :: d in s.used && d in t.logins.byDevice ==>
          || (d in s.logins.byDevice && t.logins.byDevice[d].userCode == s.logins.byDevice[d].userCode)
          || (d in s.starting && t.logins.byDevice[d].userCode == s.starting[d].0))
    && (forall d :: d in s.used && d in t.starting ==> d in s.starting && t.starting[d].0 == s.starting[d].0)
  }

  lemma LoginsContinue(s: System, t: System)
    requires t.used == s.used && t.starting == s.starting
    requires forall d :: d in t.logins.byDevice ==>
      d in s.logins.byDevice && t.logins.byDevice[d].userCode == s.logins.byDevice[d].userCode
    ensures Continues(s, t)
  {
  }

  lemma BeginContinues(digest: string -> string, s: System, device: string, user: string, caption: string)
    ensures Enabled(digest, s, BeginUser(device, user, caption)) ==>
      Continues(s, Next(digest, s, BeginUser(device, user, caption)))
    ensures Enabled(digest, s, BeginDevice(device)) ==> Continues(s, Next(digest, s, BeginDevice(device)))
  {
    hide Normalize, CleanLabel;
  }

  lemma NextContinues(digest: string -> string, s: System, a: Action)
    requires Enabled(digest, s, a)
    ensures Continues(s, Next(digest, s, a))
  {
    hide Normalize, CleanLabel, Decided, Entry.Expired, Touched, Swept, Continues, InsertUser, InsertDevice;
    var t := Next(digest, s, a);
    match a
    case BeginUser(device, user, caption) => BeginContinues(digest, s, device, user, caption);
    case BeginDevice(device) => BeginContinues(digest, s, device, "", "");
    case PollAction(device) => LoginsContinue(s, t);
    case Deny(q) =>
      if OpenAt(s.logins, s.denials[q].0, s.now) { DecidedSame(s.logins, s.denials[q].0, Denied); }
      LoginsContinue(s, t);
    case Commit(p) =>
      var d := s.deciders[p];
      if OpenAt(s.logins, d.device, s.now) { DecidedSame(s.logins, d.device, Approved(d.token, d.username)); }
      LoginsContinue(s, t);
    case SweepAction => SweptSame(s.logins, s.now); LoginsContinue(s, t);
    case _ => LoginsContinue(s, t);
  }

  lemma DecidedSame(l: Logins, device: string, status: Status)
    requires device in l.byDevice
    ensures Decided(l, device, status).byDevice.Keys == l.byDevice.Keys
    ensures forall d :: d in l.byDevice ==> Decided(l, device, status).byDevice[d].userCode == l.byDevice[d].userCode
  {
  }

  lemma SweptSame(l: Logins, now: int)
    ensures forall d :: d in Swept(l, now).byDevice ==> d in l.byDevice && Swept(l, now).byDevice[d] == l.byDevice[d]
  {
  }

  lemma LeadsOn(s: System, t: System, key: string, device: string)
    requires Continues(s, t) && Leads(s.logins, s.starting, s.used, key, device)
    ensures Leads(t.logins, t.starting, t.used, key, device)
  {
  }

  /** What a user code is mapped to is the request it was drawn for. */
  lemma LookupLeads(s: System, key: string)
    requires MapsInvariant(s) && key in s.logins.byUser
    ensures Leads(s.logins, s.starting, s.used, key, s.logins.byUser[key])
  {
    assert BelongsTo(s.logins, s.starting, key, s.logins.byUser[key]);
  }

  lemma LookupsKeep(digest: string -> string, s: System, a: Action)
    requires MapsInvariant(s) && LookupsInvariant(s) && Enabled(digest, s, a)
    ensures LookupsInvariant(Next(digest, s, a))
  {
    hide Leads, Continues, MapsInvariant, Normalize, CleanLabel, Swept, AfterPoll, Decided;
    var t := Next(digest, s, a);
    NextContinues(digest, s, a);
    forall key, device | Leads(s.logins, s.starting, s.used, key, device)
      ensures Leads(t.logins, t.starting, t.used, key, device)
    {
      LeadsOn(s, t, key, device);
    }
    if a.LookUp? || a.DenyLookUp? {
      var key := Normalize(if a.LookUp? then s.deciders[a.p].user else a.user);
      if key in s.logins.byUser { LookupLeads(s, key); }
    }
  }

  /** No event: the stored requests are among the old ones, unchanged. */
  lemma LivesShrink(s: System, t: System)
    requires LivesInvariant(s) && t.log == s.log
    requires forall d :: d in t.logins.byDevice ==>
      d in s.logins.byDevice && t.logins.byDevice[d] == s.logins.byDevice[d]
    requires forall d :: d in t.starting || d !in t.used ==> d in s.starting || d !in s.used
    ensures LivesInvariant(t)
  {
    hide Matches;
  }

  /** One event about `device`, whose stored entry, if any, matches its new life. */
  lemma LivesEvent(s: System, t: System, e: Event)
    requires LivesInvariant(s) && t.log == s.log + [e]
    requires forall d :: d in t.logins.byDevice && d != e.device ==>
      d in s.logins.byDevice && t.logins.byDevice[d] == s.logins.byDevice[d]
    requires forall d :: d in t.starting || d !in t.used ==> d != e.device && (d in s.starting || d !in s.used)
    requires e.device in t.logins.byDevice ==> Matches(t.logins.byDevice[e.device], LifeOf(t.log, e.device))
    requires !LifeOf(t.log, e.device).Illegal?
    ensures LivesInvariant(t)
  {
    hide Matches;
    LifeFrame(s.log, e);
  }

  lemma LivesKeep(digest: string -> string, s: System, a: Action)
    requires MapsInvariant(s) && LookupsInvariant(s) && LivesInvariant(s) && Enabled(digest, s, a)
    ensures LivesInvariant(Next(digest, s, a))
  {
    hide CleanLabel, Normalize, LivesInvariant;
    var t := Next(digest, s, a);
    match a
    case BeginDevice(device) => BeginLives(digest, s, device);
    case PollAction(device) => PollLives(digest, s, device);
    case Deny(q) =>
      if OpenAt(s.logins, s.denials[q].0, s.now) { DenyLives(digest, s, q); } else { LivesShrink(s, t); }
    case Commit(p) =>
      if OpenAt(s.logins, s.deciders[p].device, s.now) { CommitLives(digest, s, p); } else { LivesShrink(s, t); }
    case SweepAction => SweepKeepsLinks(s.logins, s.now); LivesShrink(s, t);
    case _ => LivesShrink(s, t);
  }

  lemma BeginLives(digest: string -> string, s: System, device: string)
    requires MapsInvariant(s) && LivesInvariant(s) && device in s.starting
    ensures LivesInvariant(Next(digest, s, BeginDevice(device)))
  {
    var t := Next(digest, s, BeginDevice(device));
    var e := t.log[|s.log|];
    LifeFrame(s.log, e);
    LivesEvent(s, t, e);
  }

  lemma StoredFacts(s: System, device: string)
    requires MapsInvariant(s) && LivesInvariant(s) && device in s.logins.byDevice
    ensures device in s.used && device !in s.starting && Matches(s.logins.byDevice[device], LifeOf(s.log, device))
  {
  }

  /** Handing over a granted token in time is a legal next event. */
  lemma GrantedLife(s: System, device: string, e: Event)
    requires device in s.logins.byDevice && Matches(s.logins.byDevice[device], LifeOf(s.log, device))
    requires var entry := s.logins.byDevice[device];
      && entry.status.Approved? && !entry.Expired(s.now)
      && e == Delivered(device, entry.status.token, entry.status.username, s.now)
    ensures !LifeOf(s.log + [e], device).Illegal?
  {
    LifeFrame(s.log, e);
  }

  /** An answer that hands nothing over changes no request's life. */
  lemma LivesTold(s: System, t: System, device: string)
    requires LivesInvariant(s)
    requires t.log == s.log + [Told(device, AfterPoll(s.logins, device, s.now).1, s.now)]
    requires t.starting == s.starting && t.used == s.used
    requires forall d :: d in t.logins.byDevice ==>
      d in s.logins.byDevice && t.logins.byDevice[d] == s.logins.byDevice[d]
    ensures LivesInvariant(t)
  {
    hide Matches;
    var e := t.log[|s.log|];
    LifeFrame(s.log, e);
    forall d ensures LifeOf(t.log, d) == LifeOf(s.log, d) {
    }
  }

  lemma PollLives(digest: string -> string, s: System, device: string)
    requires MapsInvariant(s) && LivesInvariant(s)
    ensures LivesInvariant(Next(digest, s, PollAction(device)))
  {
    hide MapsInvariant, LivesInvariant, Matches, Normalize, CleanLabel;
    var t := Next(digest, s, PollAction(device));
    if AfterPoll(s.logins, device, s.now).1.Granted? {
      var e := t.log[|s.log|];
      StoredFacts(s, device);
      GrantedLife(s, device, e);
      LivesEvent(s, t, e);
    } else {
      LivesTold(s, t, device);
    }
  }

  /** Deciding an open request by its own user code, in time, is a legal next event. */
  lemma DecidedLife(s: System, e: Event, entry: Entry)
    requires e.device in s.logins.byDevice && Matches(s.logins.byDevice[e.device], LifeOf(s.log, e.device))
    requires var was := s.logins.byDevice[e.device];
      && was.Open(s.now) && entry == was.(status := entry.status)
      && ((e == Denying(e.device, was.userCode, s.now) && entry.status.Denied?)
          || (&& entry.status.Approved?
              && e == Granting(e.device, was.userCode, entry.status.token, entry.status.username, s.now)))
    ensures Matches(entry, LifeOf(s.log + [e], e.device)) && !LifeOf(s.log + [e], e.device).Illegal?
  {
    LifeFrame(s.log, e);
  }

  lemma DenyLives(digest: string -> string, s: System, q: nat)
    requires MapsInvariant(s) && LookupsInvariant(s) && LivesInvariant(s) && Enabled(digest, s, Deny(q))
    requires OpenAt(s.logins, s.denials[q].0, s.now)
    ensures LivesInvariant(Next(digest, s, Deny(q)))
  {
    hide MapsInvariant, LivesInvariant, Matches, Normalize;
    var t := Next(digest, s, Deny(q));
    var e := t.log[|s.log|];
    assert Leads(s.logins, s.starting, s.used, s.denials[q].1, s.denials[q].0);
    StoredFacts(s, e.device);
    DecidedLife(s, e, t.logins.byDevice[e.device]);
    LivesEvent(s, t, e);
  }

  lemma CommitLives(digest: string -> string, s: System, p: nat)
    requires MapsInvariant(s) && LookupsInvariant(s) && LivesInvariant(s) && Enabled(digest, s, Commit(p))
    requires OpenAt(s.logins, s.deciders[p].device, s.now)
    ensures LivesInvariant(Next(digest, s, Commit(p)))
  {
    hide MapsInvariant, LivesInvariant, Matches, Normalize;
    var t := Next(digest, s, Commit(p));
    var e := t.log[|s.log|];
    assert Leads(s.logins, s.starting, s.used, s.deciders[p].key, s.deciders[p].device);
    StoredFacts(s, e.device);
    DecidedLife(s, e, t.logins.byDevice[e.device]);
    LivesEvent(s, t, e);
  }

  lemma LogGrows(digest: string -> string, s: System, a: Action)
    requires Enabled(digest, s, a)
    ensures var t := Next(digest, s, a);
      t.log == s.log || (|t.log| == |s.log| + 1 && t.log == s.log + [t.log[|s.log|]])
  {
    hide Normalize, CleanLabel, Swept;
  }

  /** A request that has a token keeps it: granted, then handed over. */
  lemma TokenSticks(log: seq<Event>, e: Event, d: string, token: string)
    requires HasToken(log, d, token) && !LifeOf(log + [e], d).Illegal?
    ensures HasToken(log + [e], d, token)
  {
    LifeFrame(log, e);
  }

  lemma WinsKeep(digest: string -> string, s: System, a: Action)
    requires MapsInvariant(s) && LookupsInvariant(s) && LivesInvariant(s) && WinsInvariant(s) && Enabled(digest, s, a)
    ensures WinsInvariant(Next(digest, s, a))
  {
    var t := Next(digest, s, a);
    LivesKeep(digest, s, a);
    LogGrows(digest, s, a);
    hide Next, Enabled, HasToken, MapsInvariant;
    NewWins(digest, s, a);
    forall p | p in t.deciders && t.deciders[p].Won?
      ensures HasToken(t.log, t.deciders[p].device, t.deciders[p].token)
    {
      if p in s.deciders && s.deciders[p] == t.deciders[p] {
        if t.log != s.log {
          TokenSticks(s.log, t.log[|s.log|], t.deciders[p].device, t.deciders[p].token);
        }
      }
    }
  }

  /** A decider wins only by committing, and then the request has its token. */
  lemma NewWins(digest: string -> string, s: System, a: Action)
    requires MapsInvariant(s) && LookupsInvariant(s) && LivesInvariant(s) && Enabled(digest, s, a)
    ensures var t := Next(digest, s, a);
      forall p :: p in t.deciders && t.deciders[p].Won? ==>
        || (p in s.deciders && s.deciders[p] == t.deciders[p])
        || HasToken(t.log, t.deciders[p].device, t.deciders[p].token)
  {
    hide LivesInvariant, LookupsInvariant, MapsInvariant, CleanLabel, Normalize, LifeOf, Swept, AfterPoll, HasToken;
    if a.Commit? && OpenAt(s.logins, s.deciders[a.p].device, s.now) {
      CommitWins(digest, s, a.p);
    }
  }

  lemma CommitWins(digest: string -> string, s: System, p: nat)
    requires MapsInvariant(s) && LookupsInvariant(s) && LivesInvariant(s) && Enabled(digest, s, Commit(p))
    requires OpenAt(s.logins, s.deciders[p].device, s.now)
    ensures var t := Next(digest, s, Commit(p));
      t.deciders[p].Won? && HasToken(t.log, t.deciders[p].device, t.deciders[p].token)
  {
    var t := Next(digest, s, Commit(p));
    LivesKeep(digest, s, Commit(p));
    LifeFrame(s.log, t.log[|s.log|]);
    assert t.deciders[p].device in t.logins.byDevice;
    assert Matches(t.logins.byDevice[t.deciders[p].device], LifeOf(t.log, t.deciders[p].device));
  }

  lemma RowsMinted(digest: string -> string, deciders: map<nat, Decider>, sessions: Rows, p: nat, call: Decider,
                   row: Session)
    requires RowsInvariant(digest, deciders, sessions) && p !in deciders && !call.Revoked?
    requires forall q :: q in deciders ==> digest(deciders[q].token) != digest(call.token)
    ensures RowsInvariant(digest, deciders[p := call], sessions[digest(call.token) := row])
  {
  }

  lemma RowsMoved(digest: string -> string, deciders: map<nat, Decider>, sessions: Rows, p: nat, call: Decider)
    requires RowsInvariant(digest, deciders, sessions) && p in deciders
    requires call.token == deciders[p].token && !call.Revoked? && !deciders[p].Revoked?
    ensures RowsInvariant(digest, deciders[p := call], sessions)
  {
  }

  lemma RowsRevoked(digest: string -> string, deciders: map<nat, Decider>, sessions: Rows, p: nat)
    requires RowsInvariant(digest, deciders, sessions) && p in deciders
    ensures RowsInvariant(digest, deciders[p := Revoked(deciders[p].token)], sessions - {digest(deciders[p].token)})
  {
  }

  lemma RowsKeep(digest: string -> string, s: System, a: Action)
    requires RowsInvariant(digest, s.deciders, s.sessions) && Enabled(digest, s, a)
    ensures RowsInvariant(digest, Next(digest, s, a).deciders, Next(digest, s, a).sessions)
  {
    hide RowsInvariant, CleanLabel, Normalize, Swept, AfterPoll, OpenAt, Decided, InsertUser, InsertDevice, Touched;
    var t := Next(digest, s, a);
    match a
    case Mint(p, _, _, _, _) =>
      RowsMinted(digest, s.deciders, s.sessions, p, t.deciders[p], t.sessions[digest(a.token)]);
    case LookUp(p) => RowsMoved(digest, s.deciders, s.sessions, p, t.deciders[p]);
    case Commit(p) => RowsMoved(digest, s.deciders, s.sessions, p, t.deciders[p]);
    case Revoke(p) => RowsRevoked(digest, s.deciders, s.sessions, p);
    case Touch(_, _, _, _) => RowsTouched(digest, s.deciders, s.sessions, t.sessions);
    case _ =>
  }

  lemma RowsTouched(digest: string -> string, deciders: map<nat, Decider>, sessions: Rows, touched: Rows)
    requires RowsInvariant(digest, deciders, sessions) && touched.Keys == sessions.Keys
    ensures RowsInvariant(digest, deciders, touched)
  {
  }

  lemma DecidersKeep(digest: string -> string, s: System, a: Action)
    requires MapsInvariant(s) && LookupsInvariant(s) && LivesInvariant(s) && DecidersInvariant(digest, s)
    requires Enabled(digest, s, a)
    ensures DecidersInvariant(digest, Next(digest, s, a))
  {
    hide Next, RowsInvariant, WinsInvariant, MapsInvariant, LookupsInvariant, LivesInvariant, Enabled;
    WinsKeep(digest, s, a);
    RowsKeep(digest, s, a);
  }

  lemma {:induction false} SystemOverRuns(digest: string -> string, s: System, run: seq<Action>)
    requires MapsInvariant(s) && LookupsInvariant(s) && LivesInvariant(s) && DecidersInvariant(digest, s)
    requires Legal(digest, s, run)
    ensures var t := Exec(digest, s, run);
      MapsInvariant(t) && LookupsInvariant(t) && LivesInvariant(t) && DecidersInvariant(digest, t)
    decreases run
  {
    hide MapsInvariant, LookupsInvariant, LivesInvariant, DecidersInvariant, Next, Enabled;
    if run != [] {
      MapsKeep(digest, s, run[0]);
      LookupsKeep(digest, s, run[0]);
      LivesKeep(digest, s, run[0]);
      DecidersKeep(digest, s, run[0]);
      SystemOverRuns(digest, Next(digest, s, run[0]), run[1..]);
    }
  }

  // ----- what that means -----

  ghost predicate DeliveredAt(log: seq<Event>, i: int, device: string) {
    0 <= i < |log| && log[i].Delivered? && log[i].device == device
  }

  ghost predicate DecidedAt(log: seq<Event>, i: int, device: string) {
    0 <= i < |log| && (log[i].Granting? || log[i].Denying?) && log[i].device == device
  }

  /** Event `i` granted the token for this request, under the user code it was begun with at `c`. */
  ghost predicate GrantedAt(log: seq<Event>, i: int, device: string, token: string, username: string, c: int) {
    && 0 <= i < |log| && log[i].Granting? && log[i].device == device
    && log[i].token == token && log[i].username == username && log[i].at - c <= EXPIRES_NANOS
    && exists h :: 0 <= h < i && log[h] == Begun(device, log[i].key, c)
  }

  /** What a legal life says about the events of the request. */
  ghost predicate LifeMeans(log: seq<Event>, d: string, life: Life) {
    && (life.Unborn? || life.Waiting? ==> forall i :: !DecidedAt(log, i, d) && !DeliveredAt(log, i, d))
    && (life.Waiting? ==> exists h :: 0 <= h < |log| && log[h] == Begun(d, life.key, life.created))
    && (life.Given? || life.Refusing? ==> forall i :: !DeliveredAt(log, i, d))
    && (life.Given? ==> exists i :: GrantedAt(log, i, d, life.token, life.username, life.created))
    && (forall i, j :: DecidedAt(log, i, d) && DecidedAt(log, j, d) ==> i == j)
    && (forall i, j :: DeliveredAt(log, i, d) && DeliveredAt(log, j, d) ==> i == j)
    && (forall j :: DeliveredAt(log, j, d) ==> Earned(log, j))
  }

  /** Delivery `j` follows a grant of exactly this token to this request, before its expiry. */
  ghost predicate Earned(log: seq<Event>, j: int)
    requires 0 <= j < |log| && log[j].Delivered?
  {
    exists i, c ::
      i < j && GrantedAt(log, i, log[j].device, log[j].token, log[j].username, c) && log[j].at - c <= EXPIRES_NANOS
  }

  lemma {:induction false} LegalLifeMeans(log: seq<Event>, d: string)
    requires !LifeOf(log, d).Illegal?
    ensures LifeMeans(log, d, LifeOf(log, d))
  {
    if log != [] {
      var init, e := log[..|log| - 1], log[|log| - 1];
      LegalLifeMeans(init, d);
      LifeGrows(init, e, d, LifeOf(init, d), LifeOf(log, d));
      assert log == init + [e];
    }
  }

  lemma EventsPersist(log: seq<Event>, e: Event, d: string)
    ensures var t := log + [e];
      && (forall i :: i < |log| ==> (DecidedAt(t, i, d) <==> DecidedAt(log, i, d)))
      && (forall i :: i < |log| ==> (DeliveredAt(t, i, d) <==> DeliveredAt(log, i, d)))
      && (forall i, token, username, c :: i < |log| && GrantedAt(log, i, d, token, username, c) ==>
            GrantedAt(t, i, d, token, username, c))
      && (forall j :: j < |log| && DeliveredAt(log, j, d) && Earned(log, j) ==> DeliveredAt(t, j, d) && Earned(t, j))
  {
    var t := log + [e];
    assert forall i :: 0 <= i < |log| ==> t[i] == log[i];
    forall i, token, username, c | i < |log| && GrantedAt(log, i, d, token, username, c)
      ensures GrantedAt(t, i, d, token, username, c)
    {
      var h :| 0 <= h < i && log[h] == Begun(d, log[i].key, c);
      assert t[h] == Begun(d, t[i].key, c);
    }
    forall j | j < |log| && DeliveredAt(log, j, d) && Earned(log, j) ensures Earned(t, j) {
      var i, c :| i < j && GrantedAt(log, i, d, log[j].token, log[j].username, c) && log[j].at - c <= EXPIRES_NANOS;
      assert GrantedAt(t, i, d, t[j].token, t[j].username, c);
    }
  }

  lemma LifeGrows(log: seq<Event>, e: Event, d: string, was: Life, now: Life)
    requires LifeMeans(log, d, was) && !now.Illegal?
    requires was == LifeOf(log, d) && now == LifeOf(log + [e], d)
    ensures LifeMeans(log + [e], d, now)
  {
    var t := log + [e];
    assert t[..|t| - 1] == log;
    EventsPersist(log, e, d);
    if was.Waiting? {
      var h :| 0 <= h < |log| && log[h] == Begun(d, was.key, was.created);
      assert t[h] == Begun(d, was.key, was.created);
    }
    if e.device == d {
      match e
      case Begun(_, key, at) => assert t[|log|] == Begun(d, now.key, now.created);
      case Granting(_, key, token, username, at) => assert GrantedAt(t, |log|, d, token, username, was.created);
      case Denying(_, _, _) =>
      case Delivered(_, token, username, at) =>
        var i :| GrantedAt(log, i, d, was.token, was.username, was.created);
        assert GrantedAt(t, i, d, token, username, was.created);
        assert Earned(t, |log|);
      case Told(_, _, _) =>
    }
  }

  /** In every run: each request delivers at most once, only after the request's own
      user code was granted it, and before expiry; no request is decided twice; and every stored
      request is found by its user code even while `begin` is half done. */
  lemma TokensDeliveredOnce(digest: string -> string, run: seq<Action>, device: string)
    requires Legal(digest, EMPTY, run)
    ensures var t := Exec(digest, EMPTY, run);
      && (forall i, j :: DeliveredAt(t.log, i, device) && DeliveredAt(t.log, j, device) ==> i == j)
      && (forall i, j :: DecidedAt(t.log, i, device) && DecidedAt(t.log, j, device) ==> i == j)
      && (forall j :: DeliveredAt(t.log, j, device) ==> Earned(t.log, j))
      && DevicesLinked(t.logins)
  {
    SystemOverRuns(digest, EMPTY, run);
    LegalLifeMeans(Exec(digest, EMPTY, run).log, device);
  }

  /** Some decider won this request with this token. */
  ghost predicate HasWinner(deciders: map<nat, Decider>, device: string, token: string) {
    exists p :: p in deciders && deciders[p] == Won(device, token)
  }

  /** Every grant was made by a decider that won with that token. */
  ghost predicate GrantsInvariant(s: System) {
    forall i :: 0 <= i < |s.log| && s.log[i].Granting? ==> HasWinner(s.deciders, s.log[i].device, s.log[i].token)
  }

  lemma WinnersStay(digest: string -> string, s: System, a: Action, device: string, token: string)
    requires Enabled(digest, s, a) && HasWinner(s.deciders, device, token)
    ensures HasWinner(Next(digest, s, a).deciders, device, token)
  {
    hide Normalize, CleanLabel, Swept, AfterPoll, OpenAt, Decided;
    var p :| p in s.deciders && s.deciders[p] == Won(device, token);
    assert Next(digest, s, a).deciders[p] == Won(device, token);
  }

  /** The only step that logs a grant is a winning commit. */
  lemma GrantIsWin(digest: string -> string, s: System, a: Action)
    requires Enabled(digest, s, a)
    ensures var t := Next(digest, s, a);
      |t.log| > |s.log| && t.log[|s.log|].Granting? ==>
        HasWinner(t.deciders, t.log[|s.log|].device, t.log[|s.log|].token)
  {
    hide Normalize, CleanLabel, Swept, AfterPoll, OpenAt, Decided;
    var t := Next(digest, s, a);
    if a.Commit? && t.log != s.log {
      assert t.deciders[a.p] == Won(s.deciders[a.p].device, s.deciders[a.p].token);
    }
  }

  lemma {:induction false} GrantsOverRuns(digest: string -> string, s: System, run: seq<Action>)
    requires GrantsInvariant(s) && Legal(digest, s, run)
    ensures GrantsInvariant(Exec(digest, s, run))
    decreases run
  {
    hide Next, Enabled, HasWinner;
    if run != [] {
      var t := Next(digest, s, run[0]);
      LogGrows(digest, s, run[0]);
      GrantIsWin(digest, s, run[0]);
      forall i | 0 <= i < |t.log| && t.log[i].Granting? ensures HasWinner(t.deciders, t.log[i].device, t.log[i].token) {
        if i < |s.log| {
          assert t.log[i] == s.log[i];
          WinnersStay(digest, s, run[0], t.log[i].device, t.log[i].token);
        }
      }
      GrantsOverRuns(digest, t, run[1..]);
    }
  }

  /** A token is granted to one request only. */
  lemma OneRequestPerToken(digest: string -> string, s: System, a: string, b: string, token: string)
    requires RowsInvariant(digest, s.deciders, s.sessions)
    requires HasWinner(s.deciders, a, token) && HasWinner(s.deciders, b, token)
    ensures a == b
  {
    var p :| p in s.deciders && s.deciders[p] == Won(a, token);
    var q :| q in s.deciders && s.deciders[q] == Won(b, token);
    assert p == q;
  }

  /** In every run a token is handed out at most once, whichever requests are polled. */
  lemma TokenHandedOutOnce(digest: string -> string, run: seq<Action>, i: nat, j: nat)
    requires Legal(digest, EMPTY, run)
    requires i < |Exec(digest, EMPTY, run).log| && j < |Exec(digest, EMPTY, run).log|
    requires Exec(digest, EMPTY, run).log[i].Delivered? && Exec(digest, EMPTY, run).log[j].Delivered?
    requires Exec(digest, EMPTY, run).log[i].token == Exec(digest, EMPTY, run).log[j].token
    ensures i == j
  {
    hide Exec, Legal, HasWinner;
    var t := Exec(digest, EMPTY, run);
    SystemOverRuns(digest, EMPTY, run);
    GrantsOverRuns(digest, EMPTY, run);
    TokensDeliveredOnce(digest, run, t.log[i].device);
    TokensDeliveredOnce(digest, run, t.log[j].device);
    DeliveredWon(t, i);
    DeliveredWon(t, j);
    OneRequestPerToken(digest, t, t.log[i].device, t.log[j].device, t.log[i].token);
    assert DeliveredAt(t.log, i, t.log[i].device) && DeliveredAt(t.log, j, t.log[i].device);
  }

  lemma DeliveredWon(t: System, i: nat)
    requires GrantsInvariant(t) && i < |t.log| && t.log[i].Delivered? && Earned(t.log, i)
    ensures HasWinner(t.deciders, t.log[i].device, t.log[i].token)
  {
    var g, c :| g < i && GrantedAt(t.log, g, t.log[i].device, t.log[i].token, t.log[i].username, c)
      && t.log[i].at - c <= EXPIRES_NANOS;
  }

  predicate SameWin(a: Decider, b: Decider) { a.Won? && b.Won? && a.device == b.device }

  /** Once every `decide_login` call has finished, at most one has won each request, every losing
      call's session row is gone (a concurrent touch never brings it back), and a winner whose
      request is still stored is the one whose token the request holds. */
  lemma NoOrphanTokens(digest: string -> string, run: seq<Action>)
    requires Legal(digest, EMPTY, run)
    ensures var t := Exec(digest, EMPTY, run);
      && (forall p, q :: p in t.deciders && q in t.deciders && SameWin(t.deciders[p], t.deciders[q]) ==> p == q)
      && (forall p :: p in t.deciders && t.deciders[p].Revoked? ==> digest(t.deciders[p].token) !in t.sessions)
      && (forall p :: p in t.deciders && t.deciders[p].Won? ==> digest(t.deciders[p].token) in t.sessions)
      && (forall p :: p in t.deciders && t.deciders[p].Won? && t.deciders[p].device in t.logins.byDevice ==>
            t.logins.byDevice[t.deciders[p].device].status.Approved?
            && t.logins.byDevice[t.deciders[p].device].status.token == t.deciders[p].token)
  {
    SystemOverRuns(digest, EMPTY, run);
  }

  /** Looking up and committing, with nothing between, is the store's own `approve`. */
  lemma ApprovalInOneGo(digest: string -> string, s: System, p: nat)
    requires p in s.deciders && s.deciders[p].Minted?
    ensures var call, s1 := s.deciders[p], Next(digest, s, LookUp(p));
      var (after, decision) := AfterApprove(s.logins, call.user, call.username, Some(call.token), s.now);
      if Enabled(digest, s1, Commit(p)) then
        var s2 := Next(digest, s1, Commit(p));
        && s2.logins == after
        && (s2.deciders[p].Won? <==> decision.Accepted?) && (s2.deciders[p].Losing? <==> decision.NotPending?)
      else
        s1.logins == after && decision.NotPending? && s1.deciders[p].Losing?
  {
  }

  /** Likewise for `deny`. */
  lemma DenialInOneGo(digest: string -> string, s: System, q: nat, user: string)
    requires q !in s.denials
    ensures var s1 := Next(digest, s, DenyLookUp(q, user));
      var (after, denied) := AfterDeny(s.logins, user, s.now);
      if Enabled(digest, s1, Deny(q)) then
        var s2 := Next(digest, s1, Deny(q));
        s2.logins == after && (denied <==> |s2.log| > |s.log|)
      else
        s1 == s && after == s.logins && !denied
  {
  }

  /** Sweeping, then the two inserts with nothing between, is the store's own `begin`. */
  lemma BeginInOneGo(digest: string -> string, s: System, device: string, user: string, caption: string)
    requires device !in s.used && Normalize(user) !in s.logins.byUser
    ensures var s1 := Next(digest, s, SweepAction);
      var (after, begun) := AfterBegin(s.logins, caption, Some((device, user)), s.now);
      && Enabled(digest, s1, BeginUser(device, user, caption))
      && var s2 := Next(digest, s1, BeginUser(device, user, caption));
         && Enabled(digest, s2, BeginDevice(device))
         && var s3 := Next(digest, s2, BeginDevice(device));
            && (begun.Ok? ==> s3.logins == after && begun.value == (device, user))
            && (begun.Ok? ==> s3.log == s.log + [Begun(device, Normalize(user), s.now)])
            && (begun.Err? ==> s1.logins == after && begun == Err(TooManyPending))
  {
    hide Normalize, CleanLabel, InsertUser, InsertDevice, Swept;
    SweptCodes(s.logins, s.now);
    var s1 := Next(digest, s, SweepAction);
    assert s1 == s.(logins := Swept(s.logins, s.now));
    BothInserts(digest, s1, device, user, caption);
  }

  lemma SweptCodes(l: Logins, now: int)
    ensures Swept(l, now).byUser.Keys <= l.byUser.Keys
  {
  }

  lemma BothInserts(digest: string -> string, s: System, device: string, user: string, caption: string)
    requires Enabled(digest, s, BeginUser(device, user, caption))
    ensures var s2 := Next(digest, s, BeginUser(device, user, caption));
      && Enabled(digest, s2, BeginDevice(device))
      && var s3 := Next(digest, s2, BeginDevice(device));
         && s3.log == s.log + [Begun(device, Normalize(user), s.now)]
         && s3.logins == InsertDevice(InsertUser(s.logins, Normalize(user), device), Normalize(user), device,
                                      CleanLabel(caption), s.now)
  {
    hide Normalize, CleanLabel, InsertUser, InsertDevice;
  }

  // ----- sequential runs -----

  datatype Call =
    | BeginCall(caption: string, codes: Option<(string, string)>, now: int)
    | PollCall(device: string, now: int)
    | ApproveCall(user: string, username: string, minted: Option<string>, now: int)
    | DenyCall(user: string, now: int)

  function Apply(l: Logins, c: Call): Logins {
    match c
    case BeginCall(caption, codes, now) => AfterBegin(l, caption, codes, now).0
    case PollCall(device, now) => AfterPoll(l, device, now).0
    case ApproveCall(user, username, minted, now) => AfterApprove(l, user, username, minted, now).0
    case DenyCall(user, now) => AfterDeny(l, user, now).0
  }

  function ApplyAll(l: Logins, calls: seq<Call>): Logins
    decreases calls
  {
    if calls == [] then l else ApplyAll(Apply(l, calls[0]), calls[1..])
  }

  ghost predicate DrawsFresh(l: Logins, calls: seq<Call>)
    decreases calls
  {
    calls == [] ||
    (&& (calls[0].BeginCall? && calls[0].codes.Some? ==> FreshCodes(l, calls[0].codes.value.0, calls[0].codes.value.1))
     && DrawsFresh(Apply(l, calls[0]), calls[1..]))
  }

  /** One call at a time, the maps stay mutually inverse and hold at most 4096 requests. */
  lemma {:induction false} LinkedAndBounded(l: Logins, calls: seq<Call>)
    requires Wf(l) && DrawsFresh(l, calls)
    ensures Wf(ApplyAll(l, calls))
    decreases calls
  {
    if calls != [] {
      match calls[0] {
        case BeginCall(caption, codes, now) => BeginKeeps(l, caption, codes, now);
        case PollCall(device, now) => PollKeeps(l, device, now);
        case ApproveCall(user, username, minted, now) => DecideKeeps(l, user, username, minted, now);
        case DenyCall(user, now) => DecideKeeps(l, user, "", None, now);
      }
      LinkedAndBounded(Apply(l, calls[0]), calls[1..]);
    }
  }
}
