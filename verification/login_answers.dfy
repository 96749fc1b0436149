/** What polls and decisions answer, in every interleaving, said by the log of events and the clock. */
module LoginAnswers {
  import opened Basics
  import opened Names
  import opened LoginStore
  import opened Sessions
  import opened LoginRuns

  /** Requests live for ten minutes. */
  predicate InTime(created: int, now: int) { now - created <= 600_000_000_000 }

  /** What a poll has to answer about a request with this life. */
  function Answer(life: Life, now: int): PollResult {
    match life
    case Waiting(_, created) => if InTime(created, now) then StillPending else Gone
    case Refusing(created) => if InTime(created, now) then Refused else Gone
    case Given(_, created, token, username) => if InTime(created, now) then Granted(token, username) else Gone
    case _ => Gone
  }

  /** A request still worth an answer is stored. */
  ghost predicate StoredInvariant(s: System) {
    forall d :: Answer(LifeOf(s.log, d), s.now) != Gone ==> d in s.logins.byDevice
  }

  /** What the entry of a request says is what its life says. */
  lemma EntryAnswer(e: Entry, life: Life, now: int)
    requires Matches(e, life)
    ensures Answer(life, now) ==
      if e.Expired(now) then Gone
      else match e.status
           case Pending => StillPending
           case Denied => Refused
           case Approved(token, username) => Granted(token, username)
  {
  }

  lemma PollAnswer(s: System, device: string)
    requires LivesInvariant(s) && StoredInvariant(s)
    ensures AfterPoll(s.logins, device, s.now).1 == Answer(LifeOf(s.log, device), s.now)
  {
    hide Answer, Matches;
    if device in s.logins.byDevice {
      EntryAnswer(s.logins.byDevice[device], LifeOf(s.log, device), s.now);
    }
  }

  /** No event: what was forgotten had expired, and the clock did not go back. */
  lemma StoredShrink(s: System, t: System)
    requires LivesInvariant(s) && StoredInvariant(s) && t.log == s.log && t.now >= s.now
    requires forall d :: d in s.logins.byDevice ==> d in t.logins.byDevice || s.logins.byDevice[d].Expired(t.now)
    ensures StoredInvariant(t)
  {
    hide Matches;
    forall d | Answer(LifeOf(t.log, d), t.now) != Gone ensures d in t.logins.byDevice {
      assert Answer(LifeOf(s.log, d), s.now) != Gone;
      EntryAnswer(s.logins.byDevice[d], LifeOf(s.log, d), t.now);
    }
  }

  /** One event: of the requests it is not about, none is forgotten. */
  lemma StoredEvent(s: System, t: System, e: Event)
    requires StoredInvariant(s) && t.log == s.log + [e] && t.now == s.now
    requires forall d :: d in s.logins.byDevice && d != e.device ==> d in t.logins.byDevice
    requires Answer(LifeOf(t.log, e.device), t.now) != Gone ==> e.device in t.logins.byDevice
    ensures StoredInvariant(t)
  {
    hide Answer;
    LifeFrame(s.log, e);
  }

  lemma PollStores(digest: string -> string, s: System, device: string)
    requires LivesInvariant(s) && StoredInvariant(s)
    ensures StoredInvariant(Next(digest, s, PollAction(device)))
  {
    hide LivesInvariant, StoredInvariant, Answer;
    var t := Next(digest, s, PollAction(device));
    var e := t.log[|s.log|];
    LifeFrame(s.log, e);
    PollAnswer(s, device);
    assert Answer(LifeOf(t.log, device), t.now) != Gone ==> device in t.logins.byDevice by {
      if e.Delivered? {
        assert Answer(LifeOf(t.log, device), t.now) == Gone by { HandedOver(s.log, e, t.now); }
      }
    }
    StoredEvent(s, t, e);
  }

  lemma HandedOver(log: seq<Event>, e: Event, now: int)
    requires e.Delivered?
    ensures Answer(LifeOf(log + [e], e.device), now) == Gone
  {
    LifeFrame(log, e);
  }

  lemma StoredKeep(digest: string -> string, s: System, a: Action)
    requires LivesInvariant(s) && StoredInvariant(s) && Enabled(digest, s, a)
    ensures StoredInvariant(Next(digest, s, a))
  {
    hide LivesInvariant, StoredInvariant, Answer, Normalize, CleanLabel, LifeOf;
    var t := Next(digest, s, a);
    match a
    case BeginDevice(device) => StoredEvent(s, t, t.log[|s.log|]);
    case PollAction(device) => PollStores(digest, s, device);
    case Deny(q) =>
      if OpenAt(s.logins, s.denials[q].0, s.now) { StoredEvent(s, t, t.log[|s.log|]); } else { StoredShrink(s, t); }
    case Commit(p) =>
      var open := OpenAt(s.logins, s.deciders[p].device, s.now);
      if open { StoredEvent(s, t, t.log[|s.log|]); } else { StoredShrink(s, t); }
    case SweepAction => StoredShrink(s, t);
    case _ => StoredShrink(s, t);
  }

  // ----- polls -----

  /** The event is a poll's answer. */
  predicate IsAnswer(e: Event) { e.Delivered? || e.Told? }

  function Said(e: Event): PollResult
    requires IsAnswer(e)
  {
    match e
    case Delivered(_, token, username, _) => Granted(token, username)
    case Told(_, answer, _) => answer
  }

  /** Every answer in the log was the one due by what the log said before it. */
  ghost predicate AnswersInvariant(log: seq<Event>) {
    forall i :: 0 <= i < |log| && IsAnswer(log[i]) ==> Due(log, i)
  }

  ghost predicate Due(log: seq<Event>, i: nat)
    requires i < |log| && IsAnswer(log[i])
  {
    Said(log[i]) == Answer(LifeOf(log[..i], log[i].device), log[i].at)
  }

  lemma AnswersKeep(digest: string -> string, s: System, a: Action)
    requires LivesInvariant(s) && StoredInvariant(s) && AnswersInvariant(s.log) && Enabled(digest, s, a)
    ensures AnswersInvariant(Next(digest, s, a).log)
  {
    hide LivesInvariant, StoredInvariant, Answer, LifeOf;
    var t := Next(digest, s, a);
    LogGrows(digest, s, a);
    NewAnswer(digest, s, a);
    hide Next, Enabled;
    if t.log != s.log {
      forall i | 0 <= i < |t.log| && IsAnswer(t.log[i]) ensures Due(t.log, i) {
        assert t.log[..i] == s.log[..i];
        if i < |s.log| {
          assert Due(s.log, i);
        } else {
          assert s.log[..i] == s.log;
        }
      }
    }
  }

  lemma NewAnswer(digest: string -> string, s: System, a: Action)
    requires LivesInvariant(s) && StoredInvariant(s) && Enabled(digest, s, a)
    ensures var log := Next(digest, s, a).log;
      |log| > |s.log| && IsAnswer(log[|s.log|]) ==>
        Said(log[|s.log|]) == Answer(LifeOf(s.log, log[|s.log|].device), log[|s.log|].at)
  {
    hide LivesInvariant, StoredInvariant, Answer, LifeOf, Normalize, CleanLabel, Swept, OpenAt;
    if a.PollAction? {
      PollAnswer(s, a.device);
    }
  }

  lemma {:induction false} AnswersOverRuns(digest: string -> string, s: System, run: seq<Action>)
    requires MapsInvariant(s) && LookupsInvariant(s) && LivesInvariant(s) && StoredInvariant(s)
    requires AnswersInvariant(s.log) && Legal(digest, s, run)
    ensures var t := Exec(digest, s, run);
      && MapsInvariant(t) && LookupsInvariant(t) && LivesInvariant(t) && StoredInvariant(t) && AnswersInvariant(t.log)
    decreases run
  {
    hide MapsInvariant, LookupsInvariant, LivesInvariant, StoredInvariant, AnswersInvariant, Next, Enabled;
    if run != [] {
      MapsKeep(digest, s, run[0]);
      LookupsKeep(digest, s, run[0]);
      LivesKeep(digest, s, run[0]);
      StoredKeep(digest, s, run[0]);
      AnswersKeep(digest, s, run[0]);
      AnswersOverRuns(digest, Next(digest, s, run[0]), run[1..]);
    }
  }

  lemma Reachable(digest: string -> string, run: seq<Action>)
    requires Legal(digest, EMPTY, run)
    ensures var t := Exec(digest, EMPTY, run);
      && MapsInvariant(t) && LookupsInvariant(t) && LivesInvariant(t) && StoredInvariant(t) && AnswersInvariant(t.log)
  {
    AnswersOverRuns(digest, EMPTY, run);
  }

  /** In every run each poll is answered by what happened to the request before: pending while begun and
      undecided, refused once denied, granted with the granted token until delivered, each within ten
      minutes of its beginning, and gone in every other case. The next poll will be, too. */
  lemma PollsAnswered(digest: string -> string, run: seq<Action>, i: nat, device: string)
    requires Legal(digest, EMPTY, run)
    ensures var t := Exec(digest, EMPTY, run);
      && (i < |t.log| && IsAnswer(t.log[i]) ==>
            Said(t.log[i]) == Answer(LifeOf(t.log[..i], t.log[i].device), t.log[i].at))
      && AfterPoll(t.logins, device, t.now).1 == Answer(LifeOf(t.log, device), t.now)
  {
    hide LivesInvariant, StoredInvariant, Answer, LifeOf, MapsInvariant, LookupsInvariant;
    Reachable(digest, run);
    var t := Exec(digest, EMPTY, run);
    PollAnswer(t, device);
    assert i < |t.log| && IsAnswer(t.log[i]) ==> Due(t.log, i);
  }

  // ----- decisions -----

  /** The request was begun under this user code within ten minutes, and nobody has decided it. */
  ghost predicate Awaits(log: seq<Event>, device: string, key: string, now: int) {
    var life := LifeOf(log, device);
    life.Waiting? && life.key == key && InTime(life.created, now)
  }

  /** A user code leads to the undecided request begun under it, if there is one. */
  lemma TargetAwaits(s: System, user: string)
    requires MapsInvariant(s) && LivesInvariant(s) && StoredInvariant(s)
    ensures forall d :: Awaits(s.log, d, Normalize(user), s.now) <==> Target(s.logins, user, s.now) == Some(d)
  {
    var key := Normalize(user);
    hide Normalize, LifeOf;
    forall d ensures Awaits(s.log, d, key, s.now) <==> Target(s.logins, user, s.now) == Some(d) {
      if d in s.logins.byDevice {
        assert Matches(s.logins.byDevice[d], LifeOf(s.log, d));
      }
      if key in s.logins.byUser {
        assert BelongsTo(s.logins, s.starting, key, s.logins.byUser[key]);
      }
    }
  }

  /** What a decision changes for pollers: the answer about the request it decided, nothing else. */
  lemma DecidedAnswers(l: Logins, d: string, status: Status, other: string, at: int)
    requires d in l.byDevice
    ensures other != d ==> AfterPoll(Decided(l, d, status), other, at).1 == AfterPoll(l, other, at).1
    ensures AfterPoll(Decided(l, d, status), d, at).1 ==
      if !InTime(l.byDevice[d].created, at) then Gone
      else match status
           case Pending => StillPending
           case Denied => Refused
           case Approved(token, username) => Granted(token, username)
  {
  }

  /** In every reachable state: `approve` and `deny` take effect exactly if an undecided request was begun
      under the code within ten minutes. The code's request then answers polls accordingly, and every
      other request as before. */
  lemma DecisionsExact(digest: string -> string, run: seq<Action>, user: string, username: string,
                       minted: Option<string>, other: string, at: int)
    requires Legal(digest, EMPTY, run)
    ensures var t := Exec(digest, EMPTY, run);
      var (approved, decision) := AfterApprove(t.logins, user, username, minted, t.now);
      var (refused, denied) := AfterDeny(t.logins, user, t.now);
      if exists d :: Awaits(t.log, d, Normalize(user), t.now) then
        var d :| Awaits(t.log, d, Normalize(user), t.now);
        && denied && decision == (if minted.Some? then Accepted else MintFailed)
        && (minted.None? ==> approved == t.logins)
        && (other != d ==>
              AfterPoll(approved, other, at).1 == AfterPoll(refused, other, at).1 == AfterPoll(t.logins, other, at).1)
        && (InTime(LifeOf(t.log, d).created, at) ==>
              && AfterPoll(refused, d, at).1 == Refused
              && (minted.Some? ==> AfterPoll(approved, d, at).1 == Granted(minted.value, username)))
      else !denied && decision == NotPending && approved == t.logins && refused == t.logins
  {
    hide LifeOf, Normalize, MapsInvariant, LookupsInvariant, AfterPoll, Decided, Target, AnswersInvariant, Legal, Exec;
    Reachable(digest, run);
    var t := Exec(digest, EMPTY, run);
    TargetAwaits(t, user);
    if exists d :: Awaits(t.log, d, Normalize(user), t.now) {
      var d :| Awaits(t.log, d, Normalize(user), t.now);
      StoredWhole(t, d);
      DecidedAnswers(t.logins, d, Denied, other, at);
      DecidedAnswers(t.logins, d, Denied, d, at);
      if minted.Some? {
        DecidedAnswers(t.logins, d, Approved(minted.value, username), other, at);
        DecidedAnswers(t.logins, d, Approved(minted.value, username), d, at);
      }
    }
  }

  lemma StoredWhole(s: System, d: string)
    requires LivesInvariant(s) && StoredInvariant(s) && LifeOf(s.log, d).Waiting?
    requires InTime(LifeOf(s.log, d).created, s.now)
    ensures d in s.logins.byDevice && s.logins.byDevice[d].created == LifeOf(s.log, d).created
  {
    hide LifeOf;
    assert Answer(LifeOf(s.log, d), s.now) != Gone;
    assert Matches(s.logins.byDevice[d], LifeOf(s.log, d));
  }

  /** The commit of a `decide_login` call that has looked its code up wins exactly if that request is
      still undecided and in time. */
  lemma CommitWinsIff(digest: string -> string, run: seq<Action>, p: nat)
    requires Legal(digest, EMPTY, run)
    requires p in Exec(digest, EMPTY, run).deciders && Exec(digest, EMPTY, run).deciders[p].Found?
    ensures var t := Exec(digest, EMPTY, run);
      var call := t.deciders[p];
      Next(digest, t, Commit(p)).deciders[p].Won? <==> Awaits(t.log, call.device, call.key, t.now)
  {
    hide LifeOf, Legal, Exec, MapsInvariant, LivesInvariant, StoredInvariant, AnswersInvariant, Awaits;
    Reachable(digest, run);
    var t := Exec(digest, EMPTY, run);
    var call := t.deciders[p];
    assert Leads(t.logins, t.starting, t.used, call.key, call.device);
    OpenAwaits(t, call.device, call.key);
    CommitIfOpen(digest, t, p);
  }

  lemma CommitIfOpen(digest: string -> string, s: System, p: nat)
    requires Enabled(digest, s, Commit(p))
    ensures Next(digest, s, Commit(p)).deciders[p].Won? <==> OpenAt(s.logins, s.deciders[p].device, s.now)
  {
    hide Decided, OpenAt;
  }

  lemma OpenAwaits(s: System, device: string, key: string)
    requires LivesInvariant(s) && StoredInvariant(s) && Leads(s.logins, s.starting, s.used, key, device)
    ensures OpenAt(s.logins, device, s.now) <==> Awaits(s.log, device, key, s.now)
  {
    hide LifeOf;
    if device in s.logins.byDevice {
      assert Matches(s.logins.byDevice[device], LifeOf(s.log, device));
    }
    if Awaits(s.log, device, key, s.now) {
      StoredWhole(s, device);
    }
  }
}
