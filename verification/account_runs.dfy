/** Accounts with every statement of every call interleaved at will. */
module AccountRuns {
  import opened Basics
  import opened Names
  import opened Accounts

  /** Where a call stands between its statements, with the record it is holding. */
  datatype Call =
    | Registering(user: User)
    | NameFree(user: User)
    | Inserting(user: User)
    | Upserting(user: User)
    | Writing(user: User, present: bool)
    | EmailFetched(user: User)
    | EmailFree(user: User)

  datatype System = System(table: Table, calls: map<nat, Call>)

  datatype Action =
    | BeginRegister(p: nat, user: User)
    | CheckName(p: nat)
    | CheckEmail(p: nat)
    | InsertRow(p: nat)
    | FetchAdd(p: nat, username: string, credential: Credential)
    | FetchRemove(p: nat, username: string, id: string)
    | CountPresent(p: nat)
    | WriteRow(p: nat)
    | FetchEmail(p: nat, username: string, email: Option<string>)
    | CheckEmailFree(p: nat)
    | WriteEmail(p: nat)

  ghost predicate Enabled(s: System, a: Action) {
    match a
    case BeginRegister(p, user) => p !in s.calls && |user.credentials| == 1
    case CheckName(p) => p in s.calls && s.calls[p].Registering?
    case CheckEmail(p) => p in s.calls && s.calls[p].NameFree?
    case InsertRow(p) => p in s.calls && s.calls[p].Inserting?
    case FetchAdd(p, _, _) => p !in s.calls
    case FetchRemove(p, _, _) => p !in s.calls
    case CountPresent(p) => p in s.calls && s.calls[p].Upserting?
    case WriteRow(p) => p in s.calls && s.calls[p].Writing?
    case FetchEmail(p, _, _) => p !in s.calls
    case CheckEmailFree(p) => p in s.calls && s.calls[p].EmailFetched?
    case WriteEmail(p) => p in s.calls && s.calls[p].EmailFree?
  }

  function Goes(s: System, p: nat, call: Call): System { s.(calls := s.calls[p := call]) }

  /** The call ends, successfully or with an error; either way it holds nothing more. */
  function Ends(s: System, p: nat, table: Table): System { System(table, s.calls - {p}) }

  ghost function Next(s: System, a: Action): System
    requires Enabled(s, a)
  {
    match a
    case BeginRegister(p, user) => Goes(s, p, Registering(user))
    case CheckName(p) =>
      var u := s.calls[p].user;
      if u.username in s.table then Ends(s, p, s.table) else Goes(s, p, NameFree(u))
    case CheckEmail(p) =>
      var u := s.calls[p].user;
      if EmailInUse(s.table, EmailKey(u)) then Ends(s, p, s.table) else Goes(s, p, Inserting(u))
    case InsertRow(p) =>
      var u := s.calls[p].user;
      Ends(s, p, Insert(s.table, u.username, RowOf(u)).0)
    case FetchAdd(p, username, credential) =>
      if username !in s.table || HasId(s.table[username].record.credentials, credential.id) then s
      else
        var u := s.table[username].record;
        Goes(s, p, Upserting(u.(credentials := u.credentials + [credential])))
    case FetchRemove(p, username, id) =>
      if username !in s.table || !HasId(s.table[username].record.credentials, id)
         || |s.table[username].record.credentials| <= 1 then s
      else
        var u := s.table[username].record;
        Goes(s, p, Upserting(u.(credentials := Without(u.credentials, id))))
    case CountPresent(p) =>
      var u := s.calls[p].user;
      Goes(s, p, Writing(u, u.username in s.table))
    case WriteRow(p) =>
      var u := s.calls[p].user;
      var put := if s.calls[p].present then Update(s.table, u.username, RowOf(u)) else Insert(s.table, u.username,
                                                                                              RowOf(u));
      Ends(s, p, put.0)
    case FetchEmail(p, username, email) =>
      if username !in s.table then s else Goes(s, p, EmailFetched(s.table[username].record.(email := email)))
    case CheckEmailFree(p) =>
      var u := s.calls[p].user;
      if EmailHeld(s.table, EmailKey(u), u.username) then Ends(s, p, s.table) else Goes(s, p, EmailFree(u))
    case WriteEmail(p) =>
      var u := s.calls[p].user;
      var row := if u.username in s.table then s.table[u.username].(email := EmailKey(u), record := u) else RowOf(u);
      Ends(s, p, Update(s.table, u.username, row).0)
  }

  ghost predicate Legal(s: System, run: seq<Action>)
    decreases run
  {
    run == [] || (Enabled(s, run[0]) && Legal(Next(s, run[0]), run[1..]))
  }

  ghost function Exec(s: System, run: seq<Action>): System
    requires Legal(s, run)
    decreases run
  {
    if run == [] then s else Exec(Next(s, run[0]), run[1..])
  }

  /** Every held record is fit to be written: credentials sound, and, once fetched from an
      account, still carrying that account's identity. */
  ghost predicate CallOk(t: Table, c: Call) {
    && CredentialsOk(c.user)
    && (c.Upserting? || c.Writing? || c.EmailFetched? || c.EmailFree? ==>
          c.user.username in t && t[c.user.username].uuid == c.user.uuid)
    && (c.Writing? ==> c.present)
  }

  ghost predicate Invariant(s: System) {
    TableOk(s.table) && forall p :: p in s.calls ==> CallOk(s.table, s.calls[p])
  }

  /** Accounts never vanish and never change identity. */
  ghost predicate SameAccounts(t: Table, u: Table) {
    forall n :: n in t ==> n in u && u[n].uuid == t[n].uuid
  }

  lemma HeldKeep(s: System, p: nat, table: Table)
    requires Invariant(s) && TableOk(table) && SameAccounts(s.table, table)
    ensures Invariant(Ends(s, p, table))
  {
  }

  lemma GoesKeeps(s: System, p: nat, call: Call)
    requires Invariant(s) && CallOk(s.table, call)
    ensures Invariant(Goes(s, p, call))
  {
  }

  lemma FetchKeeps(s: System, a: Action)
    requires Invariant(s) && Enabled(s, a) && (a.FetchAdd? || a.FetchRemove? || a.FetchEmail?)
    ensures Invariant(Next(s, a)) && SameAccounts(s.table, Next(s, a).table)
  {
    hide TableOk, DistinctIds;
    assert a.username in s.table ==> RowOk(a.username, s.table[a.username]) by { TableRow(s.table, a.username); }
    if a.username in s.table {
      var u := s.table[a.username].record;
      match a
      case FetchAdd(p, _, credential) =>
        if !HasId(u.credentials, credential.id) {
          AppendDistinct(u.credentials, credential);
          GoesKeeps(s, p, Upserting(u.(credentials := u.credentials + [credential])));
        }
      case FetchRemove(p, _, id) =>
        WithoutKeeps(u.credentials, id);
        if HasId(u.credentials, id) && |u.credentials| > 1 {
          GoesKeeps(s, p, Upserting(u.(credentials := Without(u.credentials, id))));
        }
      case FetchEmail(p, _, email) => GoesKeeps(s, p, EmailFetched(u.(email := email)));
    }
  }

  lemma TableRow(t: Table, n: string)
    requires TableOk(t)
    ensures n in t ==> RowOk(n, t[n])
  {
  }

  lemma WriteStep(s: System, a: Action)
    requires Invariant(s) && Enabled(s, a) && (a.InsertRow? || a.WriteRow? || a.WriteEmail?)
    ensures Invariant(Next(s, a)) && SameAccounts(s.table, Next(s, a).table)
  {
    hide TableOk, CredentialsOk, EmailHeld;
    var u := s.calls[a.p].user;
    assert CallOk(s.table, s.calls[a.p]);
    WriteKeeps(s.table, u);
    TableRow(s.table, u.username);
    if a.WriteEmail? {
      assert s.table[u.username].(email := EmailKey(u), record := u) == RowOf(u);
    }
    HeldKeep(s, a.p, Next(s, a).table);
  }

  lemma NextKeeps(s: System, a: Action)
    requires Invariant(s) && Enabled(s, a)
    ensures Invariant(Next(s, a)) && SameAccounts(s.table, Next(s, a).table)
  {
    hide TableOk, DistinctIds, EmailHeld;
    if a.FetchAdd? || a.FetchRemove? || a.FetchEmail? {
      FetchKeeps(s, a);
    } else if a.InsertRow? || a.WriteRow? || a.WriteEmail? {
      WriteStep(s, a);
    } else if a.BeginRegister? {
      SingleDistinct(a.user.credentials);
    }
  }

  lemma SingleDistinct(credentials: seq<Credential>)
    requires |credentials| == 1
    ensures DistinctIds(credentials)
  {
  }

  lemma {:induction false} InvariantOverRuns(s: System, run: seq<Action>)
    requires Invariant(s) && Legal(s, run)
    ensures Invariant(Exec(s, run)) && SameAccounts(s.table, Exec(s, run).table)
    decreases run
  {
    hide Invariant, Next, Enabled;
    if run != [] {
      NextKeeps(s, run[0]);
      InvariantOverRuns(Next(s, run[0]), run[1..]);
    }
  }

  /** In every reachable state: each account has at least one credential and pairwise distinct
      ids, its email column is the normalised email of its record, no two accounts have the same
      address up to letter case and white space at the ends, and accounts keep existing under the same identity. */
  lemma AccountsSound(s: System, run: seq<Action>, n: string, m: string)
    requires Invariant(s) && Legal(s, run) && n in Exec(s, run).table && m in Exec(s, run).table
    ensures var t := Exec(s, run).table;
      && t[n].record.credentials != [] && DistinctIds(t[n].record.credentials)
      && t[n].email == EmailKey(t[n].record) && t[n].record.username == n
      && (n != m && t[n].record.email.Some? && t[m].record.email.Some? ==>
          !SameAddress(t[n].record.email.value, t[m].record.email.value))
    ensures SameAccounts(s.table, Exec(s, run).table)
  {
    hide SameAddress, NormalizeEmail, Legal, Exec;
    InvariantOverRuns(s, run);
    var t := Exec(s, run).table;
    TableRow(t, n);
    TableRow(t, m);
    if t[n].record.email.Some? && t[m].record.email.Some? {
      NormalizesAlike(t[n].record.email.value, t[m].record.email.value);
    }
  }

  lemma SingleAccountOk(u: User)
    requires CredentialsOk(u)
    ensures Invariant(System(map[u.username := RowOf(u)], map[]))
  {
  }

  lemma ThreeIds(a: Credential, b: Credential, c: Credential)
    requires DistinctIds([a, b, c])
    ensures a.id != b.id && b.id != c.id && a.id != c.id && DistinctIds([a, b])
  {
    assert [a, b, c][0] == a && [a, b, c][1] == b && [a, b, c][2] == c;
  }

  lemma NewCredential(credentials: seq<Credential>, c: Credential)
    ensures credentials + [c] != credentials
  {
    assert |credentials + [c]| == |credentials| + 1;
  }

  lemma TwoCredentials(a: Credential, b: Credential, c: Credential)
    requires a.id != b.id && b.id != c.id && a.id != c.id
    ensures HasId([a, b], b.id) && !HasId([a, b], c.id) && Without([a, b], b.id) == [a]
    ensures !HasId([a], b.id) && HasId([a, b] + [c], b.id)
  {
    assert a in [a, b] && b in [a, b] && ([a, b] + [c])[1] == b;
    assert [a, b][0] == a && [a, b][1..] == [b] && Without([b], b.id) == [];
  }

  lemma RewriteWithoutEmail(t: Table, u: User)
    requires u.email.None? && u.username in t
    ensures Update(t, u.username, RowOf(u)).0 == t[u.username := RowOf(u)]
  {
  }

  /** Two calls read the same record: one to add `c`, one to remove `id`. */
  lemma FetchesHold(s: System, u: User, id: string, c: Credential, added: User, removed: User)
    requires s == System(map[u.username := RowOf(u)], map[])
    requires HasId(u.credentials, id) && !HasId(u.credentials, c.id) && |u.credentials| > 1
    requires added == u.(credentials := u.credentials + [c]) && removed == u.(credentials := Without(u.credentials, id))
    ensures Enabled(s, FetchAdd(0, u.username, c))
    ensures var s1 := Next(s, FetchAdd(0, u.username, c));
      && Enabled(s1, FetchRemove(1, u.username, id))
      && Next(s1, FetchRemove(1, u.username, id))
         == System(s.table, map[0 := Upserting(added), 1 := Upserting(removed)])
  {
    hide HasId, Without;
    assert map[0 := Upserting(added)][1 := Upserting(removed)] == map[0 := Upserting(added), 1 := Upserting(removed)];
  }

  /** The two statements of an upsert, with nothing between them, write the record being held. */
  lemma UpsertGoes(s: System, p: nat, held: User)
    requires p in s.calls && s.calls[p] == Upserting(held) && held.username in s.table && held.email.None?
    ensures Enabled(s, CountPresent(p))
    ensures var t := Next(s, CountPresent(p));
      Enabled(t, WriteRow(p)) && Next(t, WriteRow(p)) == System(s.table[held.username := RowOf(held)], s.calls - {p})
  {
    RewriteWithoutEmail(s.table, held);
    hide Update, RowOf;
    assert s.calls[p := Writing(held, true)] - {p} == s.calls - {p};
  }

  /** Updates can be lost: a removal that runs between another call's read and write is undone. */
  lemma RemovalCanBeUndone(u: User, a: Credential, b: Credential, c: Credential)
    requires u.credentials == [a, b] && DistinctIds([a, b, c]) && u.email.None?
    ensures var s := System(map[u.username := RowOf(u)], map[]);
      var run := [FetchAdd(0, u.username, c), FetchRemove(1, u.username, b.id), CountPresent(1), WriteRow(1),
                  CountPresent(0), WriteRow(0)];
      && Invariant(s) && Legal(s, run) && Legal(s, run[..4])
      && u.username in Exec(s, run[..4]).table && u.username in Exec(s, run).table
      && !HasId(Exec(s, run[..4]).table[u.username].record.credentials, b.id)
      && HasId(Exec(s, run).table[u.username].record.credentials, b.id)
  {
    var n := u.username;
    hide TableOk, Invariant, EmailKey, Legal, Exec, DistinctIds, Update, HasId, Without, Next, Enabled;
    ThreeIds(a, b, c);
    SingleAccountOk(u);
    var s0 := System(map[n := RowOf(u)], map[]);
    var added, removed := u.(credentials := [a, b] + [c]), u.(credentials := [a]);
    TwoCredentials(a, b, c);
    var t0, t1, t2 := s0.table, map[n := RowOf(removed)], map[n := RowOf(added)];
    assert t0[n := RowOf(removed)] == t1 && t1[n := RowOf(added)] == t2;
    FetchesHold(s0, u, b.id, c, added, removed);
    var s2 := System(t0, map[0 := Upserting(added), 1 := Upserting(removed)]);
    UpsertGoes(s2, 1, removed);
    var s4 := System(t1, map[0 := Upserting(added)]);
    assert s2.calls - {1} == s4.calls;
    UpsertGoes(s4, 0, added);
    assert s4.calls - {0} == map[];
    SixSteps(s0, FetchAdd(0, n, c), FetchRemove(1, n, b.id), CountPresent(1), WriteRow(1), CountPresent(0),
             WriteRow(0));
  }

  lemma SixSteps(s: System, a: Action, b: Action, c: Action, d: Action, e: Action, f: Action)
    requires Enabled(s, a) && Enabled(Next(s, a), b) && Enabled(Next(Next(s, a), b), c)
    requires Enabled(Next(Next(Next(s, a), b), c), d) && Enabled(Next(Next(Next(Next(s, a), b), c), d), e)
    requires Enabled(Next(Next(Next(Next(Next(s, a), b), c), d), e), f)
    ensures Legal(s, [a, b, c, d, e, f]) && Legal(s, [a, b, c, d, e, f][..4])
    ensures Exec(s, [a, b, c, d, e, f][..4]) == Next(Next(Next(Next(s, a), b), c), d)
    ensures Exec(s, [a, b, c, d, e, f]) == Next(Next(Next(Next(Next(Next(s, a), b), c), d), e), f)
  {
    hide Next, Enabled;
    var s1 := Next(s, a);
    var s2 := Next(s1, b);
    var s3 := Next(s2, c);
    var s4 := Next(s3, d);
    var s5 := Next(s4, e);
    assert [a, b, c, d, e, f][..4] == [a, b, c, d];
    assert [a, b, c, d][1..] == [b, c, d] && [b, c, d][1..] == [c, d] && [c, d][1..] == [d] && [d][1..] == [];
    assert [a, b, c, d, e, f][1..] == [b, c, d, e, f] && [b, c, d, e, f][1..] == [c, d, e, f];
    assert [c, d, e, f][1..] == [d, e, f];
    assert [d, e, f][1..] == [e, f] && [e, f][1..] == [f] && [f][1..] == [];
    assert Legal(s4, []) && Legal(s3, [d]) && Exec(s3, [d]) == s4;
    assert Legal(s2, [c, d]) && Exec(s2, [c, d]) == s4;
    assert Legal(s1, [b, c, d]) && Exec(s1, [b, c, d]) == s4;
    var s6 := Next(s5, f);
    assert Legal(s6, []) && Legal(s5, [f]) && Exec(s5, [f]) == s6;
    assert Legal(s4, [e, f]) && Exec(s4, [e, f]) == s6;
    assert Legal(s3, [d, e, f]) && Exec(s3, [d, e, f]) == s6;
    assert Legal(s2, [c, d, e, f]) && Exec(s2, [c, d, e, f]) == s6;
    assert Legal(s1, [b, c, d, e, f]) && Exec(s1, [b, c, d, e, f]) == s6;
  }

  // ----- when a change sticks -----

  /** What a finished call left in an account: a credential gone, a credential there, or an email. */
  datatype Change = Removed(id: string) | Added(id: string) | EmailSet(email: Option<string>)

  ghost predicate Shows(u: User, c: Change) {
    match c
    case Removed(id) => !HasId(u.credentials, id)
    case Added(id) => HasId(u.credentials, id)
    case EmailSet(email) => u.email == email
  }

  /** The account is there, with the change. */
  ghost predicate Stands(s: System, n: string, c: Change) {
    n in s.table && Shows(s.table[n].record, c)
  }

  /** Call `p` will rewrite the account. */
  ghost predicate Rewrites(s: System, p: nat, n: string) {
    && p in s.calls && s.calls[p].user.username == n
    && (s.calls[p].Upserting? || s.calls[p].Writing? || s.calls[p].EmailFetched? || s.calls[p].EmailFree?)
  }

  /** It will do so from a record without the change. */
  ghost predicate Contradicts(s: System, p: nat, n: string, c: Change) {
    Rewrites(s, p, n) && !Shows(s.calls[p].user, c)
  }

  ghost predicate Contradicted(s: System, n: string, c: Change) {
    exists p :: Contradicts(s, p, n, c)
  }

  /** A call that starts in order to bring about the opposite. */
  predicate Opposes(a: Action, n: string, c: Change) {
    match c
    case Removed(id) => a.FetchAdd? && a.username == n && a.credential.id == id
    case Added(id) => a.FetchRemove? && a.username == n && a.id == id
    case EmailSet(email) => a.FetchEmail? && a.username == n && a.email != email
  }

  predicate Unopposed(run: seq<Action>, n: string, c: Change) {
    forall a :: a in run ==> !Opposes(a, n, c)
  }

  lemma StepStands(s: System, a: Action, n: string, c: Change)
    requires Invariant(s) && Enabled(s, a) && Stands(s, n, c) && !Contradicted(s, n, c) && !Opposes(a, n, c)
    ensures Stands(Next(s, a), n, c) && !Contradicted(Next(s, a), n, c)
  {
    hide TableOk, DistinctIds, EmailHeld, Shows;
    var t := Next(s, a);
    forall p ensures Contradicts(t, p, n, c) ==> Contradicts(s, p, n, c) || p == a.p {
    }
    if a.FetchAdd? || a.FetchRemove? || a.FetchEmail? {
      FetchedStands(s, a, n, c);
    } else {
      assert Contradicts(t, a.p, n, c) ==> Contradicts(s, a.p, n, c);
      WriterStands(s, a, n, c);
    }
  }

  /** What is read from an account with the change, and not in order to undo it, has the change. */
  lemma FetchedStands(s: System, a: Action, n: string, c: Change)
    requires Invariant(s) && Enabled(s, a) && Stands(s, n, c) && !Opposes(a, n, c)
    requires a.FetchAdd? || a.FetchRemove? || a.FetchEmail?
    ensures Next(s, a).table == s.table
    ensures !Contradicts(s, a.p, n, c) ==> !Contradicts(Next(s, a), a.p, n, c)
  {
    hide DistinctIds, EmailHeld, EmailsUnique, HasId;
    TableRow(s.table, a.username);
    if a.username in s.table {
      var u := s.table[a.username].record;
      match a
      case FetchAdd(p, _, credential) => IdsAdded(u.credentials, credential);
      case FetchRemove(p, _, other) => IdsRemoved(u.credentials, other);
      case FetchEmail(p, _, _) =>
    }
  }

  lemma IdsAdded(credentials: seq<Credential>, c: Credential)
    ensures forall id :: HasId(credentials + [c], id) <==> HasId(credentials, id) || c.id == id
  {
    assert forall x :: x in credentials + [c] <==> x in credentials || x == c;
  }

  lemma IdsRemoved(credentials: seq<Credential>, id: string)
    requires DistinctIds(credentials)
    ensures forall other :: HasId(Without(credentials, id), other) <==> HasId(credentials, other) && id != other
  {
    WithoutKeeps(credentials, id);
  }

  /** A write undoes the change only if its record is without it. */
  lemma WriterStands(s: System, a: Action, n: string, c: Change)
    requires Invariant(s) && Enabled(s, a) && Stands(s, n, c) && !Contradicts(s, a.p, n, c)
    requires !(a.FetchAdd? || a.FetchRemove? || a.FetchEmail?)
    ensures Stands(Next(s, a), n, c)
  {
    hide TableOk, DistinctIds, EmailHeld, Shows;
  }

  lemma {:induction false} StandsOverRuns(s: System, run: seq<Action>, n: string, c: Change)
    requires Invariant(s) && Legal(s, run) && Stands(s, n, c) && !Contradicted(s, n, c) && Unopposed(run, n, c)
    ensures Stands(Exec(s, run), n, c)
    decreases run
  {
    hide Invariant, Next, Enabled, Stands, Contradicted, Opposes;
    if run != [] {
      assert run[0] in run && Unopposed(run[1..], n, c);
      NextKeeps(s, run[0]);
      StepStands(s, run[0], n, c);
      StandsOverRuns(Next(s, run[0]), run[1..], n, c);
    }
  }

  lemma {:induction false} RunConcat(s: System, a: seq<Action>, b: seq<Action>)
    requires Legal(s, a) && Legal(Exec(s, a), b)
    ensures Legal(s, a + b) && Exec(s, a + b) == Exec(Exec(s, a), b)
    decreases a
  {
    hide Next, Enabled;
    if a == [] {
      assert a + b == b;
    } else {
      assert (a + b)[0] == a[0] && (a + b)[1..] == a[1..] + b;
      RunConcat(Next(s, a[0]), a[1..], b);
    }
  }

  lemma OneStep(s: System, a: Action)
    requires Enabled(s, a)
    ensures Legal(s, [a]) && Exec(s, [a]) == Next(s, a)
  {
    assert [a][1..] == [];
    assert Legal(Next(s, a), []);
  }

  lemma TwoSteps(s: System, a: Action, b: Action)
    requires Enabled(s, a) && Enabled(Next(s, a), b)
    ensures Legal(s, [a, b]) && Exec(s, [a, b]) == Next(Next(s, a), b)
  {
    hide Next, Enabled;
    OneStep(s, a);
    OneStep(Next(s, a), b);
    RunConcat(s, [a], [b]);
    assert [a] + [b] == [a, b];
  }

  /** No call starts on this account. */
  predicate Untouched(run: seq<Action>, n: string) {
    forall a :: a in run ==> !((a.FetchAdd? || a.FetchRemove? || a.FetchEmail?) && a.username == n)
  }

  /** The run gives the account the record `u`, and no call starts on the account in it. */
  ghost predicate Overwrites(s: System, run: seq<Action>, n: string, u: User) {
    Legal(s, run) && Untouched(run, n) && n in Exec(s, run).table && Exec(s, run).table[n].record == u
  }

  /** A call that will rewrite the account only has to go on, if no other account has its email. */
  lemma HolderOverwrites(s: System, p: nat, n: string) returns (run: seq<Action>)
    requires Invariant(s) && Rewrites(s, p, n) && !EmailHeld(s.table, EmailKey(s.calls[p].user), n)
    ensures Overwrites(s, run, n, s.calls[p].user)
  {
    hide TableOk, CredentialsOk, EmailHeld, Legal, Exec;
    assert CallOk(s.table, s.calls[p]);
    match s.calls[p] {
      case Upserting(u) =>
        run := [CountPresent(p), WriteRow(p)];
        TwoSteps(s, CountPresent(p), WriteRow(p));
      case Writing(u, present) =>
        run := [WriteRow(p)];
        OneStep(s, WriteRow(p));
      case EmailFetched(u) =>
        run := [CheckEmailFree(p), WriteEmail(p)];
        TwoSteps(s, CheckEmailFree(p), WriteEmail(p));
      case EmailFree(u) =>
        run := [WriteEmail(p)];
        OneStep(s, WriteEmail(p));
    }
  }

  lemma {:induction false} FreshNat(used: set<nat>) returns (q: nat)
    ensures q !in used && forall p :: p in used ==> p < q
  {
    if used == {} {
      q := 0;
    } else {
      var p :| p in used;
      var r := FreshNat(used - {p});
      q := if r > p then r else p + 1;
      forall x | x in used ensures x < q {
        if x != p { assert x in used - {p}; }
      }
    }
  }

  /** Another account can always give up its email; nothing else changes. */
  lemma EmailFreed(s: System, n: string, email: Option<string>) returns (run: seq<Action>)
    requires Invariant(s) && EmailHeld(s.table, email, n)
    ensures Legal(s, run) && Untouched(run, n)
    ensures var t := Exec(s, run);
      && t.calls == s.calls && Invariant(t) && !EmailHeld(t.table, email, n) && t.table.Keys == s.table.Keys
  {
    hide Legal, Exec, Invariant, Enabled, Next, EmailKey;
    var m :| m in s.table && m != n && s.table[m].email == email;
    var q := FreshNat(s.calls.Keys);
    var a, b, c := FetchEmail(q, m, None), CheckEmailFree(q), WriteEmail(q);
    EmailCleared(s, q, m);
    TwoSteps(s, a, b);
    OneStep(Next(Next(s, a), b), c);
    RunConcat(s, [a, b], [c]);
    run := [a, b] + [c];
    InvariantOverRuns(s, run);
    EmailGivenUp(s, m, s.table[m].record.(email := None), n, email);
  }

  /** Clearing an email takes three statements and cannot be refused. */
  lemma EmailCleared(s: System, q: nat, m: string)
    requires Invariant(s) && q !in s.calls && m in s.table
    ensures var s1 := Next(s, FetchEmail(q, m, None));
      && Enabled(s, FetchEmail(q, m, None)) && Enabled(s1, CheckEmailFree(q))
      && var s2 := Next(s1, CheckEmailFree(q));
         && Enabled(s2, WriteEmail(q))
         && Next(s2, WriteEmail(q)) == System(
              s.table[m := s.table[m].(email := None, record := s.table[m].record.(email := None))], s.calls)
  {
    hide CredentialsOk, EmailsUnique, NormalizeEmail;
    TableRow(s.table, m);
    var u := s.table[m].record.(email := None);
    var s1 := Next(s, FetchEmail(q, m, None));
    assert s1 == System(s.table, s.calls[q := EmailFetched(u)]);
    var s2 := Next(s1, CheckEmailFree(q));
    assert s2 == System(s.table, s.calls[q := EmailFree(u)]);
    assert s.calls[q := EmailFree(u)] - {q} == s.calls;
  }

  lemma EmailGivenUp(s: System, m: string, u: User, n: string, email: Option<string>)
    requires Invariant(s) && m in s.table && s.table[m].email == email && email.Some?
    requires u == s.table[m].record.(email := None)
    ensures var t := s.table[m := s.table[m].(email := None, record := u)];
      !EmailHeld(t, email, n) && t.Keys == s.table.Keys
  {
    hide RowOk;
  }

  /** From a state with the change, it stays under every continuation in which nobody asks for the
      opposite exactly when no unfinished call is going to write a record without it. */
  lemma ChangeSticksIff(s: System, n: string, c: Change)
    requires Invariant(s) && Stands(s, n, c)
    ensures (forall run :: Legal(s, run) && Unopposed(run, n, c) ==> Stands(Exec(s, run), n, c))
       <==> !Contradicted(s, n, c)
  {
    hide Invariant, Stands, Legal, Exec, Unopposed, Shows, EmailHeld;
    if Contradicted(s, n, c) {
      var p :| Contradicts(s, p, n, c);
      var run := AnyHolderOverwrites(s, p, n);
      OverwrittenFalls(s, run, n, s.calls[p].user, c);
    } else {
      forall run | Legal(s, run) && Unopposed(run, n, c) ensures Stands(Exec(s, run), n, c) {
        StandsOverRuns(s, run, n, c);
      }
    }
  }

  lemma OverwrittenFalls(s: System, run: seq<Action>, n: string, u: User, c: Change)
    requires Overwrites(s, run, n, u) && !Shows(u, c)
    ensures Legal(s, run) && Unopposed(run, n, c) && !Stands(Exec(s, run), n, c)
  {
    hide Legal, Exec, Shows;
  }

  lemma AnyHolderOverwrites(s: System, p: nat, n: string) returns (run: seq<Action>)
    requires Invariant(s) && Rewrites(s, p, n)
    ensures Overwrites(s, run, n, s.calls[p].user)
  {
    hide Invariant, Legal, Exec, EmailHeld;
    var email := EmailKey(s.calls[p].user);
    if EmailHeld(s.table, email, n) {
      var first := EmailFreed(s, n, email);
      var t := Exec(s, first);
      var second := HolderOverwrites(t, p, n);
      RunConcat(s, first, second);
      run := first + second;
    } else {
      run := HolderOverwrites(s, p, n);
    }
  }

  /** The write that ends a call on an account. */
  function LastWrite(call: Call, p: nat): Action {
    if call.EmailFree? then WriteEmail(p) else WriteRow(p)
  }

  /** A call's own write: unless another call is going to write a record without its change, the
      change is there for good. */
  lemma ChangeSticks(s: System, p: nat, c: Change, run: seq<Action>)
    requires Invariant(s) && p in s.calls && (s.calls[p].Writing? || s.calls[p].EmailFree?)
    requires var u := s.calls[p].user;
      && Shows(u, c) && !EmailHeld(s.table, EmailKey(u), u.username) && !Contradicted(s, u.username, c)
      && Legal(Next(s, LastWrite(s.calls[p], p)), run) && Unopposed(run, u.username, c)
    ensures Stands(Exec(Next(s, LastWrite(s.calls[p], p)), run), s.calls[p].user.username, c)
  {
    hide TableOk, CredentialsOk, Shows, Legal, Exec, Unopposed, EmailHeld;
    var n, t := s.calls[p].user.username, Next(s, LastWrite(s.calls[p], p));
    assert CallOk(s.table, s.calls[p]);
    NextKeeps(s, LastWrite(s.calls[p], p));
    forall q ensures !Contradicts(t, q, n, c) {
      assert !Contradicts(s, q, n, c);
    }
    StandsOverRuns(t, run, n, c);
  }

  // ----- one call at a time -----

  /** The statements of a removal, with nothing between them, are `Passkeys.Remove`. */
  lemma RemovalInOneGo(s: System, p: nat, n: string, id: string)
    requires Invariant(s) && p !in s.calls
    ensures var run := [FetchRemove(p, n, id), CountPresent(p), WriteRow(p)];
      var (t, r) := AfterRemove(s.table, n, id);
      if r.Ok? then Legal(s, run) && Exec(s, run) == System(t, s.calls)
      else Enabled(s, run[0]) && Next(s, run[0]) == s && t == s.table
  {
    hide TableOk, Legal, Exec, HasId, Without, RowOf;
    TableRow(s.table, n);
    if AfterRemove(s.table, n, id).1.Ok? {
      var u := s.table[n].record;
      UpsertInOneGo(s, p, u, u.(credentials := Without(u.credentials, id)), FetchRemove(p, n, id));
    }
  }

  /** Those of an addition are the last part of `Passkeys.FinishAdd`. */
  lemma AdditionInOneGo(s: System, p: nat, n: string, c: Credential)
    requires Invariant(s) && p !in s.calls
    ensures var run := [FetchAdd(p, n, c), CountPresent(p), WriteRow(p)];
      var (t, r) := AfterAdd(s.table, n, c);
      if r.Ok? && t != s.table then Legal(s, run) && Exec(s, run) == System(t, s.calls)
      else Enabled(s, run[0]) && Next(s, run[0]) == s && t == s.table
  {
    hide TableOk, Legal, Exec;
    TableRow(s.table, n);
    if n in s.table && !HasId(s.table[n].record.credentials, c.id) {
      var u := s.table[n].record;
      UpsertInOneGo(s, p, u, u.(credentials := u.credentials + [c]), FetchAdd(p, n, c));
      NewCredential(u.credentials, c);
      assert AfterAdd(s.table, n, c).0[n].record != u;
    }
  }

  lemma UpsertInOneGo(s: System, p: nat, u: User, held: User, fetch: Action)
    requires Invariant(s) && p !in s.calls && held.username in s.table && s.table[held.username].record == u
    requires held.email == u.email && fetch.p == p
    requires Enabled(s, fetch) && Next(s, fetch) == System(s.table, s.calls[p := Upserting(held)])
    ensures Legal(s, [fetch, CountPresent(p), WriteRow(p)])
    ensures Exec(s, [fetch, CountPresent(p), WriteRow(p)])
         == System(s.table[held.username := RowOf(held)], s.calls)
  {
    hide TableOk, Legal, Exec, EmailHeld;
    OwnEmailFree(s.table, held.username);
    var s1 := Next(s, fetch);
    TwoSteps(s1, CountPresent(p), WriteRow(p));
    assert s1.calls[p := Writing(held, true)] - {p} == s.calls;
    OneStep(s, fetch);
    RunConcat(s, [fetch], [CountPresent(p), WriteRow(p)]);
    assert [fetch] + [CountPresent(p), WriteRow(p)] == [fetch, CountPresent(p), WriteRow(p)];
  }

  /** Those of an email change are `Passkeys.SetEmail`. */
  lemma EmailInOneGo(s: System, p: nat, n: string, email: Option<string>)
    requires Invariant(s) && p !in s.calls
    ensures var run := [FetchEmail(p, n, email), CheckEmailFree(p), WriteEmail(p)];
      var (t, r) := AfterSetEmail(s.table, n, email);
      if r.Ok? then Legal(s, run) && Exec(s, run) == System(t, s.calls)
      else if n in s.table then Legal(s, run[..2]) && Exec(s, run[..2]) == s && t == s.table
      else Enabled(s, run[0]) && Next(s, run[0]) == s && t == s.table
  {
    hide TableOk, Legal, Exec, EmailHeld, EmailKey;
    TableRow(s.table, n);
    if n in s.table {
      var u := s.table[n].record.(email := email);
      var a, b, c := FetchEmail(p, n, email), CheckEmailFree(p), WriteEmail(p);
      TwoSteps(s, a, b);
      assert [a, b, c][..2] == [a, b] && [a, b] + [c] == [a, b, c];
      var s1, s2 := Next(s, a), Next(Next(s, a), b);
      assert s1.calls - {p} == s.calls && s.calls[p := EmailFetched(u)][p := EmailFree(u)] - {p} == s.calls;
      if !EmailHeld(s.table, EmailKey(u), n) {
        OneStep(s2, c);
        RunConcat(s, [a, b], [c]);
      }
    }
  }

  /** Those of a registration are `Passkeys.CreateIfAbsent`. */
  lemma RegistrationInOneGo(s: System, p: nat, user: User)
    requires p !in s.calls && |user.credentials| == 1
    ensures var run := [BeginRegister(p, user), CheckName(p), CheckEmail(p), InsertRow(p)];
      var (t, r) := AfterCreate(s.table, user);
      var upto := if r.Ok? then 4 else if r == Err(EmailTaken) then 3 else 2;
      Legal(s, run[..upto]) && Exec(s, run[..upto]) == System(t, s.calls)
  {
    hide Legal, Exec, EmailKey;
    var a, b, c, d := BeginRegister(p, user), CheckName(p), CheckEmail(p), InsertRow(p);
    TwoSteps(s, a, b);
    assert [a, b, c, d][..2] == [a, b] && [a, b, c, d][..3] == [a, b] + [c] && [a, b, c, d][..4] == [a, b] + [c, d];
    var s2 := Next(Next(s, a), b);
    assert Next(s, a).calls - {p} == s.calls;
    if user.username !in s.table {
      assert s2 == System(s.table, s.calls[p := NameFree(user)]);
      OneStep(s2, c);
      RunConcat(s, [a, b], [c]);
      assert s2.calls - {p} == s.calls && s2.calls[p := Inserting(user)] - {p} == s.calls;
      if !EmailInUse(s.table, EmailKey(user)) {
        TwoSteps(s2, c, d);
        RunConcat(s, [a, b], [c, d]);
      }
    }
  }
}
