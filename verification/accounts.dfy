/** Accounts: a read-modify-write record per user behind uniqueness columns, first one call
    at a time, then with every statement interleaved. */
module Accounts {
  import opened Basics
  import opened Names

  datatype Credential = Credential(id: string, caption: string, addedAt: int)

  datatype User = User(uuid: string, username: string, credentials: seq<Credential>, email: Option<string>)

  /** `email` is the normalised form, unique among rows that have one. */
  datatype Row = Row(uuid: string, email: Option<string>, record: User)

  /** Keyed by username, the primary key. */
  type Table = map<string, Row>

  function NormalizeEmail(email: string): string { LowerAll(Trim(email)) }

  /** Two addresses are the same once white space at the ends and the case of ASCII letters are ignored. */
  predicate SameAddress(a: string, b: string) { SameText(Trim(a), Trim(b)) }

  /** The normal form forgets the case of letters and the white space at the ends, and nothing else. */
  lemma NormalizesAlike(a: string, b: string)
    ensures NormalizeEmail(a) == NormalizeEmail(b) <==> SameAddress(a, b)
  {
    LowerAlike(Trim(a), Trim(b));
  }

  /** It is trimmed, has no capital letter, and does not depend on either. */
  lemma NormalFormShape(email: string, other: string, left: string, right: string)
    requires AllSpace(left) && AllSpace(right) && SameText(email, other)
    ensures var n := NormalizeEmail(email);
      && Trimmed(n) && (forall c :: c in n ==> !('A' <= c <= 'Z')) && SameText(n, Trim(email))
      && NormalizeEmail(left + other + right) == n && NormalizeEmail(n) == n
  {
    hide IsSpace;
    var trimmed := Trim(email);
    var n := NormalizeEmail(email);
    assert forall i :: 0 <= i < |trimmed| ==> n[i] == ToLower(trimmed[i]);
    assert SameText(n, trimmed);
    assert Trimmed(n) by {
      if trimmed != "" {
        FoldsAlike(n[0], trimmed[0]);
        FoldsAlike(n[|n| - 1], trimmed[|n| - 1]);
      }
    }
    TrimPadded(left, other, right);
    TrimSame(email, other);
    NormalizesAlike(email, left + other + right);
    NormalizesAlike(n, email);
  }

  function EmailKey(u: User): Option<string> {
    if u.email.Some? then Some(NormalizeEmail(u.email.value)) else None
  }

  function RowOf(u: User): Row { Row(u.uuid, EmailKey(u), u) }

  predicate HasId(credentials: seq<Credential>, id: string) {
    exists c :: c in credentials && c.id == id
  }

  function Without(credentials: seq<Credential>, id: string): seq<Credential> {
    Filter(credentials, (c: Credential) => c.id != id)
  }

  /** Some other account has this email. */
  predicate EmailHeld(t: Table, email: Option<string>, except: string) {
    email.Some? && exists n :: n in t && n != except && t[n].email == email
  }

  predicate EmailInUse(t: Table, email: Option<string>) {
    email.Some? && exists n :: n in t && t[n].email == email
  }

  /** Some other account's stored address is the same as this one. */
  ghost predicate AddressHeld(t: Table, email: Option<string>, except: string) {
    email.Some? && exists n :: n in t && n != except && HasAddress(t[n].record, email.value)
  }

  ghost predicate HasAddress(u: User, email: string) { u.email.Some? && SameAddress(u.email.value, email) }

  // ----- single statements, each atomic -----

  /** INSERT: fails on a taken username or email. */
  function Insert(t: Table, name: string, row: Row): (Table, bool) {
    if name in t || EmailHeld(t, row.email, name) then (t, false) else (t[name := row], true)
  }

  /** UPDATE by username: no row, no change; fails on an email another account holds. */
  function Update(t: Table, name: string, row: Row): (Table, bool) {
    if name !in t then (t, true)
    else if EmailHeld(t, row.email, name) then (t, false)
    else (t[name := row], true)
  }

  // ----- the invariant -----

  ghost predicate DistinctIds(credentials: seq<Credential>) {
    forall i, j :: 0 <= i < j < |credentials| ==> credentials[i].id != credentials[j].id
  }

  ghost predicate CredentialsOk(u: User) { u.credentials != [] && DistinctIds(u.credentials) }

  ghost predicate RowOk(name: string, row: Row) {
    && row == RowOf(row.record) && row.record.username == name && CredentialsOk(row.record)
  }

  ghost predicate EmailsUnique(t: Table) {
    forall a, b :: a in t && b in t && a != b && t[a].email.Some? ==> t[a].email != t[b].email
  }

  ghost predicate TableOk(t: Table) {
    (forall n :: n in t ==> RowOk(n, t[n])) && EmailsUnique(t)
  }

  /** What the unique column refuses, said of the addresses the accounts were given. */
  lemma HeldIff(t: Table, email: Option<string>, except: string)
    requires TableOk(t)
    ensures EmailHeld(t, if email.Some? then Some(NormalizeEmail(email.value)) else None, except)
       <==> AddressHeld(t, email, except)
  {
    hide NormalizeEmail, SameAddress, CredentialsOk, EmailsUnique;
    if email.Some? {
      forall n | n in t
        ensures t[n].email == Some(NormalizeEmail(email.value)) <==> HasAddress(t[n].record, email.value)
      {
        assert RowOk(n, t[n]);
        if t[n].record.email.Some? {
          NormalizesAlike(t[n].record.email.value, email.value);
        }
      }
    }
  }

  lemma WriteKeeps(t: Table, u: User)
    requires TableOk(t) && CredentialsOk(u)
    ensures TableOk(Insert(t, u.username, RowOf(u)).0) && TableOk(Update(t, u.username, RowOf(u)).0)
  {
    if !EmailHeld(t, EmailKey(u), u.username) {
      PutKeeps(t, u);
    }
  }

  /** Rewriting an account under its own email never violates uniqueness. */
  lemma OwnEmailFree(t: Table, n: string)
    requires TableOk(t) && n in t
    ensures !EmailHeld(t, EmailKey(t[n].record), n)
  {
    hide CredentialsOk, NormalizeEmail;
  }

  lemma PutKeeps(t: Table, u: User)
    requires TableOk(t) && CredentialsOk(u) && !EmailHeld(t, EmailKey(u), u.username)
    ensures TableOk(t[u.username := RowOf(u)])
  {
    hide CredentialsOk, NormalizeEmail;
  }

  /** Removing one of at least two credentials leaves at least one: this needs the ids distinct. */
  lemma {:induction false} WithoutKeeps(credentials: seq<Credential>, id: string)
    requires DistinctIds(credentials)
    ensures DistinctIds(Without(credentials, id)) && !HasId(Without(credentials, id), id)
    ensures |Without(credentials, id)| == |credentials| - (if HasId(credentials, id) then 1 else 0)
    ensures forall c :: c in credentials && c.id != id ==> c in Without(credentials, id)
    ensures forall c :: c in Without(credentials, id) ==> c in credentials
  {
    if credentials != [] {
      var first, rest := credentials[0], credentials[1..];
      WithoutKeeps(rest, id);
      assert forall c :: c in credentials <==> c == first || c in rest;
      if first.id == id {
        assert !HasId(rest, id);
      } else {
        assert HasId(credentials, id) <==> HasId(rest, id);
        var kept := Without(rest, id);
        forall i | 0 <= i < |kept| ensures kept[i].id != first.id {
          assert kept[i] in rest;
        }
      }
    }
  }

  /** Without distinct ids the last two credentials could go at once. */
  lemma DuplicatesWouldEmpty(c: Credential)
    ensures |[c, c]| >= 2 && Without([c, c], c.id) == []
  {
    assert Without([c], c.id) == [];
  }

  lemma AppendDistinct(credentials: seq<Credential>, c: Credential)
    requires DistinctIds(credentials) && !HasId(credentials, c.id)
    ensures DistinctIds(credentials + [c])
  {
  }

  // ----- one call at a time -----

  datatype Error =
    | UnknownFlow
    | Ceremony
    | InvalidEmail
    | UsernameTaken
    | EmailTaken
    | NoSuchUser
    | NoSuchCredential
    | LastCredential
    | Database

  datatype Flow = Register(uuid: string, username: string) | Authenticate | AddCredential(username: string)

  datatype Mode = SignedUp | SignedIn

  /** `create_if_absent`: what it does and answers. */
  ghost function AfterCreate(t: Table, user: User): (Table, Result<(), Error>) {
    if user.username in t then (t, Err(UsernameTaken))
    else if EmailHeld(t, EmailKey(user), user.username) then (t, Err(EmailTaken))
    else (t[user.username := RowOf(user)], Ok(()))
  }

  /** An addition and a removal change one account's credentials, by that credential, and nothing else. */
  lemma CredentialChanges(t: Table, name: string, c: Credential, id: string)
    requires TableOk(t)
    ensures var (u, r) := AfterAdd(t, name, c);
      && (r.Ok? <==> name in t) && (name !in t ==> u == t)
      && (name in t ==> SameButCredentials(t, u, name) && forall x :: x in u[name].record.credentials <==>
            x in t[name].record.credentials || (x == c && !HasId(t[name].record.credentials, c.id)))
    ensures var (u, r) := AfterRemove(t, name, id);
      && (r.Ok? <==> name in t && HasId(t[name].record.credentials, id) && |t[name].record.credentials| >= 2)
      && (r.Err? ==> u == t)
      && (r.Ok? ==> SameButCredentials(t, u, name) && forall x :: x in u[name].record.credentials <==>
            x in t[name].record.credentials && x.id != id)
  {
    hide EmailsUnique, NormalizeEmail, HasId;
    if name in t {
      assert RowOk(name, t[name]);
      WithoutKeeps(t[name].record.credentials, id);
      forall x | x in Without(t[name].record.credentials, id) ensures x.id != id {
        RemovedId(t[name].record.credentials, id, x);
      }
    }
  }

  lemma RemovedId(credentials: seq<Credential>, id: string, x: Credential)
    requires DistinctIds(credentials) && x in Without(credentials, id)
    ensures x.id != id
  {
    WithoutKeeps(credentials, id);
  }

  /** The account keeps its identity and email, and every other account its row. */
  ghost predicate SameButCredentials(t: Table, u: Table, name: string)
    requires name in t
  {
    && u - {name} == t - {name} && name in u && u[name].uuid == t[name].uuid && u[name].email == t[name].email
    && u[name].record == t[name].record.(credentials := u[name].record.credentials)
  }

  /** What a registration does and answers: the checks in order, then the new account. */
  ghost function Registered(t: Table, uuid: string, username: string, passkey: Option<Credential>,
                            email: Result<Option<string>, ()>): (Table, Result<(string, Mode), Error>) {
    if passkey.None? then (t, Err(Ceremony))
    else if email.Err? then (t, Err(InvalidEmail))
    else
      match AfterCreate(t, User(uuid, username, [passkey.value], email.value))
      case (u, Ok(_)) => (u, Ok((username, SignedUp)))
      case (u, Err(e)) => (u, Err(e))
  }

  /** Adding a verified credential to an account, never a second one of the same id. */
  ghost function AfterAdd(t: Table, name: string, c: Credential): (Table, Result<Credential, Error>) {
    if name !in t then (t, Err(NoSuchUser))
    else
      var was := t[name].record;
      (if HasId(was.credentials, c.id) then t else t[name := RowOf(was.(credentials := was.credentials + [c]))], Ok(c))
  }

  /** Removing a credential, unless it is the last one. */
  ghost function AfterRemove(t: Table, name: string, id: string): (Table, Result<(), Error>) {
    if name !in t then (t, Err(NoSuchUser))
    else
      var was := t[name].record;
      if !HasId(was.credentials, id) then (t, Err(NoSuchCredential))
      else if |was.credentials| <= 1 then (t, Err(LastCredential))
      else (t[name := RowOf(was.(credentials := Without(was.credentials, id)))], Ok(()))
  }

  /** Setting or clearing the email, unless another account has it. */
  ghost function AfterSetEmail(t: Table, name: string, email: Option<string>): (Table, Result<(), Error>) {
    if name !in t then (t, Err(NoSuchUser))
    else
      var user := t[name].record.(email := email);
      if EmailHeld(t, EmailKey(user), name) then (t, Err(EmailTaken)) else (t[name := RowOf(user)], Ok(()))
  }

  /** A registration and an email change are refused for their address exactly when another account
      was given the same one, however either spelled it. */
  lemma EmailRefusedIff(t: Table, user: User, name: string, email: Option<string>)
    requires TableOk(t)
    ensures AfterCreate(t, user).1 == Err(EmailTaken) <==>
      user.username !in t && AddressHeld(t, user.email, user.username)
    ensures AfterSetEmail(t, name, email).1 == Err(EmailTaken) <==> name in t && AddressHeld(t, email, name)
  {
    hide TableOk, EmailHeld, AddressHeld, NormalizeEmail;
    HeldIff(t, user.email, user.username);
    HeldIff(t, email, name);
  }

  /** What an authentication may answer: the account identified, once its signature is verified. */
  ghost predicate Authenticates(t: Table, identified: Option<string>, verified: bool,
                                r: Result<(string, Mode), Error>) {
    if identified.None? then r == Err(Ceremony)
    else if forall n :: n in t ==> t[n].uuid != identified.value then r == Err(NoSuchUser)
    else if !verified then r == Err(Ceremony)
    else r.Ok? && r.value.1 == SignedIn && r.value.0 in t && t[r.value.0].uuid == identified.value
  }

  lemma AddedOk(t: Table, n: string, c: Credential)
    requires TableOk(t) && n in t && !HasId(t[n].record.credentials, c.id)
    ensures CredentialsOk(t[n].record.(credentials := t[n].record.credentials + [c])) && t[n].record.username == n
  {
    AppendDistinct(t[n].record.credentials, c);
  }

  class Passkeys {
    var table: Table
    var pending: map<string, Flow>

    constructor ()
      ensures table == map[] && pending == map[]
    {
      table, pending := map[], map[];
    }

    /** `create_if_absent`: the checks, then the insert the constraints back. */
    method CreateIfAbsent(user: User) returns (r: Result<(), Error>)
      modifies this`table
      ensures (table, r) == AfterCreate(old(table), user)
    {
      if user.username in table {
        return Err(UsernameTaken);
      }
      if EmailInUse(table, EmailKey(user)) {
        return Err(EmailTaken);
      }
      var (t, ok) := Insert(table, user.username, RowOf(user));
      table := t;
      r := if ok then Ok(()) else Err(Database);
    }

    method Upsert(user: User) returns (r: Result<(), Error>)
      modifies this`table
      ensures if EmailHeld(old(table), EmailKey(user), user.username)
              then r == Err(Database) && table == old(table)
              else r == Ok(()) && table == old(table)[user.username := RowOf(user)]
    {
      var result := if user.username in table then Update(table, user.username, RowOf(user))
                    else Insert(table, user.username, RowOf(user));
      table := result.0;
      r := if result.1 then Ok(()) else Err(Database);
    }

    /** `finish`, all arms. `passkey` is the credential a registration verified, `identified` the account
        an authentication named, each absent if its ceremony failed; `verified` is the outcome of the
        final signature check and `email` of the address check. */
    method Finish(flow: string, passkey: Option<Credential>, email: Result<Option<string>, ()>,
                  identified: Option<string>, verified: bool) returns (r: Result<(string, Mode), Error>)
      requires TableOk(table)
      modifies this
      ensures TableOk(table) && pending == old(pending) - {flow}
      ensures flow !in old(pending) || old(pending)[flow].AddCredential? ==>
        r == Err(UnknownFlow) && table == old(table)
      ensures flow in old(pending) && old(pending)[flow].Register? ==>
        (table, r) == Registered(old(table), old(pending)[flow].uuid, old(pending)[flow].username, passkey, email)
      ensures flow in old(pending) && old(pending)[flow].Authenticate? ==>
        table == old(table) && Authenticates(table, identified, verified, r)
    {
      if flow !in pending {
        assert pending - {flow} == pending;
        return Err(UnknownFlow);
      }
      var ceremony := pending[flow];
      pending := pending - {flow};
      match ceremony {
        case Register(uuid, username) =>
          if passkey.None? {
            return Err(Ceremony);
          }
          if email.Err? {
            return Err(InvalidEmail);
          }
          var user := User(uuid, username, [passkey.value], email.value);
          var created := CreateIfAbsent(user);
          match created {
            case Err(e) => r := Err(e);
            case Ok(_) =>
              WriteKeeps(old(table), user);
              r := Ok((username, SignedUp));
          }
        case Authenticate =>
          if identified.None? {
            return Err(Ceremony);
          }
          if n :| n in table && table[n].uuid == identified.value {
            r := if verified then Ok((table[n].record.username, SignedIn)) else Err(Ceremony);
          } else {
            r := Err(NoSuchUser);
          }
        case AddCredential(_) => return Err(UnknownFlow);
      }
    }

    /** Add a passkey to the caller's own account, never a second one of the same id. */
    method FinishAdd(flow: string, passkey: Option<Credential>, caller: string) returns (r: Result<Credential, Error>)
      requires TableOk(table)
      modifies this
      ensures TableOk(table) && pending == old(pending) - {flow}
      ensures if flow !in old(pending) || old(pending)[flow] != AddCredential(caller) then
                table == old(table) && r == Err(UnknownFlow)
              else if passkey.None? then table == old(table) && r == Err(Ceremony)
              else (table, r) == AfterAdd(old(table), caller, passkey.value)
    {
      hide CredentialsOk, NormalizeEmail, EmailsUnique;
      if flow !in pending {
        assert pending - {flow} == pending;
        return Err(UnknownFlow);
      }
      var ceremony := pending[flow];
      pending := pending - {flow};
      if !ceremony.AddCredential? || ceremony.username != caller {
        return Err(UnknownFlow);
      }
      if passkey.None? {
        return Err(Ceremony);
      }
      if caller !in table {
        return Err(NoSuchUser);
      }
      var user := table[caller].record;
      if HasId(user.credentials, passkey.value.id) {
        return Ok(passkey.value);
      }
      AddedOk(table, caller, passkey.value);
      user := user.(credentials := user.credentials + [passkey.value]);
      WriteKeeps(table, user);
      OwnEmailFree(table, caller);
      var written := Upsert(user);
      r := if written.Ok? then Ok(passkey.value) else Err(Database);
    }

    /** Remove a passkey, unless it is the last one. */
    method Remove(username: string, id: string) returns (r: Result<(), Error>)
      requires TableOk(table)
      modifies this`table
      ensures TableOk(table)
      ensures (table, r) == AfterRemove(old(table), username, id)
    {
      if username !in table {
        return Err(NoSuchUser);
      }
      var user := table[username].record;
      if !HasId(user.credentials, id) {
        return Err(NoSuchCredential);
      }
      if |user.credentials| <= 1 {
        return Err(LastCredential);
      }
      WithoutKeeps(user.credentials, id);
      user := user.(credentials := Without(user.credentials, id));
      WriteKeeps(table, user);
      OwnEmailFree(table, username);
      r := Upsert(user);
    }

    /** Change or clear the recovery email, unique across accounts in normalised form. */
    method SetEmail(username: string, email: Option<string>) returns (r: Result<(), Error>)
      requires TableOk(table)
      modifies this`table
      ensures TableOk(table)
      ensures (table, r) == AfterSetEmail(old(table), username, email)
    {
      if username !in table {
        return Err(NoSuchUser);
      }
      var row := table[username];
      var user := row.record.(email := email);
      if EmailHeld(table, EmailKey(user), username) {
        return Err(EmailTaken);
      }
      WriteKeeps(table, user);
      table := Update(table, username, row.(email := EmailKey(user), record := user)).0;
      r := Ok(());
    }
  }
}
