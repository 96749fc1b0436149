/** Bearer sessions, keyed by the digest of the token: the row is the only source of validity. */
module Sessions {
  import opened Basics

  const TOUCH_THROTTLE_SECS: int := 3600
  const KIND_API: nat := 2
  const API_TOKEN_TTL_SECS: int := 365 * 24 * 3600

  datatype Session = Session(
    username: string, kind: nat, createdAt: int, expiresAt: int,
    caption: string, lastSeen: int, ip: string, device: string)

  type Rows = map<string, Session>

  function ApiSession(username: string, caption: string, now: int): Session {
    Session(username, KIND_API, now, now + API_TOKEN_TTL_SECS, caption, now, "", "")
  }

  /** The opaque handle shown to users: the first eight bytes of the digest, in hex. */
  function SessionId(digest: string): string { if |digest| <= 16 then digest else digest[..16] }

  /** The write half of `touch`: a keyed update, so an absent row stays absent. */
  function Touched(rows: Rows, digest: string, ip: string, device: string, now: int): (r: Rows)
    ensures r.Keys == rows.Keys
  {
    if digest in rows then rows[digest := rows[digest].(lastSeen := now, ip := ip, device := device)] else rows
  }

  /** The user's own rows, except the one whose handle is kept. */
  ghost function Others(rows: Rows, username: string, keepId: string): set<string> {
    set d | d in rows && rows[d].username == username && SessionId(d) != keepId
  }

  class SessionTable {
    var rows: Rows

    constructor ()
      ensures rows == map[]
    {
      rows := map[];
    }

    /** A fresh session; digests of random tokens do not collide. */
    method Put(digest: string, record: Session)
      requires digest !in rows
      modifies this
      ensures rows == old(rows)[digest := record]
    {
      rows := rows[digest := record];
    }

    /** A session for a fresh token, of which only the digest is kept. */
    method Mint(digest: string -> string, token: string, username: string, caption: string, now: int)
      requires digest(token) !in rows
      modifies this
      ensures digest(token) in rows && rows - {digest(token)} == old(rows)
      ensures var row := rows[digest(token)];
        && row.username == username && row.kind == 2 && row.caption == caption && row.createdAt == row.lastSeen == now
        && row.expiresAt == now + 31_536_000 && row.ip == row.device == ""
    {
      Put(digest(token), ApiSession(username, caption, now));
    }

    /** Who a token belongs to: nobody once its row is gone or expired. */
    method Username(digest: string, now: int) returns (r: Option<string>)
      ensures r.Some? <==> digest in rows && rows[digest].expiresAt > now
      ensures r.Some? ==> r.value == rows[digest].username
    {
      if digest in rows && rows[digest].expiresAt > now {
        return Some(rows[digest].username);
      }
      r := None;
    }

    method Delete(digest: string) returns (present: bool)
      modifies this
      ensures present == (digest in old(rows)) && rows == old(rows) - {digest}
    {
      present := digest in rows;
      if present {
        rows := rows - {digest};
      } else {
        assert rows - {digest} == rows;
      }
    }

    /** Throttled: nothing is written within an hour of the last touch. */
    method Touch(digest: string, ip: string, device: string, now: int)
      modifies this
      ensures digest in old(rows) && now - old(rows)[digest].lastSeen >= 3600 ==>
        var was := old(rows)[digest];
        rows == old(rows)[digest := Session(was.username, was.kind, was.createdAt, was.expiresAt, was.caption,
                                            now, ip, device)]
      ensures digest !in old(rows) || now - old(rows)[digest].lastSeen < 3600 ==> rows == old(rows)
    {
      if digest !in rows || now - rows[digest].lastSeen < TOUCH_THROTTLE_SECS {
        return;
      }
      rows := Touched(rows, digest, ip, device, now);
    }

    /** Sign out everywhere else: exactly the user's other rows go, nobody else's. */
    method DeleteOthers(username: string, keepId: string) returns (n: nat)
      modifies this
      ensures rows == old(rows) - Others(old(rows), username, keepId)
      ensures forall d :: d in rows <==>
        d in old(rows) && (old(rows)[d].username == username ==> (if |d| <= 16 then d else d[..16]) == keepId)
      ensures n == |Others(old(rows), username, keepId)|
    {
      n := 0;
      ghost var before := rows;
      ghost var gone: set<string> := {};
      var rest := set d | d in rows && rows[d].username == username;
      while rest != {}
        invariant forall d :: d in rest ==> d in before && before[d].username == username
        invariant forall d :: d in gone <==> d in Others(before, username, keepId) && d !in rest
        invariant rows == before - gone && n == |gone|
        decreases rest
      {
        var d :| d in rest;
        rest := rest - {d};
        if SessionId(d) != keepId {
          assert before - gone - {d} == before - (gone + {d});
          rows, gone, n := rows - {d}, gone + {d}, n + 1;
        }
      }
      assert gone == Others(before, username, keepId);
    }
  }
}
