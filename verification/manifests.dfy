/** Manifests, catalogue coordinates and the total order their maps iterate in. */
module Manifests {
  import opened Basics
  import opened Names

  /** One blob entry of a wire manifest; every field is optional on the wire. */
  datatype Blob = Blob(slot: Option<nat>, filename: Option<string>, sha: Option<string>, size: Option<nat>) {
    function Sha(): string { sha.GetOr("") }

    function File(): string { filename.GetOr("") }

    /** A blob entry that may be mapped to a path: parsed digest, present and plain file name. */
    predicate Named() {
      ValidSha(Sha()) && filename.Some? && ValidBasename(filename.value)
    }
  }

  /** The wire manifest; `rest` stands for the fields the store never looks at. */
  datatype Firmware = Firmware(device: Option<string>, version: Option<string>, blobs: seq<Blob>, rest: string)

  /** Coordinates `<device>/<version>`. Directory entries that are not valid
      coordinates (build directories, foreign drops) use the same pair. */
  datatype Key = Key(device: string, version: string) {
    predicate Valid() { ValidDevice(device) && ValidVersion(version) }
  }

  datatype Staged = Staged(firmware: Firmware, submittedBy: string)

  datatype StoreError =
    | InvalidArgument
    | NotFound(key: Key)
    | AlreadyExists(key: Key)
    | UnknownDevice(device: string)
    | MissingBlob(sha: string, file: string)
    | Quota
    | Io
    | Decode

  /** Everything outside the store: the digest, the manifest and text codecs, the
      device catalogue (slots per device) and the configured blob cap. */
  datatype Env = Env(
    digest: Bytes -> string,
    encode: Firmware -> Bytes,
    decode: Bytes -> Option<Firmware>,
    fromText: string -> Bytes,
    toText: Bytes -> Option<string>,
    slots: map<string, nat>,
    maxBlobBytes: nat)

  /** What the foreign code promises: digests are well-formed and both codecs round-trip. */
  ghost predicate EnvOk(env: Env) {
    && (forall b: Bytes :: ValidSha(env.digest(b)))
    && (forall fw: Firmware :: env.decode(env.encode(fw)) == Some(fw))
    && (forall s: string :: env.toText(env.fromText(s)) == Some(s))
  }

  /** `Key::of`: both names parsed, device first. */
  function KeyFor(device: string, version: string): (r: Result<Key, StoreError>)
    ensures r == if Key(device, version).Valid() then Ok(Key(device, version)) else Err(InvalidArgument)
  {
    if !ValidDevice(device) then Err(InvalidArgument)
    else if !ValidVersion(version) then Err(InvalidArgument)
    else Ok(Key(device, version))
  }

  /** `Key::parse`: the coordinates a manifest claims. */
  function KeyOf(fw: Firmware): (r: Result<Key, StoreError>)
    ensures r.Ok? ==> Claims(fw, r.value) && r.value.Valid()
    ensures r.Err? ==> r.error == InvalidArgument
    ensures forall k: Key :: Claims(fw, k) && k.Valid() ==> r == Ok(k)
  {
    if fw.device.GetOr("") == "" || fw.version.GetOr("") == "" then Err(InvalidArgument)
    else KeyFor(fw.device.value, fw.version.value)
  }

  /** The manifest claims exactly the coordinates `k`. */
  predicate Claims(fw: Firmware, k: Key) {
    fw.device == Some(k.device) && fw.version == Some(k.version)
  }

  predicate AllNamed(fw: Firmware) {
    forall b :: b in fw.blobs ==> b.Named()
  }

  /** No two blobs of different content share a file name. */
  predicate SameFileSameSha(fw: Firmware) {
    forall b, c :: b in fw.blobs && c in fw.blobs && b.File() == c.File() ==> b.Sha() == c.Sha()
  }

  // ----- the order of a BTreeMap over keys -----

  predicate LexLess(a: string, b: string) {
    b != "" && (a == "" || a[0] < b[0] || (a[0] == b[0] && LexLess(a[1..], b[1..])))
  }

  predicate KeyLess(a: Key, b: Key) {
    LexLess(a.device, b.device) || (a.device == b.device && LexLess(a.version, b.version))
  }

  lemma {:induction false} LexOrder(a: string, b: string, c: string)
    ensures a == b || LexLess(a, b) || LexLess(b, a)
    ensures !(LexLess(a, b) && LexLess(b, a)) && !LexLess(a, a)
    ensures LexLess(a, b) && LexLess(b, c) ==> LexLess(a, c)
  {
    if a != "" && b != "" {
      assert a == [a[0]] + a[1..] && b == [b[0]] + b[1..];
    }
    if a != "" {
      LexOrder(a[1..], if b != "" then b[1..] else "", if c != "" then c[1..] else "");
    }
  }

  lemma KeyOrder(a: Key, b: Key, c: Key)
    ensures a == b || KeyLess(a, b) || KeyLess(b, a)
    ensures !(KeyLess(a, b) && KeyLess(b, a)) && !KeyLess(a, a)
    ensures KeyLess(a, b) && KeyLess(b, c) ==> KeyLess(a, c)
  {
    LexOrder(a.device, b.device, c.device);
    LexOrder(a.version, b.version, c.version);
    LexOrder(b.device, c.device, a.device);
  }

  ghost predicate IsMax(k: Key, s: set<Key>) {
    k in s && forall j :: j in s && j != k ==> KeyLess(j, k)
  }

  lemma {:induction false} MaxExists(s: set<Key>)
    requires s != {}
    ensures exists k :: IsMax(k, s)
  {
    var x :| x in s;
    if s == {x} {
      assert IsMax(x, s);
    } else {
      MaxExists(s - {x});
      var m :| IsMax(m, s - {x});
      KeyOrder(x, m, m);
      if KeyLess(x, m) {
        assert IsMax(m, s);
      } else {
        forall j | j in s && j != x ensures KeyLess(j, x) {
          if j != m { KeyOrder(j, m, x); }
        }
        assert IsMax(x, s);
      }
    }
  }

  /** The key a sorted iteration over `s` visits last. */
  ghost function MaxKey(s: set<Key>): (k: Key)
    requires s != {}
    ensures IsMax(k, s)
  {
    MaxExists(s);
    var k :| IsMax(k, s);
    k
  }

  lemma MaxUnique(k: Key, s: set<Key>)
    requires IsMax(k, s)
    ensures MaxKey(s) == k
  {
    KeyOrder(k, MaxKey(s), k);
  }

  lemma {:induction false} MinExists(s: set<Key>)
    requires s != {}
    ensures exists k :: k in s && forall j :: j in s && j != k ==> KeyLess(k, j)
  {
    var x :| x in s;
    if s == {x} {
      assert forall j :: j in s && j != x ==> KeyLess(x, j);
    } else {
      MinExists(s - {x});
      var m :| m in s - {x} && forall j :: j in s - {x} && j != m ==> KeyLess(m, j);
      KeyOrder(x, m, m);
      if KeyLess(m, x) {
        assert forall j :: j in s && j != m ==> KeyLess(m, j);
      } else {
        forall j | j in s && j != x ensures KeyLess(x, j) {
          if j != m { KeyOrder(x, m, j); }
        }
      }
    }
  }
}
