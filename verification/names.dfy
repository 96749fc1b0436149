/** The string parsers that guard every path: digests, device ids, versions and
    blob file names, with the facts that keep their name spaces apart. */
module Names {
  import opened Basics

  const TMP_PREFIX := ".tmp-"
  const MANIFEST := "manifest.json"
  const SUBMITTED_BY := "submitted-by"

  // ----- characters -----

  predicate IsDigit(c: char) { '0' <= c <= '9' }

  predicate IsAlphanumeric(c: char) { IsDigit(c) || 'a' <= c <= 'z' || 'A' <= c <= 'Z' }

  predicate IsLowerHex(c: char) { IsDigit(c) || 'a' <= c <= 'f' }

  /** The Unicode White_Space property, which is what trimming removes. */
  predicate IsSpace(c: char) {
    var n := c as int;
    || 9 <= n <= 13 || n == 0x20 || n == 0x85 || n == 0xA0 || n == 0x1680
    || 0x2000 <= n <= 0x200A || n == 0x2028 || n == 0x2029 || n == 0x202F || n == 0x205F || n == 0x3000
  }

  function ToLower(c: char): char {
    if 'A' <= c <= 'Z' then (c as int + 32) as char else c
  }

  function ToUpper(c: char): char {
    if 'a' <= c <= 'z' then (c as int - 32) as char else c
  }

  /** Length of the UTF-8 form, which is what the length caps measure. */
  function Utf8Length(s: string): nat {
    if s == "" then 0 else
      var n := s[0] as int;
      (if n < 0x80 then 1 else if n < 0x800 then 2 else if n < 0x10000 then 3 else 4) + Utf8Length(s[1..])
  }

  // ----- trimming -----

  function TrimStart(s: string): (r: string)
    ensures r == "" || !IsSpace(r[0])
    ensures s == "" || !IsSpace(s[0]) ==> r == s
    ensures r != "" ==> s != "" && r[|r| - 1] == s[|s| - 1]
  {
    if s != "" && IsSpace(s[0]) then TrimStart(s[1..]) else s
  }

  function TrimEnd(s: string): (r: string)
    ensures r == "" || !IsSpace(r[|r| - 1])
    ensures s == "" || !IsSpace(s[|s| - 1]) ==> r == s
    ensures r != "" ==> s != "" && r[0] == s[0]
  {
    if s != "" && IsSpace(s[|s| - 1]) then TrimEnd(s[..|s| - 1]) else s
  }

  function Trim(s: string): (r: string)
    ensures r == s <==> Trimmed(s)
    ensures Trimmed(r)
  {
    TrimEnd(TrimStart(s))
  }

  predicate AllSpace(s: string) {
    forall i :: 0 <= i < |s| ==> IsSpace(s[i])
  }

  lemma {:induction false} TrimStartCut(s: string) returns (n: nat)
    ensures n <= |s| && TrimStart(s) == s[n..] && AllSpace(s[..n])
  {
    hide IsSpace;
    n := 0;
    if s != "" && IsSpace(s[0]) {
      var m := TrimStartCut(s[1..]);
      n := m + 1;
      assert s[n..] == s[1..][m..] && s[..n] == [s[0]] + s[1..][..m];
    }
  }

  lemma {:induction false} TrimEndCut(s: string) returns (n: nat)
    ensures n <= |s| && TrimEnd(s) == s[..n] && AllSpace(s[n..])
  {
    hide IsSpace;
    n := |s|;
    if s != "" && IsSpace(s[|s| - 1]) {
      var init := s[..|s| - 1];
      n := TrimEndCut(init);
      assert s[..n] == init[..n] && s[n..] == init[n..] + [s[|s| - 1]];
    }
  }

  /** `r` is `s` from `n` to `m`, and all outside is white space. */
  ghost predicate CutOf(r: string, s: string, n: nat, m: nat) {
    n <= m <= |s| && r == s[n..m] && AllSpace(s[..n]) && AllSpace(s[m..])
  }

  /** Trimming cuts white space off both ends and nothing else. */
  lemma TrimCuts(s: string)
    ensures exists n, m :: CutOf(Trim(s), s, n, m)
  {
    hide IsSpace, AllSpace, TrimStart, TrimEnd;
    var t := TrimStart(s);
    var n := TrimStartCut(s);
    var m := TrimEndCut(t);
    assert s[n..n + m] == t[..m] && s[n + m..] == t[m..];
    assert CutOf(Trim(s), s, n, n + m);
  }

  lemma {:induction false} TrimStartPadded(pad: string, s: string)
    requires AllSpace(pad)
    ensures TrimStart(pad + s) == TrimStart(s)
  {
    hide IsSpace;
    if pad == "" {
      assert pad + s == s;
    } else {
      assert (pad + s)[0] == pad[0] && (pad + s)[1..] == pad[1..] + s;
      TrimStartPadded(pad[1..], s);
    }
  }

  lemma {:induction false} TrimEndPadded(s: string, pad: string)
    requires AllSpace(pad)
    ensures TrimEnd(s + pad) == TrimEnd(s)
  {
    hide IsSpace;
    if pad == "" {
      assert s + pad == s;
    } else {
      var init := pad[..|pad| - 1];
      assert (s + pad)[|s + pad| - 1] == pad[|pad| - 1] && (s + pad)[..|s + pad| - 1] == s + init;
      TrimEndPadded(s, init);
    }
  }

  lemma {:induction false} TrimStartOn(s: string, pad: string)
    requires AllSpace(pad)
    ensures TrimStart(s + pad) == if TrimStart(s) == "" then "" else TrimStart(s) + pad
  {
    hide IsSpace;
    if s == "" {
      TrimStartPadded(pad, "");
      assert s + pad == pad + "" == pad;
    } else {
      assert (s + pad)[0] == s[0] && (s + pad)[1..] == s[1..] + pad;
      if IsSpace(s[0]) {
        TrimStartOn(s[1..], pad);
      }
    }
  }

  /** White space at the ends makes no difference. */
  lemma TrimPadded(left: string, s: string, right: string)
    requires AllSpace(left) && AllSpace(right)
    ensures Trim(left + s + right) == Trim(s)
  {
    TrimStartOn(left + s, right);
    TrimStartPadded(left, s);
    TrimEndPadded(TrimStart(s), right);
  }

  // ----- letter case -----

  /** The same character, or the same ASCII letter in the other case. */
  predicate SameLetter(a: char, b: char) {
    || a == b
    || ('a' <= a <= 'z' && a as int - b as int == 32)
    || ('a' <= b <= 'z' && b as int - a as int == 32)
  }

  /** Equal character by character, up to the case of ASCII letters. */
  predicate SameText(a: string, b: string) {
    |a| == |b| && forall i :: 0 <= i < |a| ==> SameLetter(a[i], b[i])
  }

  lemma FoldsAlike(a: char, b: char)
    ensures ToLower(a) == ToLower(b) <==> SameLetter(a, b)
    ensures ToUpper(a) == ToUpper(b) <==> SameLetter(a, b)
    ensures SameLetter(a, b) ==> (IsSpace(a) <==> IsSpace(b)) && (IsAlphanumeric(a) <==> IsAlphanumeric(b))
  {
  }

  function LowerAll(s: string): (r: string)
    ensures |r| == |s| && forall i :: 0 <= i < |s| ==> r[i] == ToLower(s[i])
  {
    if s == "" then "" else [ToLower(s[0])] + LowerAll(s[1..])
  }

  lemma LowerAlike(a: string, b: string)
    ensures LowerAll(a) == LowerAll(b) <==> SameText(a, b)
  {
    hide SameLetter, ToLower;
    if |a| == |b| {
      forall i | 0 <= i < |a| ensures ToLower(a[i]) == ToLower(b[i]) <==> SameLetter(a[i], b[i]) {
        FoldsAlike(a[i], b[i]);
      }
      if SameText(a, b) {
        assert forall i :: 0 <= i < |a| ==> LowerAll(a)[i] == LowerAll(b)[i];
      } else {
        var i :| 0 <= i < |a| && !SameLetter(a[i], b[i]);
        assert LowerAll(a)[i] != LowerAll(b)[i];
      }
    }
  }

  lemma {:induction false} TrimStartSame(a: string, b: string)
    requires SameText(a, b)
    ensures SameText(TrimStart(a), TrimStart(b))
  {
    hide IsSpace, SameLetter;
    if a != "" {
      FoldsAlike(a[0], b[0]);
      if IsSpace(a[0]) {
        TrimStartSame(a[1..], b[1..]);
      }
    }
  }

  lemma {:induction false} TrimEndSame(a: string, b: string)
    requires SameText(a, b)
    ensures SameText(TrimEnd(a), TrimEnd(b))
  {
    hide IsSpace, SameLetter;
    if a != "" {
      FoldsAlike(a[|a| - 1], b[|b| - 1]);
      if IsSpace(a[|a| - 1]) {
        TrimEndSame(a[..|a| - 1], b[..|b| - 1]);
      }
    }
  }

  lemma TrimSame(a: string, b: string)
    requires SameText(a, b)
    ensures SameText(Trim(a), Trim(b))
  {
    TrimStartSame(a, b);
    TrimEndSame(TrimStart(a), TrimStart(b));
  }

  /** No white space at either end. */
  predicate Trimmed(s: string) {
    s == "" || (!IsSpace(s[0]) && !IsSpace(s[|s| - 1]))
  }

  // ----- digests, devices, versions, file names -----

  predicate ValidSha(s: string) {
    |s| == 64 && forall i :: 0 <= i < |s| ==> IsLowerHex(s[i])
  }

  predicate ValidDevice(s: string) {
    && 0 < |s| <= 100
    && s[0] != '.'
    && forall i :: 0 <= i < |s| ==> IsAlphanumeric(s[i]) || s[i] == '.' || s[i] == '_' || s[i] == '-'
  }

  /** The dot-separated segments; always at least one. */
  function Segments(v: string): (r: seq<string>)
    ensures |r| > 0
  {
    if v == "" then [""]
    else if v[0] == '.' then [""] + Segments(v[1..])
    else var rest := Segments(v[1..]); [[v[0]] + rest[0]] + rest[1..]
  }

  predicate AllDigits(seg: string) {
    forall i :: 0 <= i < |seg| ==> IsDigit(seg[i])
  }

  predicate Numeric(seg: string) { seg != "" && AllDigits(seg) }

  predicate AllNumeric(segs: seq<string>) {
    forall i :: 0 <= i < |segs| ==> Numeric(segs[i])
  }

  predicate ValidVersion(v: string) {
    0 < |v| <= 100 && AllNumeric(Segments(v))
  }

  predicate StartsWith(s: string, prefix: string) { prefix <= s }

  predicate Contains(s: string, sub: string) {
    sub <= s || (s != "" && Contains(s[1..], sub))
  }

  /** `sub` stands in `s` from position `i` on. */
  ghost predicate StandsAt(s: string, sub: string, i: nat) {
    i + |sub| <= |s| && s[i..i + |sub|] == sub
  }

  lemma {:induction false} ContainsIff(s: string, sub: string)
    ensures Contains(s, sub) <==> exists i: nat :: StandsAt(s, sub, i)
  {
    assert StandsAt(s, sub, 0) <==> sub <= s;
    if sub <= s {
      assert StandsAt(s, sub, 0);
    } else if s != "" {
      ContainsIff(s[1..], sub);
      if i: nat :| StandsAt(s[1..], sub, i) {
        assert s[i + 1..i + 1 + |sub|] == s[1..][i..i + |sub|];
        assert StandsAt(s, sub, i + 1);
      }
      if i: nat :| StandsAt(s, sub, i) {
        assert i > 0;
        assert s[1..][i - 1..i - 1 + |sub|] == s[i..i + |sub|];
        assert StandsAt(s[1..], sub, i - 1);
      }
    }
  }

  lemma {:induction false} ContainsFirst(s: string, sub: string)
    requires sub != "" && Contains(s, sub)
    ensures sub[0] in s
  {
    if sub <= s {
      assert s[0] == sub[0];
    } else {
      ContainsFirst(s[1..], sub);
    }
  }

  predicate ValidBasename(file: string) {
    && file != ""
    && Utf8Length(file) <= 200
    && file != MANIFEST
    && file != SUBMITTED_BY
    && '/' !in file
    && '\\' !in file
    && !Contains(file, "..")
  }

  /** Names a file can be created under; `ValidBasename` lets through two kinds that cannot. */
  predicate Creatable(file: string) {
    file != "." && '\0' !in file
  }

  /** What a version looks like character by character: digits and single inner dots. */
  predicate DottedNumeric(v: string) {
    && v != ""
    && IsDigit(v[0])
    && IsDigit(v[|v| - 1])
    && (forall i :: 0 <= i < |v| ==> IsDigit(v[i]) || v[i] == '.')
    && (forall i :: 0 <= i < |v| - 1 ==> IsDigit(v[i]) || IsDigit(v[i + 1]))
  }

  /** A first segment that is still open to the left: digits only, possibly none. */
  predicate OpenNumeric(segs: seq<string>)
    requires |segs| > 0
  {
    AllDigits(segs[0]) && AllNumeric(segs[1..])
  }

  lemma {:induction false} SegmentsNumeric(v: string)
    ensures AllNumeric(Segments(v)) <==> DottedNumeric(v)
    ensures OpenNumeric(Segments(v)) <==> v == "" || DottedNumeric(v) || (v[0] == '.' && DottedNumeric(v[1..]))
  {
    var segs := Segments(v);
    if v == "" {
      assert !Numeric(segs[0]);
    } else {
      var rest := Segments(v[1..]);
      SegmentsNumeric(v[1..]);
      if v[0] == '.' {
        assert !Numeric(segs[0]);
        assert segs[1..] == rest;
      } else {
        assert segs[1..] == rest[1..] && segs[0] == [v[0]] + rest[0];
        assert AllNumeric(segs) <==> Numeric(segs[0]) && AllNumeric(segs[1..]) by {
          assert forall i :: 0 <= i < |segs| - 1 ==> segs[1..][i] == segs[i + 1];
          if AllNumeric(segs[1..]) {
            assert forall i :: 1 <= i < |segs| ==> segs[i] == segs[1..][i - 1];
          }
        }
        assert AllDigits(segs[0]) <==> IsDigit(v[0]) && AllDigits(rest[0]) by {
          assert segs[0][0] == v[0];
          assert forall i :: 0 <= i < |rest[0]| ==> segs[0][i + 1] == rest[0][i];
          if IsDigit(v[0]) && AllDigits(rest[0]) {
            assert forall i :: 1 <= i < |segs[0]| ==> segs[0][i] == rest[0][i - 1];
          }
        }
        if IsDigit(v[0]) {
          ExtendDotted(v);
        }
      }
    }
  }

  lemma ExtendDotted(v: string)
    requires v != "" && IsDigit(v[0])
    ensures DottedNumeric(v) <==> |v| == 1 || DottedNumeric(v[1..]) || (v[1] == '.' && DottedNumeric(v[2..]))
  {
    if |v| > 1 {
      assert forall i :: 0 <= i < |v[1..]| ==> v[1..][i] == v[i + 1];
      assert forall i :: 0 <= i < |v[2..]| ==> v[2..][i] == v[i + 2];
      if DottedNumeric(v) && !IsDigit(v[1]) {
        assert v[1] == '.' && IsDigit(v[2]);
        assert DottedNumeric(v[2..]);
      }
      if DottedNumeric(v) && IsDigit(v[1]) {
        assert DottedNumeric(v[1..]);
      }
      if DottedNumeric(v[1..]) {
        assert forall i :: 1 <= i < |v| ==> v[i] == v[1..][i - 1];
        forall i | 0 <= i < |v| - 1 ensures IsDigit(v[i]) || IsDigit(v[i + 1]) {
          if i > 0 { assert v[i] == v[1..][i - 1] && v[i + 1] == v[1..][i]; }
        }
      }
      if v[1] == '.' && DottedNumeric(v[2..]) {
        assert forall i :: 2 <= i < |v| ==> v[i] == v[2..][i - 2];
        forall i | 0 <= i < |v| - 1 ensures IsDigit(v[i]) || IsDigit(v[i + 1]) {
          if i > 1 { assert v[i] == v[2..][i - 2] && v[i + 1] == v[2..][i - 1]; }
        }
      }
    }
  }

  /** The segment-wise version parser accepts exactly the dotted-numeric strings of at most 100 characters. */
  lemma VersionShape(v: string)
    ensures ValidVersion(v) <==> |v| <= 100 && DottedNumeric(v)
  {
    SegmentsNumeric(v);
  }

  /** Neither a valid version nor a valid digest can be mistaken for a temporary name,
      and a blob can never overwrite the manifest or the submitter file beside it. */
  lemma NameSpacesDisjoint(version: string, sha: string, file: string)
    ensures ValidVersion(version) ==> !StartsWith(version, TMP_PREFIX)
    ensures ValidSha(sha) ==> !Contains(sha, TMP_PREFIX)
    ensures ValidBasename(file) ==> file != MANIFEST && file != SUBMITTED_BY
  {
    VersionShape(version);
    if ValidSha(sha) && Contains(sha, TMP_PREFIX) {
      ContainsFirst(sha, TMP_PREFIX);
      assert false;
    }
  }
}
