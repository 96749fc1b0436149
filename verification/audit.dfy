/** The audit table: append with retention, newest-first reads and paging. */
module AuditLog {
  import opened Basics

  const SINCE_CAP: nat := 500
  const RETENTION_SECS: int := 90 * 24 * 3600
  const MAX_ROWS: nat := 50_000
  const I64_MAX: int := 0x7FFF_FFFF_FFFF_FFFF
  const TWO_64: int := 0x1_0000_0000_0000_0000

  datatype Record = Record(at: int, actor: string, action: nat, target: string)

  /** `no` is the auto-increment primary key. */
  datatype Row = Row(no: int, record: Record)

  /** A table in key order; keys are positive `i64` values. */
  ghost predicate Table(rows: seq<Row>) {
    && (forall i :: 0 <= i < |rows| ==> 0 < rows[i].no <= I64_MAX)
    && (forall i, j :: 0 <= i < j < |rows| ==> rows[i].no < rows[j].no)
  }

  function MaxNo(rows: seq<Row>): int { if rows == [] then 0 else rows[|rows| - 1].no }

  /** The database assigns one more than the greatest key present. */
  function NextNo(rows: seq<Row>): int { MaxNo(rows) + 1 }

  /** A `u64` cursor reinterpreted as `i64`, as the casts do. */
  function AsI64(n: nat): int { if n <= I64_MAX then n else n - TWO_64 }

  function Clamp(limit: nat): nat { if limit <= I64_MAX then limit else I64_MAX }

  function InWindow(now: int): Row -> bool { (r: Row) => r.record.at >= now - RETENTION_SECS }

  /** The newest at most 50,000 rows among those inside the window, the new one included. */
  function Appended(rows: seq<Row>, record: Record): seq<Row> {
    Last(Filter(rows + [Row(NextNo(rows), record)], InWindow(record.at)), MAX_ROWS)
  }

  function After(no: int): Row -> bool { (r: Row) => r.no > no }

  /** The `n` newest rows, newest first. */
  function Newest(rows: seq<Row>, n: nat): seq<Row> { Reverse(Last(rows, n)) }

  function Since(rows: seq<Row>, after: nat): seq<Row> {
    Newest(Filter(rows, After(AsI64(after))), SINCE_CAP)
  }

  function Snapshot(rows: seq<Row>, limit: nat): seq<Row> { Newest(rows, Clamp(limit)) }

  function Matches(actor: Option<string>): Row -> bool {
    (r: Row) => actor.None? || r.record.actor == actor.value
  }

  function Before(before: nat): Row -> bool {
    (r: Row) => before == 0 || r.no < AsI64(before)
  }

  function Page(rows: seq<Row>, before: nat, limit: nat, actor: Option<string>): (seq<Row>, int) {
    var out := Newest(Filter(Filter(rows, Before(before)), Matches(actor)), Clamp(limit));
    (out, if |out| < limit || out == [] then 0 else out[|out| - 1].no)
  }

  class Audit {
    var rows: seq<Row>
    var bumps: nat

    constructor ()
      ensures rows == [] && bumps == 0
    {
      rows, bumps := [], 0;
    }

    /** Insert under a fresh key, then prune: the retention window first, then the row cap. */
    method Append(now: int, actor: string, action: nat, target: string)
      requires Table(rows) && MaxNo(rows) < I64_MAX
      modifies this
      ensures rows == Appended(old(rows), Record(now, actor, action, target))
      ensures Table(rows) && bumps == old(bumps) + 1
    {
      hide Filter, Last;
      InsertTable(rows, Record(now, actor, action, target));
      rows := rows + [Row(NextNo(rows), Record(now, actor, action, target))];
      FilterTable(rows, InWindow(now));
      rows := Filter(rows, InWindow(now));
      ghost var inside := rows;
      LastOf(inside, MAX_ROWS);
      var remaining := |rows|;
      if remaining > MAX_ROWS {
        var extra := remaining - MAX_ROWS;
        var oldest := rows[..extra];
        var upto := oldest[|oldest| - 1].no;
        SurplusGone(rows, extra);
        rows := Filter(rows, After(upto));
      }
      LastTable(inside, MAX_ROWS);
      bumps := bumps + 1;
    }

    method TakeSnapshot(limit: nat) returns (out: seq<Row>, max: int)
      requires Table(rows)
      ensures out == Snapshot(rows, limit)
      ensures limit >= 1 || rows == [] ==> max == MaxNo(rows)
      ensures limit == 0 ==> max == 0
    {
      out := Newest(rows, Clamp(limit));
      max := if out == [] then 0 else out[0].no;
    }

    /** A page and the cursor of the next one; 0 when exhausted. */
    method TakePage(before: nat, limit: nat, actor: Option<string>) returns (out: seq<Row>, next: int)
      requires Table(rows)
      ensures (out, next) == Page(rows, before, limit, actor)
    {
      var q := rows;
      if before > 0 {
        q := Filter(q, Before(before));
      } else {
        FilterAll(q, Before(before));
      }
      if actor.Some? {
        q := Filter(q, Matches(actor));
      } else {
        FilterAll(q, Matches(actor));
      }
      out := Newest(q, Clamp(limit));
      next := if |out| < limit then 0 else if out == [] then 0 else out[|out| - 1].no;
    }
  }

  lemma InsertTable(rows: seq<Row>, record: Record)
    requires Table(rows) && MaxNo(rows) < I64_MAX
    ensures Table(rows + [Row(NextNo(rows), record)])
  {
  }

  lemma LastOf<T>(s: seq<T>, n: nat)
    ensures |s| <= n ==> Last(s, n) == s
    ensures |s| > n ==> Last(s, n) == s[|s| - n..]
  {
  }

  // ----- filters over tables -----

  lemma {:induction false} FilterAll<T>(s: seq<T>, keep: T -> bool)
    requires forall x :: x in s ==> keep(x)
    ensures Filter(s, keep) == s
  {
    if s != [] {
      FilterAll(s[1..], keep);
    }
  }

  lemma {:induction false} FilterNone<T>(s: seq<T>, keep: T -> bool)
    requires forall x :: x in s ==> !keep(x)
    ensures Filter(s, keep) == []
  {
    if s != [] {
      FilterNone(s[1..], keep);
    }
  }

  lemma {:induction false} FilterTable(rows: seq<Row>, keep: Row -> bool)
    requires Table(rows)
    ensures Table(Filter(rows, keep))
  {
    if rows != [] {
      FilterTable(rows[1..], keep);
      var rest := Filter(rows[1..], keep);
      forall i | 0 <= i < |rest| ensures rows[0].no < rest[i].no {
        FilterIn(rows[1..], keep, rest[i]);
      }
    }
  }

  /** A filter that drops exactly a prefix. */
  lemma FilterSuffix<T>(s: seq<T>, n: nat, keep: T -> bool)
    requires n <= |s|
    requires forall i :: 0 <= i < n ==> !keep(s[i])
    requires forall i :: n <= i < |s| ==> keep(s[i])
    ensures Filter(s, keep) == s[n..]
  {
    assert s == s[..n] + s[n..];
    FilterConcat(s[..n], s[n..], keep);
    FilterNone(s[..n], keep);
    FilterAll(s[n..], keep);
  }

  lemma LastTable(rows: seq<Row>, n: nat)
    requires Table(rows)
    ensures Table(Last(rows, n))
  {
  }

  lemma FilterAppend(rows: seq<Row>, r: Row, keep: Row -> bool)
    requires keep(r)
    ensures Filter(rows + [r], keep) == Filter(rows, keep) + [r]
  {
    FilterConcat(rows, [r], keep);
    assert Filter([r], keep) == [r] + Filter([], keep);
  }

  /** Deleting up to the last of the `extra` oldest leaves exactly the others. */
  lemma SurplusGone(rows: seq<Row>, extra: nat)
    requires Table(rows) && 0 < extra <= |rows|
    ensures Filter(rows, After(rows[extra - 1].no)) == rows[extra..]
  {
    FilterSuffix(rows, extra, After(rows[extra - 1].no));
  }

  /** What the `n` newest rows are: all of them, or those from some key on. */
  lemma NewestShape(rows: seq<Row>, n: nat)
    requires Table(rows)
    ensures var out := Newest(rows, n);
      && Descending(out) && |out| <= n
      && (|rows| <= n ==> |out| == |rows| && forall r :: r in out <==> r in rows)
      && (|rows| > n > 0 ==> |out| == n && forall r :: r in out <==> r in rows && r.no >= out[n - 1].no)
      && (forall r :: r in out ==> r in rows)
      && (n > 0 && rows != [] ==> out != [] && out[0] == rows[|rows| - 1])
  {
    hide Reverse;
    var kept, out := Last(rows, n), Newest(rows, n);
    var m := |rows| - |kept|;
    assert forall i :: 0 <= i < |out| ==> out[i] == rows[|rows| - 1 - i];
    forall r | r in rows && (m == 0 || (n > 0 && r.no >= out[n - 1].no)) ensures r in out {
      var j :| 0 <= j < |rows| && rows[j] == r;
      assert j >= m;
      assert out[|rows| - 1 - j] == r;
    }
  }

  // ----- retention -----

  /** Whatever the clock did, the row just appended survives, so keys only go up. */
  lemma NewestSurvives(rows: seq<Row>, record: Record)
    requires Table(rows) && MaxNo(rows) < I64_MAX
    ensures Appended(rows, record) != []
    ensures Appended(rows, record)[|Appended(rows, record)| - 1] == Row(NextNo(rows), record)
    ensures Table(Appended(rows, record)) && MaxNo(Appended(rows, record)) == MaxNo(rows) + 1
  {
    hide Filter;
    var added := Row(NextNo(rows), record);
    assert Table(rows + [added]);
    FilterAppend(rows, added, InWindow(record.at));
    FilterTable(rows + [added], InWindow(record.at));
    LastTable(Filter(rows + [added], InWindow(record.at)), MAX_ROWS);
  }

  /** Exactly which rows an append keeps: at most 90 days older than it, with fewer than 50,000 newer ones
      of that kind. */
  lemma KeptIff(rows: seq<Row>, record: Record, r: Row)
    requires Table(rows) && MaxNo(rows) < I64_MAX
    ensures var all := rows + [Row(MaxNo(rows) + 1, record)];
      r in Appended(rows, record) <==>
        && r in all && r.record.at >= record.at - 7_776_000
        && |set q | q in all && q.record.at >= record.at - 7_776_000 && q.no > r.no| < 50_000
  {
    hide Filter;
    var all := rows + [Row(NextNo(rows), record)];
    assert Table(all);
    FilterTable(all, InWindow(record.at));
    AmongLast(Filter(all, InWindow(record.at)), MAX_ROWS, r);
    FilterIn(all, InWindow(record.at), r);
    AheadCount(all, InWindow(record.at), r.no);
    assert Ahead(all, InWindow(record.at), r.no)
        == set q | q in all && q.record.at >= record.at - 7_776_000 && q.no > r.no;
  }

  ghost function Ahead(rows: seq<Row>, fits: Row -> bool, no: int): set<Row> {
    set q | q in rows && fits(q) && q.no > no
  }

  lemma {:induction false} TableSet(rows: seq<Row>)
    requires Table(rows)
    ensures |set r | r in rows| == |rows|
  {
    if rows != [] {
      var init, last := rows[..|rows| - 1], rows[|rows| - 1];
      TableSet(init);
      LastIsNew(rows);
      hide Table;
      assert rows == init + [last];
      assert (set r | r in rows) == (set r | r in init) + {last};
    }
  }

  lemma LastIsNew(rows: seq<Row>)
    requires Table(rows) && rows != []
    ensures Table(rows[..|rows| - 1]) && rows[|rows| - 1] !in rows[..|rows| - 1]
  {
  }

  lemma AheadCount(rows: seq<Row>, fits: Row -> bool, no: int)
    requires Table(rows)
    ensures |Filter(Filter(rows, fits), After(no))| == |Ahead(rows, fits, no)|
  {
    hide Filter, Table;
    var ahead := Filter(Filter(rows, fits), After(no));
    FilterTable(rows, fits);
    FilterTable(Filter(rows, fits), After(no));
    TableSet(ahead);
    forall q ensures q in ahead <==> q in Ahead(rows, fits, no) {
      FilterIn(rows, fits, q);
      FilterIn(Filter(rows, fits), After(no), q);
    }
    assert (set r | r in ahead) == Ahead(rows, fits, no);
  }

  /** A limited newest-first reading shows a row exactly if fewer than the limit are ahead of it. */
  lemma NewestIff(rows: seq<Row>, fits: Row -> bool, n: nat, r: Row)
    requires Table(rows)
    ensures r in Newest(Filter(rows, fits), n) <==> r in rows && fits(r) && |Ahead(rows, fits, r.no)| < n
  {
    hide Filter, Last;
    var kept := Filter(rows, fits);
    FilterTable(rows, fits);
    AmongLast(kept, n, r);
    ReverseMembers(Last(kept, n), r);
    FilterIn(rows, fits, r);
    AheadCount(rows, fits, r.no);
  }

  lemma AmongLast(rows: seq<Row>, n: nat, r: Row)
    requires Table(rows)
    ensures r in Last(rows, n) <==> r in rows && |Filter(rows, After(r.no))| < n
  {
    var kept := Last(rows, n);
    var m := |rows| - |kept|;
    if r in rows {
      var i :| 0 <= i < |rows| && rows[i] == r;
      FilterSuffix(rows, i + 1, After(r.no));
      InSuffix(rows, m, i);
    }
  }

  lemma InSuffix(rows: seq<Row>, m: nat, i: nat)
    requires Table(rows) && m <= |rows| && i < |rows|
    ensures rows[i] in rows[m..] <==> i >= m
  {
    if i >= m {
      assert rows[m..][i - m] == rows[i];
    }
  }

  function AppendAll(rows: seq<Row>, records: seq<Record>): seq<Row> {
    if records == [] then rows else Appended(AppendAll(rows, records[..|records| - 1]), records[|records| - 1])
  }

  /** Keys are never reused: the n-th append always gets the n-th next key, under any clock. */
  lemma {:induction false} KeysNeverReused(rows: seq<Row>, records: seq<Record>)
    requires Table(rows) && MaxNo(rows) + |records| <= I64_MAX
    ensures Table(AppendAll(rows, records)) && MaxNo(AppendAll(rows, records)) == MaxNo(rows) + |records|
    ensures |records| > 0 ==> |AppendAll(rows, records)| <= MAX_ROWS
  {
    if records != [] {
      var init := records[..|records| - 1];
      KeysNeverReused(rows, init);
      NewestSurvives(AppendAll(rows, init), records[|records| - 1]);
    }
  }

  // ----- paging -----

  /** All pages from `before` on; the table may be a different one at each page. */
  ghost function Walk(tables: nat -> seq<Row>, i: nat, before: nat, limit: nat, actor: Option<string>): seq<Row>
    requires limit >= 1 && before <= I64_MAX
    requires forall j :: Table(tables(j))
    decreases if before == 0 then 1 else 0, before
  {
    PageShape(tables(i), before, limit, actor);
    var (out, next) := Page(tables(i), before, limit, actor);
    if next == 0 then out else out + Walk(tables, i + 1, next, limit, actor)
  }

  ghost predicate Descending(rows: seq<Row>) {
    forall i, j :: 0 <= i < j < |rows| ==> rows[i].no > rows[j].no
  }

  ghost function Candidates(rows: seq<Row>, before: nat, actor: Option<string>): seq<Row> {
    Filter(Filter(rows, Before(before)), Matches(actor))
  }

  /** A page is newest-first and below its cursor; the cursor strictly decreases; a full page
      resumes at its smallest key, a short one is the end; nothing above the resume point is skipped. */
  lemma PageShape(rows: seq<Row>, before: nat, limit: nat, actor: Option<string>)
    requires Table(rows) && before <= I64_MAX && limit >= 1
    ensures var (out, next) := Page(rows, before, limit, actor);
      && Descending(out)
      && (forall r :: r in out ==> r in rows && Before(before)(r) && Matches(actor)(r) && r.no > 0)
      && 0 <= next <= I64_MAX && (next > 0 && before > 0 ==> next < before)
      && (next > 0 ==> forall r :: r in out ==> r.no >= next)
      && (forall r :: r in rows && Before(before)(r) && Matches(actor)(r) && (next == 0 || r.no >= next) ==> r in out)
  {
    hide Table, Descending, Newest, Filter, Before, Matches;
    var all := Candidates(rows, before, actor);
    FilterTable(rows, Before(before));
    FilterTable(Filter(rows, Before(before)), Matches(actor));
    NewestShape(all, Clamp(limit));
    var (out, next) := Page(rows, before, limit, actor);
    LowestLast(out);
    CandidatesOnly(rows, before, actor);
    TableSize(all);
    if |out| > 0 {
      assert out[|out| - 1] in out;
    }
  }

  /** The row matches the actor and lies below the cursor; 0 stands for no cursor, and a cursor
      of 2^63 or more, which the cast makes negative, has nothing below it. */
  predicate Fits(r: Row, before: nat, actor: Option<string>) {
    && (actor.None? || r.record.actor == actor.value)
    && (before == 0 || (r.no < before && before < 0x8000_0000_0000_0000))
  }

  /** Exactly which rows a page shows, and what the next cursor is: 0 when nothing can be left,
      else the smallest key shown. */
  lemma PageExact(rows: seq<Row>, before: nat, limit: nat, actor: Option<string>)
    requires Table(rows) && before < TWO_64
    ensures var (out, next) := Page(rows, before, limit, actor);
      && Descending(out) && |out| <= limit
      && (forall r :: r in out <==>
            r in rows && Fits(r, before, actor) && |set q | q in rows && Fits(q, before, actor) && q.no > r.no| < limit)
      && (next == 0 <==> limit == 0 || |set q | q in rows && Fits(q, before, actor)| < limit)
      && (next != 0 ==> (exists r :: r in out && r.no == next) && forall r :: r in out ==> r.no >= next)
  {
    hide Table, Page, Descending, Fits;
    forall r ensures r in Page(rows, before, limit, actor).0 <==>
      r in rows && Fits(r, before, actor) && |set q | q in rows && Fits(q, before, actor) && q.no > r.no| < limit
    {
      PageRow(rows, before, limit, actor, r);
    }
    PageCursor(rows, before, limit, actor);
  }

  ghost function Fitting(rows: seq<Row>, before: nat, actor: Option<string>): set<Row> {
    set q | q in rows && Fits(q, before, actor)
  }

  lemma CandidateTable(rows: seq<Row>, before: nat, actor: Option<string>)
    requires Table(rows) && before < TWO_64
    ensures Table(Candidates(rows, before, actor))
    ensures |Candidates(rows, before, actor)| == |Fitting(rows, before, actor)| <= I64_MAX
  {
    hide Filter, Table, Fits, Before, Matches;
    var all := Candidates(rows, before, actor);
    CandidatesFit(rows, before, actor);
    FilterTable(rows, Before(before));
    FilterTable(Filter(rows, Before(before)), Matches(actor));
    TableSize(all);
    TableSet(all);
    assert (set q | q in all) == Fitting(rows, before, actor);
  }

  lemma PageRow(rows: seq<Row>, before: nat, limit: nat, actor: Option<string>, r: Row)
    requires Table(rows) && before < TWO_64
    ensures r in Page(rows, before, limit, actor).0 <==>
      r in rows && Fits(r, before, actor) && |set q | q in rows && Fits(q, before, actor) && q.no > r.no| < limit
  {
    hide Newest, Filter, Table, Fits, Before, Matches;
    var all := Candidates(rows, before, actor);
    var ahead := set q | q in rows && Fits(q, before, actor) && q.no > r.no;
    CandidateTable(rows, before, actor);
    CandidatesFit(rows, before, actor);
    NewestOf(all, Clamp(limit), r);
    assert ahead == set q | q in all && q.no > r.no;
    if r in all {
      assert r in Fitting(rows, before, actor) - ahead;
      SubsetSize(ahead, Fitting(rows, before, actor) - {r});
    }
  }

  lemma PageCursor(rows: seq<Row>, before: nat, limit: nat, actor: Option<string>)
    requires Table(rows) && before < TWO_64
    ensures var (out, next) := Page(rows, before, limit, actor);
      && Descending(out) && |out| <= limit
      && (next == 0 <==> limit == 0 || |set q | q in rows && Fits(q, before, actor)| < limit)
      && (next != 0 ==> (exists r :: r in out && r.no == next) && forall r :: r in out ==> r.no >= next)
  {
    hide Newest, Filter, Table, Fits, Before, Matches, Descending;
    var all := Candidates(rows, before, actor);
    var (out, next) := Page(rows, before, limit, actor);
    CandidateTable(rows, before, actor);
    NewestSize(all, Clamp(limit));
    LowestLast(out);
    if out != [] {
      assert out[|out| - 1] in out;
    }
    assert Fitting(rows, before, actor) == set q | q in rows && Fits(q, before, actor);
  }

  lemma NewestSize(rows: seq<Row>, n: nat)
    requires Table(rows)
    ensures var out := Newest(rows, n);
      Descending(out) && |out| == (if |rows| <= n then |rows| else n) && forall r :: r in out ==> r.no > 0
  {
    NewestShape(rows, n);
  }

  lemma NewestOf(rows: seq<Row>, n: nat, r: Row)
    requires Table(rows)
    ensures r in Newest(rows, n) <==> r in rows && |set q | q in rows && q.no > r.no| < n
  {
    hide Newest, Filter, Table;
    var any := (q: Row) => true;
    FilterAll(rows, any);
    NewestIff(rows, any, n, r);
    assert Ahead(rows, any, r.no) == set q | q in rows && q.no > r.no;
  }

  lemma CandidatesFit(rows: seq<Row>, before: nat, actor: Option<string>)
    requires Table(rows) && before < TWO_64
    ensures forall r :: r in Candidates(rows, before, actor) <==> r in rows && Fits(r, before, actor)
    ensures forall r :: r in rows ==> r.no > 0
  {
    forall r ensures r in Candidates(rows, before, actor) <==> r in rows && Fits(r, before, actor) {
      FilterIn(rows, Before(before), r);
      FilterIn(Filter(rows, Before(before)), Matches(actor), r);
    }
  }

  /** Exactly which rows a snapshot and an incremental read show. */
  lemma ReadingsExact(rows: seq<Row>, limit: nat, after: nat, r: Row)
    requires Table(rows) && after <= I64_MAX
    ensures r in Snapshot(rows, limit) <==> r in rows && |set q | q in rows && q.no > r.no| < limit
    ensures r in Since(rows, after) <==> r in rows && r.no > after && |set q | q in rows && q.no > r.no| < 500
    ensures Descending(Snapshot(rows, limit)) && Descending(Since(rows, after))
  {
    hide Newest, Filter, Descending;
    NewestOf(rows, Clamp(limit), r);
    NewestIff(rows, After(after), SINCE_CAP, r);
    NewestShape(rows, Clamp(limit));
    FilterTable(rows, After(after));
    NewestShape(Filter(rows, After(after)), SINCE_CAP);
    var newer := set q | q in rows && q.no > r.no;
    assert r.no > after ==> Ahead(rows, After(after), r.no) == newer;
    TableSet(rows);
    TableSize(rows);
    SubsetSize(newer, set q | q in rows);
  }

  lemma LowestLast(out: seq<Row>)
    requires Descending(out)
    ensures out != [] ==> forall r :: r in out ==> r.no >= out[|out| - 1].no
  {
  }

  /** There are never more rows than keys. */
  lemma {:induction false} TableSize(rows: seq<Row>)
    requires Table(rows)
    ensures |rows| <= MaxNo(rows) <= I64_MAX
  {
    if |rows| > 0 {
      TableSize(rows[..|rows| - 1]);
    }
  }

  lemma CandidatesOnly(rows: seq<Row>, before: nat, actor: Option<string>)
    requires Table(rows) && before <= I64_MAX
    ensures forall r :: r in Candidates(rows, before, actor) <==> r in rows && Before(before)(r) && Matches(actor)(r)
    ensures forall r :: r in rows ==> 0 < r.no <= I64_MAX
    ensures before > 0 ==> forall r :: r in Candidates(rows, before, actor) ==> r.no < before
  {
    forall r ensures r in Candidates(rows, before, actor) <==> r in rows && Before(before)(r) && Matches(actor)(r) {
      FilterIn(rows, Before(before), r);
      FilterIn(Filter(rows, Before(before)), Matches(actor), r);
    }
  }

  /** Following cursors to the end returns rows in strictly descending key order (so each at most
      once), only matching ones, and every matching row that is present throughout. */
  lemma {:induction false} WalkExact(tables: nat -> seq<Row>, i: nat, before: nat, limit: nat, actor: Option<string>)
    requires limit >= 1 && before <= I64_MAX
    requires forall j :: Table(tables(j))
    ensures var walk := Walk(tables, i, before, limit, actor);
      && Descending(walk)
      && (forall r :: r in walk ==> Before(before)(r) && Matches(actor)(r) && r.no > 0)
      && (forall r :: r in walk ==> exists j :: j >= i && r in tables(j))
      && (forall r :: Before(before)(r) && Matches(actor)(r) && (forall j :: j >= i ==> r in tables(j)) ==> r in walk)
    decreases if before == 0 then 1 else 0, before
  {
    hide Table, Descending, Page, Matches;
    PageShape(tables(i), before, limit, actor);
    var (out, next) := Page(tables(i), before, limit, actor);
    assert forall r :: r in out ==> r in tables(i);
    if next > 0 {
      WalkExact(tables, i + 1, next, limit, actor);
      var rest := Walk(tables, i + 1, next, limit, actor);
      assert forall r :: r in rest ==> Before(next)(r);
      JoinDescending(out, rest, next);
      forall r | Before(before)(r) && Matches(actor)(r) && (forall j :: j >= i ==> r in tables(j))
        ensures r in out + rest
      {
        assert r in tables(i);
        if r.no < next {
          assert Before(next)(r) && forall j :: j >= i + 1 ==> r in tables(j);
        }
      }
    }
  }

  lemma JoinDescending(a: seq<Row>, b: seq<Row>, next: int)
    requires Descending(a) && Descending(b)
    requires (forall r :: r in a ==> r.no >= next) && (forall r :: r in b ==> r.no < next)
    ensures Descending(a + b)
  {
    forall x, y | 0 <= x < y < |a + b| ensures (a + b)[x].no > (a + b)[y].no {
      if x < |a| <= y {
        assert (a + b)[x] in a && (a + b)[y] in b;
      }
    }
  }

  /** Each page post-filtered, as the RPC does with the category. */
  ghost function FilteredWalk(tables: nat -> seq<Row>, i: nat, before: nat, limit: nat, actor: Option<string>,
                              keep: Row -> bool): seq<Row>
    requires limit >= 1 && before <= I64_MAX
    requires forall j :: Table(tables(j))
    decreases if before == 0 then 1 else 0, before
  {
    PageShape(tables(i), before, limit, actor);
    var (out, next) := Page(tables(i), before, limit, actor);
    if next == 0 then Filter(out, keep)
    else Filter(out, keep) + FilteredWalk(tables, i + 1, next, limit, actor, keep)
  }

  /** Filtering page by page is filtering the whole walk. */
  lemma {:induction false} FilterPagewise(tables: nat -> seq<Row>, i: nat, before: nat, limit: nat,
                                          actor: Option<string>, keep: Row -> bool)
    requires limit >= 1 && before <= I64_MAX
    requires forall j :: Table(tables(j))
    ensures FilteredWalk(tables, i, before, limit, actor, keep) == Filter(Walk(tables, i, before, limit, actor), keep)
    decreases if before == 0 then 1 else 0, before
  {
    hide Filter, Page, Table;
    PageShape(tables(i), before, limit, actor);
    var (out, next) := Page(tables(i), before, limit, actor);
    if next > 0 {
      FilterPagewise(tables, i + 1, next, limit, actor, keep);
      FilterConcat(out, Walk(tables, i + 1, next, limit, actor), keep);
    }
  }

  lemma {:induction false} DescendingUnique(a: seq<Row>, b: seq<Row>)
    requires Descending(a) && Descending(b) && forall r :: r in a <==> r in b
    ensures a == b
  {
    if a == [] {
      assert forall i :: 0 <= i < |b| ==> b[i] in b;
    } else {
      assert a[0] in b;
      assert b[0] in a;
      forall r ensures r in a[1..] <==> r in b[1..] {
        assert r in a <==> r == a[0] || r in a[1..];
        assert r in b <==> r == b[0] || r in b[1..];
      }
      DescendingUnique(a[1..], b[1..]);
    }
  }

  /** Over an unchanging log the pages concatenate to the whole matching log, newest first. */
  lemma WalkIsWholeLog(rows: seq<Row>, limit: nat, actor: Option<string>)
    requires Table(rows) && limit >= 1
    ensures Walk((j: nat) => rows, 0, 0, limit, actor) == Reverse(Filter(rows, Matches(actor)))
  {
    var walk, log := Walk((j: nat) => rows, 0, 0, limit, actor), Filter(rows, Matches(actor));
    WalkExact((j: nat) => rows, 0, 0, limit, actor);
    FilterTable(rows, Matches(actor));
    forall r ensures r in walk <==> r in Reverse(log) {
      ReverseMembers(log, r);
      FilterIn(rows, Matches(actor), r);
    }
    DescendingUnique(walk, Reverse(log));
  }

  lemma ReverseMembers<T>(s: seq<T>, x: T)
    ensures x in Reverse(s) <==> x in s
  {
    if x in s {
      var i :| 0 <= i < |s| && s[i] == x;
      assert Reverse(s)[|s| - 1 - i] == x;
    }
  }
}
