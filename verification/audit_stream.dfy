/** The audit watch stream against concurrent appends: on one side the statements of `append`, any
    number of calls interleaved; on the other subscribe, snapshot, then wake and read. */
module AuditStream {
  import opened Basics
  import opened AuditLog

  /** Where an append stands: its row is in; the window is trimmed; `extra` rows were counted over the
      cap; the oldest of them end at `upto`; only the bump is left. */
  datatype Append =
    | Inserted(now: int)
    | Trimmed
    | Counted(extra: nat)
    | Selected(upto: int)
    | Pruned

  /** `Starting` has subscribed and not read yet; `Blocked` waits; `Woken` has consumed a bump. */
  datatype Phase = Unopened | Starting | Blocked | Woken

  /** `log` is every row ever inserted, pruned or not; `batches` is what the stream has sent; `start`
      is the snapshot's cursor; `lossless` records that no read so far was capped or preceded by a
      prune of an unread row. */
  datatype Stream = Stream(
    table: seq<Row>, log: seq<Row>, version: nat, appends: map<nat, Append>,
    seen: nat, phase: Phase, cursor: int, batches: seq<seq<Row>>, start: int, lossless: bool)

  datatype Action =
    | Insert(p: nat, record: Record)
    | Trim(p: nat)
    | Count(p: nat)
    | Select(p: nat)
    | Delete(p: nat)
    | Bump(p: nat)
    | Subscribe
    | Wake
    | Read

  ghost predicate Enabled(s: Stream, a: Action) {
    match a
    case Insert(p, _) => p !in s.appends && MaxNo(s.table) < I64_MAX
    case Trim(p) => p in s.appends && s.appends[p].Inserted?
    case Count(p) => p in s.appends && s.appends[p].Trimmed?
    case Select(p) => p in s.appends && s.appends[p].Counted?
    case Delete(p) => p in s.appends && s.appends[p].Selected?
    case Bump(p) => p in s.appends && s.appends[p].Pruned?
    case Subscribe => s.phase.Unopened?
    case Wake => s.phase.Blocked? && s.seen != s.version
    case Read => s.phase.Starting? || s.phase.Woken?
  }

  /** Nothing the next read should deliver is missing from it. */
  ghost predicate ReadsAll(s: Stream) {
    && Filter(s.table, After(s.cursor)) == Filter(s.log, After(s.cursor))
    && |Filter(s.table, After(s.cursor))| <= SINCE_CAP
  }

  function Goes(s: Stream, p: nat, to: Append): Stream { s.(appends := s.appends[p := to]) }

  /** What a count over `n` rows leaves to do. */
  function AfterCount(n: nat): Append { if n > MAX_ROWS then Counted(n - MAX_ROWS) else Pruned }

  /** The last of the `extra` oldest rows, if there is one. */
  function AfterSelect(rows: seq<Row>, extra: nat): Append {
    var oldest := if extra <= |rows| then rows[..extra] else rows;
    if oldest == [] then Pruned else Selected(oldest[|oldest| - 1].no)
  }

  ghost function Next(s: Stream, a: Action, limit: nat): Stream
    requires Enabled(s, a)
  {
    match a
    case Insert(p, record) =>
      var row := Row(NextNo(s.table), record);
      Goes(s, p, Inserted(record.at)).(table := s.table + [row], log := s.log + [row])
    case Trim(p) => Goes(s, p, Trimmed).(table := Filter(s.table, InWindow(s.appends[p].now)))
    case Count(p) => Goes(s, p, AfterCount(|s.table|))
    case Select(p) => Goes(s, p, AfterSelect(s.table, s.appends[p].extra))
    case Delete(p) => Goes(s, p, Pruned).(table := Filter(s.table, After(s.appends[p].upto)))
    case Bump(p) => s.(appends := s.appends - {p}, version := s.version + 1)
    case Subscribe => s.(seen := s.version, phase := Starting)
    case Wake => s.(seen := s.version, phase := Woken)
    case Read =>
      if s.phase.Starting? then
        var out := Snapshot(s.table, limit);
        var max := if out == [] then 0 else out[0].no;
        s.(phase := Blocked, batches := [out], cursor := max, start := max)
      else if s.cursor < 0 then s
      else
        var out := Since(s.table, s.cursor);
        s.(phase := Blocked, batches := s.batches + [out],
           cursor := if out == [] then s.cursor else out[0].no,
           lossless := s.lossless && ReadsAll(s))
  }

  ghost predicate Legal(s: Stream, run: seq<Action>, limit: nat)
    decreases run
  {
    run == [] || (Enabled(s, run[0]) && Legal(Next(s, run[0], limit), run[1..], limit))
  }

  ghost function Exec(s: Stream, run: seq<Action>, limit: nat): Stream
    requires Legal(s, run, limit)
    decreases run
  {
    if run == [] then s else Exec(Next(s, run[0], limit), run[1..], limit)
  }

  /** The run is possible from `s` and ends in `t`. */
  ghost predicate Reaches(s: Stream, run: seq<Action>, t: Stream, limit: nat) {
    Legal(s, run, limit) && Exec(s, run, limit) == t
  }

  lemma {:induction false} OneMore(s: Stream, run: seq<Action>, t: Stream, a: Action, limit: nat)
    requires Reaches(s, run, t, limit) && Enabled(t, a)
    ensures Reaches(s, run + [a], Next(t, a, limit), limit)
    decreases run
  {
    hide Enabled, Next;
    if run == [] {
      assert run + [a] == [a] && [a][1..] == [];
      assert t == s && Legal(Next(s, a, limit), [], limit);
      assert Legal(s, [a], limit) && Exec(s, [a], limit) == Exec(Next(s, a, limit), [], limit);
    } else {
      assert (run + [a])[0] == run[0] && (run + [a])[1..] == run[1..] + [a];
      OneMore(Next(s, run[0], limit), run[1..], t, a, limit);
    }
  }

  lemma Then(s: Stream, run: seq<Action>, t: Stream, a: Action, u: Stream, longer: seq<Action>, limit: nat)
    requires Reaches(s, run, t, limit) && Enabled(t, a)
    requires Next(t, a, limit) == u && longer == run + [a]
    ensures Reaches(s, longer, u, limit)
  {
    OneMore(s, run, t, a, limit);
  }

  /** The program has just started on whatever log there is; nobody has subscribed yet. */
  ghost predicate Booted(s: Stream) {
    && Table(s.table) && s.log == s.table && s.appends == map[] && s.seen <= s.version
    && s.phase.Unopened? && s.batches == [] && s.cursor == 0 && s.start == 0 && s.lossless
  }

  /** Each batch newest-first, and every row newer than all rows of earlier batches. */
  ghost predicate StrictlyNewer(batches: seq<seq<Row>>) {
    && (forall i :: 0 <= i < |batches| ==> Descending(batches[i]))
    && (forall i, j, a, b :: 0 <= i < j < |batches| && a in batches[i] && b in batches[j] ==> a.no < b.no)
  }

  ghost predicate Sent(batches: seq<seq<Row>>, r: Row) {
    exists i :: 0 <= i < |batches| && r in batches[i]
  }

  /** While no read was capped or overtaken by pruning, every row inserted after the snapshot and up to
      the cursor has been sent; a blocked reader with no append in flight stands at the newest key. */
  ghost predicate Sound(s: Stream) {
    && Complete(s)
    && (s.phase.Blocked? && s.seen == s.version && s.appends == map[] ==> s.cursor == MaxNo(s.table))
  }

  // ----- which deletions take the newest row -----

  ghost predicate SparesNewest(s: Stream, a: Action, limit: nat)
    requires Enabled(s, a)
  {
    MaxNo(Next(s, a, limit).table) >= MaxNo(s.table)
  }

  ghost predicate NewestKept(s: Stream, run: seq<Action>, limit: nat)
    requires Legal(s, run, limit)
    decreases run
  {
    run == [] || (SparesNewest(s, run[0], limit) && NewestKept(Next(s, run[0], limit), run[1..], limit))
  }

  lemma BelowNewest(rows: seq<Row>, r: Row)
    requires Table(rows) && r in rows && r != rows[|rows| - 1]
    ensures r.no < MaxNo(rows)
  {
  }

  lemma NewestPositive(rows: seq<Row>)
    requires Table(rows)
    ensures MaxNo(rows) >= 0 && (rows != [] ==> MaxNo(rows) > 0)
  {
  }

  /** A filter keeps the newest row or lowers the greatest key. */
  lemma FilterNewest(rows: seq<Row>, keep: Row -> bool)
    requires Table(rows)
    ensures Table(Filter(rows, keep)) && forall r :: r in Filter(rows, keep) ==> r in rows
    ensures rows != [] && keep(rows[|rows| - 1]) ==> MaxNo(Filter(rows, keep)) == MaxNo(rows)
    ensures rows != [] && !keep(rows[|rows| - 1]) ==> MaxNo(Filter(rows, keep)) < MaxNo(rows)
    ensures rows == [] ==> Filter(rows, keep) == []
  {
    hide Filter, Table;
    NewestPositive(rows);
    FilterTable(rows, keep);
    forall r | r in Filter(rows, keep) ensures r in rows && keep(r) {
      FilterIn(rows, keep, r);
    }
    if rows == [] {
      FilterAll(rows, keep);
    } else {
      var init, last, kept := rows[..|rows| - 1], rows[|rows| - 1], Filter(rows, keep);
      assert rows == init + [last];
      if keep(last) {
        FilterAppend(init, last, keep);
      } else if kept != [] {
        assert kept[|kept| - 1] in kept && kept[|kept| - 1] != last;
        BelowNewest(rows, kept[|kept| - 1]);
      }
    }
  }

  /** Exactly which steps spare the newest row: trimming, if it is inside the window; deleting, if it
      is beyond the selection. */
  lemma SparesIff(s: Stream, a: Action, limit: nat)
    requires Enabled(s, a) && Table(s.table)
    ensures SparesNewest(s, a, limit) <==>
      match a
      case Trim(p) => s.table == [] || s.table[|s.table| - 1].record.at >= s.appends[p].now - RETENTION_SECS
      case Delete(p) => s.table == [] || MaxNo(s.table) > s.appends[p].upto
      case _ => true
  {
    hide Filter, Since, Snapshot, ReadsAll;
    match a
    case Trim(p) => FilterNewest(s.table, InWindow(s.appends[p].now));
    case Delete(p) => FilterNewest(s.table, After(s.appends[p].upto));
    case _ =>
  }

  /** Exactly when a selection ends below the newest row: there are more rows than it wants. */
  lemma SelectedBelowIff(rows: seq<Row>, extra: nat)
    requires Table(rows) && rows != [] && extra > 0
    ensures AfterSelect(rows, extra).Selected?
    ensures AfterSelect(rows, extra).upto < MaxNo(rows) <==> |rows| > extra
  {
  }

  /** The guard of each deletion, at the moment its statement runs. */
  ghost predicate Guard(s: Stream, a: Action)
    requires Enabled(s, a)
  {
    match a
    case Trim(p) => s.table != [] ==> s.table[|s.table| - 1].record.at >= s.appends[p].now - RETENTION_SECS
    case Select(p) => s.table != [] ==> |s.table| > s.appends[p].extra
    case _ => true
  }

  ghost predicate Guarded(s: Stream, run: seq<Action>, limit: nat)
    requires Legal(s, run, limit)
    decreases run
  {
    run == [] || (Guard(s, run[0]) && Guarded(Next(s, run[0], limit), run[1..], limit))
  }

  /** No selection under way reaches the newest row, and none is empty. */
  ghost predicate SelectionsBelow(s: Stream) {
    forall p :: p in s.appends ==>
      && (s.appends[p].Selected? ==> s.appends[p].upto < MaxNo(s.table))
      && (s.appends[p].Counted? ==> s.appends[p].extra > 0)
  }

  lemma GuardSpares(s: Stream, a: Action, limit: nat)
    requires Enabled(s, a) && Table(s.table) && SelectionsBelow(s) && Guard(s, a)
    ensures SparesNewest(s, a, limit) && Table(Next(s, a, limit).table) && SelectionsBelow(Next(s, a, limit))
  {
    hide Filter, Since, Snapshot, ReadsAll, Table;
    SparesIff(s, a, limit);
    match a
    case Insert(_, record) => InsertTable(s.table, record);
    case Trim(p) => FilterTable(s.table, InWindow(s.appends[p].now));
    case Delete(p) => FilterTable(s.table, After(s.appends[p].upto));
    case Select(p) => if s.table != [] { SelectedBelowIff(s.table, s.appends[p].extra); }
    case _ =>
  }

  lemma {:induction false} GuardedKept(s: Stream, run: seq<Action>, limit: nat)
    requires Legal(s, run, limit) && Table(s.table) && SelectionsBelow(s) && Guarded(s, run, limit)
    ensures NewestKept(s, run, limit)
    decreases run
  {
    hide Enabled, Next, Guard, SelectionsBelow, SparesNewest, Table;
    if run != [] {
      GuardSpares(s, run[0], limit);
      GuardedKept(Next(s, run[0], limit), run[1..], limit);
    }
  }

  // ----- appends that do not overlap -----

  ghost predicate OneAtATime(s: Stream, run: seq<Action>, limit: nat)
    requires Legal(s, run, limit)
    decreases run
  {
    run == []
    || ((run[0].Insert? ==> s.appends == map[]) && OneAtATime(Next(s, run[0], limit), run[1..], limit))
  }

  /** The single append under way has found the table as it left it. */
  ghost predicate Alone(s: Stream) {
    && (forall p, q :: p in s.appends && q in s.appends ==> p == q)
    && (forall p :: p in s.appends && s.appends[p].Inserted? ==>
          s.table != [] && s.table[|s.table| - 1].record.at == s.appends[p].now)
    && (forall p :: p in s.appends && s.appends[p].Counted? ==>
          s.appends[p].extra > 0 && |s.table| == s.appends[p].extra + MAX_ROWS)
  }

  lemma AloneGuards(s: Stream, a: Action)
    requires Alone(s) && Enabled(s, a)
    ensures Guard(s, a)
  {
  }

  lemma NextAlone(s: Stream, a: Action, limit: nat)
    requires Alone(s) && Enabled(s, a) && (a.Insert? ==> s.appends == map[])
    ensures Alone(Next(s, a, limit))
  {
    hide Filter, Since, Snapshot, ReadsAll;
  }

  lemma {:induction false} SerialGuarded(s: Stream, run: seq<Action>, limit: nat)
    requires Legal(s, run, limit) && Alone(s) && OneAtATime(s, run, limit)
    ensures Guarded(s, run, limit)
    decreases run
  {
    hide Enabled, Next, Guard, Alone;
    if run != [] {
      AloneGuards(s, run[0]);
      NextAlone(s, run[0], limit);
      SerialGuarded(Next(s, run[0], limit), run[1..], limit);
    }
  }

  /** The statements of one append with nothing between them are the log's own `append`. */
  lemma AppendInOneGo(s: Stream, p: nat, record: Record, limit: nat)
    requires Table(s.table) && p !in s.appends && MaxNo(s.table) < I64_MAX
    ensures var s3 := Next(Next(Next(s, Insert(p, record), limit), Trim(p), limit), Count(p), limit);
      if Enabled(s3, Select(p)) then
        && Enabled(Next(s3, Select(p), limit), Delete(p))
        && var s5 := Next(Next(s3, Select(p), limit), Delete(p), limit);
           s5.table == Appended(s.table, record) && s5.appends[p].Pruned?
      else s3.table == Appended(s.table, record) && s3.appends[p].Pruned?
  {
    hide Filter, Last, Table;
    var row := Row(NextNo(s.table), record);
    InsertTable(s.table, record);
    FilterTable(s.table + [row], InWindow(record.at));
    var inside := Filter(s.table + [row], InWindow(record.at));
    LastOf(inside, MAX_ROWS);
    if |inside| > MAX_ROWS {
      SurplusGone(inside, |inside| - MAX_ROWS);
    }
  }

  // ----- the reader -----

  ghost predicate TableInvariant(s: Stream) {
    && Table(s.table) && Table(s.log) && MaxNo(s.log) == MaxNo(s.table)
    && forall r :: r in s.table ==> r in s.log
  }

  ghost predicate ReaderInvariant(s: Stream) {
    && s.seen <= s.version
    && (s.phase.Unopened? || s.phase.Starting? <==> s.batches == [])
    && 0 <= s.start <= s.cursor <= MaxNo(s.table)
    && StrictlyNewer(s.batches)
    && (forall i, r :: 0 <= i < |s.batches| && r in s.batches[i] ==> r.no <= s.cursor)
    && (s.phase.Blocked? && s.seen == s.version && s.appends == map[] ==> s.cursor == MaxNo(s.table))
    && (s.batches == [] ==> s.cursor == 0)
  }

  /** While lossless, everything inserted between the snapshot and the cursor has been sent. */
  ghost predicate Complete(s: Stream) {
    s.lossless ==> forall r :: r in s.log && s.start < r.no <= s.cursor ==> Sent(s.batches, r)
  }

  lemma SnapshotShape(rows: seq<Row>, limit: nat)
    requires Table(rows) && limit >= 1
    ensures var out := Snapshot(rows, limit);
      && Descending(out) && (out == [] <==> rows == [])
      && (out != [] ==> out[0].no == MaxNo(rows))
      && forall r :: r in out ==> r.no <= MaxNo(rows)
  {
    NewestShape(rows, Clamp(limit));
  }

  /** The rows beyond a cursor: none at the greatest key, else headed by the greatest. */
  lemma NewerRows(rows: seq<Row>, after: nat)
    requires Table(rows) && after <= MaxNo(rows)
    ensures var newer := Filter(rows, After(after));
      && Table(newer) && (forall r :: r in newer <==> r in rows && r.no > after)
      && (if after == MaxNo(rows) then newer == [] else newer != [] && newer[|newer| - 1] == rows[|rows| - 1])
  {
    hide Filter;
    FilterTable(rows, After(after));
    forall r ensures r in Filter(rows, After(after)) <==> r in rows && r.no > after {
      FilterIn(rows, After(after), r);
    }
    if after == MaxNo(rows) {
      FilterNone(rows, After(after));
    } else {
      var init, last := rows[..|rows| - 1], rows[|rows| - 1];
      assert rows == init + [last];
      FilterAppend(init, last, After(after));
    }
  }

  /** A `since` batch: newest-first, all newer than the cursor, headed by the newest such row. */
  lemma SinceShape(rows: seq<Row>, after: nat)
    requires Table(rows) && after <= MaxNo(rows)
    ensures var out := Since(rows, after);
      && Descending(out)
      && (forall r :: r in out ==> r in rows && after < r.no <= MaxNo(rows))
      && (if out == [] then after == MaxNo(rows) else out[0].no == MaxNo(rows))
  {
    hide Filter, Newest, Descending;
    TableSize(rows);
    NewerRows(rows, after);
    NewestShape(Filter(rows, After(after)), SINCE_CAP);
  }

  /** A read after the snapshot delivers every inserted row beyond the cursor exactly when at most
      500 of them are there and none was pruned first. */
  lemma ReadCompleteIff(s: Stream)
    requires TableInvariant(s) && 0 <= s.cursor <= MaxNo(s.table)
    ensures (forall r :: r in s.log && r.no > s.cursor ==> r in Since(s.table, s.cursor)) <==> ReadsAll(s)
  {
    hide Filter, Table, Newest, Descending;
    var present, inserted := Filter(s.table, After(s.cursor)), Filter(s.log, After(s.cursor));
    TableSize(s.table);
    NewerRows(s.table, s.cursor);
    NewerRows(s.log, s.cursor);
    NewestShape(present, SINCE_CAP);
    assert Since(s.table, s.cursor) == Newest(present, SINCE_CAP);
    if forall r :: r in s.log && r.no > s.cursor ==> r in Since(s.table, s.cursor) {
      SameRows(present, inserted);
      CappedMisses(present);
    }
  }

  lemma SameRows(a: seq<Row>, b: seq<Row>)
    requires Table(a) && Table(b) && forall r :: r in a <==> r in b
    ensures a == b
  {
    TableReversed(a);
    TableReversed(b);
    forall r ensures r in Reverse(a) <==> r in Reverse(b) {
      ReverseMembers(a, r);
      ReverseMembers(b, r);
    }
    DescendingUnique(Reverse(a), Reverse(b));
    forall i | 0 <= i < |a| ensures a[i] == b[i] {
      assert Reverse(a)[|a| - 1 - i] == a[i] && Reverse(b)[|b| - 1 - i] == b[i];
    }
  }

  lemma TableReversed(rows: seq<Row>)
    requires Table(rows)
    ensures Descending(Reverse(rows))
  {
  }

  /** More than 500 candidates: the oldest of them is not in the batch. */
  lemma CappedMisses(rows: seq<Row>)
    requires Table(rows)
    ensures |rows| > SINCE_CAP ==> rows[0] in rows && rows[0] !in Newest(rows, SINCE_CAP)
  {
    if |rows| > SINCE_CAP {
      var out := Newest(rows, SINCE_CAP);
      NewestShape(rows, SINCE_CAP);
      assert out[SINCE_CAP - 1] == rows[|rows| - SINCE_CAP];
    }
  }

  lemma InsertRow(s: Stream, record: Record)
    requires TableInvariant(s) && MaxNo(s.table) < I64_MAX
    ensures var row := Row(NextNo(s.table), record);
      && Table(s.table + [row]) && Table(s.log + [row])
      && MaxNo(s.table + [row]) == MaxNo(s.log + [row]) == MaxNo(s.table) + 1
      && (forall r :: r in s.table + [row] ==> r in s.log + [row])
  {
  }

  lemma NextTable(s: Stream, a: Action, limit: nat)
    requires TableInvariant(s) && Enabled(s, a) && SparesNewest(s, a, limit)
    ensures TableInvariant(Next(s, a, limit))
    ensures MaxNo(Next(s, a, limit).table) == MaxNo(s.table) + (if a.Insert? then 1 else 0)
  {
    hide Table, Since, Snapshot, ReadsAll, Filter;
    match a
    case Insert(_, record) => InsertRow(s, record);
    case Trim(p) => FilterNewest(s.table, InWindow(s.appends[p].now));
    case Delete(p) => FilterNewest(s.table, After(s.appends[p].upto));
    case _ =>
  }

  lemma AddBatch(batches: seq<seq<Row>>, out: seq<Row>, cursor: int, max: int)
    requires StrictlyNewer(batches) && Descending(out)
    requires forall i, r :: 0 <= i < |batches| && r in batches[i] ==> r.no <= cursor
    requires forall r :: r in out ==> cursor < r.no <= max
    requires cursor <= max
    ensures StrictlyNewer(batches + [out])
    ensures forall i, r :: 0 <= i < |batches + [out]| && r in (batches + [out])[i] ==> r.no <= max
  {
  }

  lemma FirstBatch(out: seq<Row>, max: int)
    requires Descending(out) && forall r :: r in out ==> r.no <= max
    ensures StrictlyNewer([out]) && forall i, r :: 0 <= i < |[out]| && r in [out][i] ==> r.no <= max
  {
  }

  lemma NextReader(s: Stream, a: Action, limit: nat)
    requires TableInvariant(s) && ReaderInvariant(s) && Enabled(s, a) && SparesNewest(s, a, limit) && limit >= 1
    ensures ReaderInvariant(Next(s, a, limit))
  {
    hide Table, Since, Snapshot, ReadsAll, Descending, Filter, StrictlyNewer;
    NextTable(s, a, limit);
    match a
    case Read =>
      if s.phase.Starting? {
        SnapshotShape(s.table, limit);
        FirstBatch(Snapshot(s.table, limit), MaxNo(s.table));
      } else {
        SinceShape(s.table, s.cursor);
        AddBatch(s.batches, Since(s.table, s.cursor), s.cursor, MaxNo(s.table));
      }
    case Bump(_) =>
    case Subscribe =>
    case Wake =>
    case _ => assert a.p in Next(s, a, limit).appends;
  }

  lemma NextComplete(s: Stream, a: Action, limit: nat)
    requires TableInvariant(s) && ReaderInvariant(s) && Complete(s)
    requires Enabled(s, a) && SparesNewest(s, a, limit) && limit >= 1
    ensures Complete(Next(s, a, limit))
  {
    hide Table, Since, Snapshot, ReadsAll, Descending, Filter, StrictlyNewer;
    var t := Next(s, a, limit);
    match a
    case Read =>
      if s.phase.Starting? {
        SnapshotShape(s.table, limit);
      } else if t.lossless {
        SinceShape(s.table, s.cursor);
        ReadCompleteIff(s);
        forall r | r in t.log && t.start < r.no <= t.cursor ensures Sent(t.batches, r) {
          SentGrows(s.batches, Since(s.table, s.cursor), r);
        }
      }
    case Insert(_, record) =>
    case _ =>
  }

  lemma SentGrows(batches: seq<seq<Row>>, out: seq<Row>, r: Row)
    ensures Sent(batches, r) || r in out ==> Sent(batches + [out], r)
  {
    if r in out {
      assert (batches + [out])[|batches|] == out;
    } else if Sent(batches, r) {
      var i :| 0 <= i < |batches| && r in batches[i];
      assert (batches + [out])[i] == batches[i];
    }
  }

  lemma {:induction false} StreamOverRuns(s: Stream, run: seq<Action>, limit: nat)
    requires TableInvariant(s) && ReaderInvariant(s) && Complete(s) && Legal(s, run, limit) && limit >= 1
    requires NewestKept(s, run, limit)
    ensures var t := Exec(s, run, limit); TableInvariant(t) && ReaderInvariant(t) && Complete(t)
    decreases run
  {
    hide TableInvariant, ReaderInvariant, Complete, Enabled, SparesNewest, Next;
    if run != [] {
      NextTable(s, run[0], limit);
      NextReader(s, run[0], limit);
      NextComplete(s, run[0], limit);
      StreamOverRuns(Next(s, run[0], limit), run[1..], limit);
    }
  }

  /** What pruning cannot spoil: the cursor bounds all that was sent. */
  ghost predicate Cursored(s: Stream) {
    && Table(s.table) && 0 <= s.cursor <= I64_MAX
    && StrictlyNewer(s.batches)
    && (forall i, r :: 0 <= i < |s.batches| && r in s.batches[i] ==> r.no <= s.cursor)
    && (s.phase.Unopened? || s.phase.Starting? ==> s.batches == [] && s.cursor == 0)
  }

  lemma NextCursored(s: Stream, a: Action, limit: nat)
    requires Cursored(s) && Enabled(s, a)
    ensures Cursored(Next(s, a, limit))
  {
    hide Table, Since, Snapshot, ReadsAll, Descending, Filter, StrictlyNewer;
    match a
    case Insert(_, record) => InsertTable(s.table, record);
    case Trim(p) => FilterTable(s.table, InWindow(s.appends[p].now));
    case Delete(p) => FilterTable(s.table, After(s.appends[p].upto));
    case Read =>
      if s.phase.Starting? {
        var out := Snapshot(s.table, limit);
        NewestBatch(s.table, Clamp(limit));
        SnapshotIs(s.table, limit);
        FirstBatch(out, if out == [] then 0 else out[0].no);
      } else {
        var out := Since(s.table, s.cursor);
        BatchBeyond(s.table, s.cursor);
        AddBatch(s.batches, out, s.cursor, if out == [] then s.cursor else out[0].no);
      }
    case _ =>
  }

  lemma SnapshotIs(rows: seq<Row>, limit: nat)
    ensures Snapshot(rows, limit) == Newest(rows, Clamp(limit))
  {
  }

  lemma NewestBatch(rows: seq<Row>, n: nat)
    requires Table(rows)
    ensures var out := Newest(rows, n);
      && Descending(out) && (forall r :: r in out ==> r in rows)
      && (out != [] ==> 0 < out[0].no <= I64_MAX && forall r :: r in out ==> r.no <= out[0].no)
  {
    hide Newest;
    NewestShape(rows, n);
    var out := Newest(rows, n);
    if out != [] {
      assert out[0] in rows;
    }
  }

  lemma BatchBeyond(rows: seq<Row>, after: nat)
    requires Table(rows) && after <= I64_MAX
    ensures var out := Since(rows, after);
      && Descending(out) && (forall r :: r in out ==> r.no > after)
      && (out != [] ==> out[0].no <= I64_MAX && forall r :: r in out ==> r.no <= out[0].no)
  {
    hide Newest, Filter, Table, Descending;
    FilterTable(rows, After(after));
    NewestBatch(Filter(rows, After(after)), SINCE_CAP);
    forall r | r in Since(rows, after) ensures r.no > after {
      FilterIn(rows, After(after), r);
    }
  }

  lemma {:induction false} CursorOverRuns(s: Stream, run: seq<Action>, limit: nat)
    requires Cursored(s) && Legal(s, run, limit)
    ensures Cursored(Exec(s, run, limit))
    decreases run
  {
    hide Cursored, Enabled, Next;
    if run != [] {
      NextCursored(s, run[0], limit);
      CursorOverRuns(Next(s, run[0], limit), run[1..], limit);
    }
  }

  // ----- the stream -----

  lemma BootedInvariants(s: Stream)
    requires Booted(s)
    ensures TableInvariant(s) && ReaderInvariant(s) && Complete(s) && Cursored(s) && SelectionsBelow(s) && Alone(s)
  {
    TableSize(s.table);
  }

  /** As long as no deletion takes the newest row, the stream misses nothing it can deliver. */
  lemma KeptSound(s: Stream, run: seq<Action>, limit: nat)
    requires Booted(s) && Legal(s, run, limit) && NewestKept(s, run, limit) && limit >= 1
    ensures Sound(Exec(s, run, limit))
  {
    hide Exec, Legal, NewestKept, TableInvariant, Complete;
    BootedInvariants(s);
    StreamOverRuns(s, run, limit);
  }

  /** Appends one at a time, readers at will: from any log, subscribed at any moment, batches carry
      strictly newer keys with no duplicates, nothing is missed while no read is capped or overtaken,
      and a quiet reader stands at the newest key. No condition on clocks. */
  lemma StreamSound(s: Stream, run: seq<Action>, limit: nat)
    requires Booted(s) && Legal(s, run, limit) && OneAtATime(s, run, limit) && limit >= 1
    ensures StrictlyNewer(Exec(s, run, limit).batches) && Sound(Exec(s, run, limit))
  {
    hide Booted, Exec, Legal, NewestKept, Guarded, OneAtATime, Alone;
    BootedInvariants(s);
    SerialGuarded(s, run, limit);
    OverlappingSound(s, run, limit);
  }

  /** Any number of appends interleaved: batches still carry strictly newer keys, and the rest holds if
      each window delete finds the newest row inside its window and each selection more rows than it
      takes. */
  lemma OverlappingSound(s: Stream, run: seq<Action>, limit: nat)
    requires Booted(s) && Legal(s, run, limit) && limit >= 1
    ensures StrictlyNewer(Exec(s, run, limit).batches)
    ensures Guarded(s, run, limit) ==> Sound(Exec(s, run, limit))
  {
    hide Exec, Legal, NewestKept, Guarded, Sound;
    BootedInvariants(s);
    CursorOverRuns(s, run, limit);
    if Guarded(s, run, limit) {
      GuardedKept(s, run, limit);
      KeptSound(s, run, limit);
    }
  }

  /** A deletion that takes the newest row leaves a reader who had it beyond the table, and the next row
      inserted, which gets a key already used, is not delivered to it. */
  lemma TakenMisleads(s: Stream, a: Action, record: Record, limit: nat)
    requires TableInvariant(s) && 0 <= s.cursor && s.cursor == MaxNo(s.table)
    requires Enabled(s, a) && !SparesNewest(s, a, limit)
    ensures var t := Next(s, a, limit);
      && t.cursor > MaxNo(t.table) && NextNo(t.table) <= s.cursor
      && var row := Row(NextNo(t.table), record); row !in Since(t.table + [row], t.cursor)
  {
    hide Filter, Since, Snapshot, ReadsAll;
    var t := Next(s, a, limit);
    TableSize(s.table);
    SparesIff(s, a, limit);
    if a.Trim? {
      FilterTable(s.table, InWindow(s.appends[a.p].now));
    } else {
      FilterTable(s.table, After(s.appends[a.p].upto));
    }
    InsertTable(t.table, record);
    BatchBeyond(t.table + [Row(NextNo(t.table), record)], t.cursor);
  }

  /** Nothing under way, and the reader waits. */
  ghost predicate Quiet(s: Stream) {
    s.phase.Blocked? && s.seen == s.version && s.appends == map[]
  }

  /** Subscribing only after the snapshot would lose a row: snapshot, append, subscribe leaves a
      blocked reader short of the table with nothing in flight. */
  lemma LateSubscriptionMisses(record: Record, limit: nat)
    requires limit >= 1
    ensures var begin := Stream([], [], 0, map[], 0, Unopened, 0, [], 0, true);
      var run := [Subscribe, Read, Insert(0, record), Trim(0), Count(0), Bump(0)];
      && Booted(begin) && Legal(begin, run, limit)
      && var late := Exec(begin, run, limit).(seen := Exec(begin, run, limit).version);
         Quiet(late) && late.cursor != MaxNo(late.table)
  {
    var row := Row(1, record);
    var s0 := Stream([], [], 0, map[], 0, Unopened, 0, [], 0, true);
    var s2 := s0.(phase := Blocked, batches := [[]]);
    var s4 := s2.(table := [row], log := [row], appends := map[0 := Trimmed]);
    LateOpening(s0, s2, limit);
    LateAppend(s2, s4, record, limit);
    LateCounting(s4, limit);
    hide Enabled, Next, Legal, Exec;
    var s3, s5 := Next(s2, Insert(0, record), limit), Next(s4, Count(0), limit);
    var r3 := [Subscribe, Read, Insert(0, record)];
    var r4, r5 := r3 + [Trim(0)], r3 + [Trim(0), Count(0)];
    Then(s0, [Subscribe, Read], s2, Insert(0, record), s3, r3, limit);
    Then(s0, r3, s3, Trim(0), s4, r4, limit);
    Then(s0, r4, s4, Count(0), s5, r5, limit);
    Then(s0, r5, s5, Bump(0), Next(s5, Bump(0), limit),
         [Subscribe, Read, Insert(0, record), Trim(0), Count(0), Bump(0)], limit);
  }

  lemma LateOpening(s: Stream, t: Stream, limit: nat)
    requires Booted(s) && s.table == [] && s.seen == s.version && t == s.(phase := Blocked, batches := [[]])
    ensures Reaches(s, [Subscribe, Read], t, limit)
  {
    assert Snapshot([], limit) == [];
    assert Reaches(s, [], s, limit);
    Then(s, [], s, Subscribe, Next(s, Subscribe, limit), [Subscribe], limit);
    Then(s, [Subscribe], Next(s, Subscribe, limit), Read, t, [Subscribe, Read], limit);
  }

  lemma LateAppend(s: Stream, t: Stream, record: Record, limit: nat)
    requires s.table == [] && s.log == [] && s.appends == map[]
    requires var row := Row(1, record); t == s.(table := [row], log := [row], appends := map[0 := Trimmed])
    ensures Enabled(s, Insert(0, record)) && Enabled(Next(s, Insert(0, record), limit), Trim(0))
    ensures Next(Next(s, Insert(0, record), limit), Trim(0), limit) == t
  {
    var row := Row(1, record);
    assert [row][1..] == [] && Filter([row], InWindow(record.at)) == [row];
    assert [] + [row] == [row];
  }

  lemma LateCounting(s: Stream, limit: nat)
    requires |s.table| == 1 && s.appends == map[0 := Trimmed]
    ensures Enabled(s, Count(0)) && Enabled(Next(s, Count(0), limit), Bump(0))
    ensures Next(Next(s, Count(0), limit), Bump(0), limit) == s.(appends := map[], version := s.version + 1)
  {
    assert map[0 := Trimmed][0 := Pruned] - {0} == map[];
  }
}
