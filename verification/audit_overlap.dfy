/** A run of two overlapping appends, with clocks that only move forward, that empties the log under a
    reader: the surplus one append counted was already gone when it selected the oldest rows. */
module AuditOverlap {
  import opened Basics
  import opened AuditLog
  import opened AuditStream

  /** A log at its cap, all rows written at the same moment. */
  function Full(record: Record): (rows: seq<Row>)
    ensures |rows| == MAX_ROWS && forall i :: 0 <= i < |rows| ==> rows[i] == Row(i + 1, record)
  {
    seq(MAX_ROWS, i requires 0 <= i < MAX_ROWS => Row(i + 1, record))
  }

  /** `a` is appended when the old rows are about to leave the window, `b` a second later. */
  predicate InOrder(record: Record, a: Record, b: Record) {
    a.at == record.at + RETENTION_SECS && b.at == a.at + 1
  }

  function Start(record: Record): Stream {
    Stream(Full(record), Full(record), 0, map[], 0, Unopened, 0, [], 0, true)
  }

  function RowA(a: Record): Row { Row(MAX_ROWS + 1, a) }

  function RowB(b: Record): Row { Row(MAX_ROWS + 2, b) }

  function Both(record: Record, a: Record, b: Record): seq<Row> { Full(record) + [RowA(a)] + [RowB(b)] }

  /** Both rows are in; the first append has trimmed and found nothing to delete. */
  function BothIn(record: Record, a: Record, b: Record): Stream {
    Start(record).(table := Both(record, a, b), log := Both(record, a, b),
                   appends := map[0 := Trimmed, 1 := Inserted(b.at)])
  }

  /** The reader has its snapshot; the first append has counted two rows too many. */
  function CountedTwo(record: Record, a: Record, b: Record, limit: nat): Stream {
    BothIn(record, a, b).(phase := Blocked, batches := [Snapshot(Both(record, a, b), limit)],
                          cursor := MAX_ROWS + 2, start := MAX_ROWS + 2,
                          appends := map[0 := Counted(2), 1 := Inserted(b.at)])
  }

  /** The second append has trimmed the old rows, and the first has deleted the two newest. */
  function Emptied(record: Record, a: Record, b: Record, limit: nat): Stream {
    CountedTwo(record, a, b, limit).(table := [], appends := map[0 := Pruned, 1 := Trimmed])
  }

  lemma FullTable(record: Record, a: Record, b: Record)
    ensures Table(Full(record)) && MaxNo(Full(record)) == MAX_ROWS
    ensures Table(Full(record) + [RowA(a)]) && MaxNo(Full(record) + [RowA(a)]) == MAX_ROWS + 1
    ensures Table(Both(record, a, b)) && MaxNo(Both(record, a, b)) == MAX_ROWS + 2
  {
  }

  /** The first append's window still holds every old row. */
  lemma FirstTrim(record: Record, a: Record, b: Record)
    requires InOrder(record, a, b)
    ensures Filter(Full(record) + [RowA(a)], InWindow(a.at)) == Full(record) + [RowA(a)]
  {
    FilterAll(Full(record) + [RowA(a)], InWindow(a.at));
  }

  /** The second append's window holds only the two new rows. */
  lemma SecondTrim(record: Record, a: Record, b: Record)
    requires InOrder(record, a, b)
    ensures Filter(Both(record, a, b), InWindow(b.at)) == [RowA(a), RowB(b)]
  {
    hide Filter;
    var rows := Both(record, a, b);
    FilterSuffix(rows, MAX_ROWS, InWindow(b.at));
    assert rows[MAX_ROWS..] == [RowA(a), RowB(b)];
  }

  lemma InsertsReach(record: Record, a: Record, b: Record, limit: nat)
    requires InOrder(record, a, b)
    ensures Reaches(Start(record), [Insert(0, a), Trim(0), Insert(1, b)], BothIn(record, a, b), limit)
  {
    hide Filter, Table, Full;
    FullTable(record, a, b);
    FirstTrim(record, a, b);
    var s0, one := Start(record), Full(record) + [RowA(a)];
    var s1 := s0.(table := one, log := one, appends := map[0 := Inserted(a.at)]);
    var s2 := s1.(appends := map[0 := Trimmed]);
    assert Next(s0, Insert(0, a), limit) == s1;
    assert Next(s1, Trim(0), limit) == s2;
    assert map[0 := Trimmed][1 := Inserted(b.at)] == map[0 := Trimmed, 1 := Inserted(b.at)];
    assert Next(s2, Insert(1, b), limit) == BothIn(record, a, b);
    assert Reaches(s0, [], s0, limit);
    Then(s0, [], s0, Insert(0, a), s1, [Insert(0, a)], limit);
    Then(s0, [Insert(0, a)], s1, Trim(0), s2, [Insert(0, a), Trim(0)], limit);
    Then(s0, [Insert(0, a), Trim(0)], s2, Insert(1, b), BothIn(record, a, b), [Insert(0, a), Trim(0), Insert(1, b)],
         limit);
  }

  lemma ReadsReach(record: Record, a: Record, b: Record, limit: nat, s: Stream, run: seq<Action>)
    requires limit >= 1 && Reaches(s, run, BothIn(record, a, b), limit)
    ensures Reaches(s, run + [Subscribe, Read, Count(0)], CountedTwo(record, a, b, limit), limit)
  {
    hide Table, Full, Snapshot, Reaches;
    FullTable(record, a, b);
    SnapshotShape(Both(record, a, b), limit);
    var t0 := BothIn(record, a, b);
    var t1 := t0.(phase := Starting);
    var t2 := t1.(phase := Blocked, batches := [Snapshot(t0.table, limit)], cursor := MAX_ROWS + 2,
                  start := MAX_ROWS + 2);
    assert Next(t0, Subscribe, limit) == t1;
    assert Next(t1, Read, limit) == t2;
    assert map[0 := Trimmed, 1 := Inserted(b.at)][0 := Counted(2)] == map[0 := Counted(2), 1 := Inserted(b.at)];
    assert Next(t2, Count(0), limit) == CountedTwo(record, a, b, limit);
    Then(s, run, t0, Subscribe, t1, run + [Subscribe], limit);
    Then(s, run + [Subscribe], t1, Read, t2, run + [Subscribe, Read], limit);
    Then(s, run + [Subscribe, Read], t2, Count(0), CountedTwo(record, a, b, limit),
         run + [Subscribe, Read, Count(0)], limit);
  }

  lemma DeletionsReach(record: Record, a: Record, b: Record, limit: nat, s: Stream, run: seq<Action>)
    requires InOrder(record, a, b) && Reaches(s, run, CountedTwo(record, a, b, limit), limit)
    ensures Reaches(s, run + [Trim(1), Select(0), Delete(0)], Emptied(record, a, b, limit), limit)
  {
    hide Filter, Full, Snapshot, Reaches, Both;
    SecondTrim(record, a, b);
    var t0, two := CountedTwo(record, a, b, limit), [RowA(a), RowB(b)];
    var t1 := t0.(table := two, appends := map[0 := Counted(2), 1 := Trimmed]);
    var t2 := t1.(appends := map[0 := Selected(MAX_ROWS + 2), 1 := Trimmed]);
    assert map[0 := Counted(2), 1 := Inserted(b.at)][1 := Trimmed] == t1.appends;
    assert Next(t0, Trim(1), limit) == t1;
    assert two[..2] == two && map[0 := Counted(2), 1 := Trimmed][0 := Selected(MAX_ROWS + 2)] == t2.appends;
    assert Next(t1, Select(0), limit) == t2;
    FilterNone(two, After(MAX_ROWS + 2));
    assert map[0 := Selected(MAX_ROWS + 2), 1 := Trimmed][0 := Pruned] == map[0 := Pruned, 1 := Trimmed];
    assert Next(t2, Delete(0), limit) == Emptied(record, a, b, limit);
    Then(s, run, t0, Trim(1), t1, run + [Trim(1)], limit);
    Then(s, run + [Trim(1)], t1, Select(0), t2, run + [Trim(1), Select(0)], limit);
    Then(s, run + [Trim(1), Select(0)], t2, Delete(0), Emptied(record, a, b, limit),
         run + [Trim(1), Select(0), Delete(0)], limit);
  }

  lemma NothingSince(after: nat)
    ensures Since([], after) == []
  {
  }

  lemma BumpsReach(t0: Stream, limit: nat, s: Stream, run: seq<Action>) returns (t: Stream)
    requires Reaches(s, run, t0, limit)
    requires t0.table == [] && t0.appends == map[0 := Pruned, 1 := Trimmed]
    requires t0.phase.Blocked? && t0.seen == t0.version && t0.cursor > 0
    ensures Reaches(s, run + [Bump(0), Count(1), Bump(1), Wake, Read], t, limit)
    ensures Quiet(t) && t.table == [] && t.cursor == t0.cursor
  {
    hide Reaches, ReadsAll, Since, Snapshot, Filter;
    var t1 := t0.(appends := map[1 := Trimmed], version := t0.version + 1);
    var t2, t3 := t1.(appends := map[1 := Pruned]), t1.(appends := map[], version := t0.version + 2);
    var t4 := t3.(seen := t3.version, phase := Woken);
    assert map[0 := Pruned, 1 := Trimmed] - {0} == map[1 := Trimmed] && map[1 := Pruned] - {1} == map[];
    assert Next(t0, Bump(0), limit) == t1;
    assert Next(t1, Count(1), limit) == t2;
    assert Next(t2, Bump(1), limit) == t3;
    assert Next(t3, Wake, limit) == t4;
    NothingSince(t0.cursor);
    t := Next(t4, Read, limit);
    Then(s, run, t0, Bump(0), t1, run + [Bump(0)], limit);
    Then(s, run + [Bump(0)], t1, Count(1), t2, run + [Bump(0), Count(1)], limit);
    Then(s, run + [Bump(0), Count(1)], t2, Bump(1), t3, run + [Bump(0), Count(1), Bump(1)], limit);
    Then(s, run + [Bump(0), Count(1), Bump(1)], t3, Wake, t4, run + [Bump(0), Count(1), Bump(1), Wake], limit);
    Then(s, run + [Bump(0), Count(1), Bump(1), Wake], t4, Read, t, run + [Bump(0), Count(1), Bump(1), Wake, Read],
         limit);
  }

  /** Two appends, the clock only moving forward. The first counts two rows too many; the second's window
      delete removes every old row; the first then deletes the two that are left. The log is empty, its
      keys start over, and a quiet reader stands beyond them and is not sent the next row. */
  lemma ForwardClocksMislead(record: Record, a: Record, b: Record, next: Record, limit: nat)
    requires InOrder(record, a, b) && limit >= 1
    ensures var run := [Insert(0, a), Trim(0), Insert(1, b), Subscribe, Read, Count(0),
                        Trim(1), Select(0), Delete(0), Bump(0), Count(1), Bump(1), Wake, Read];
      && Booted(Start(record)) && Legal(Start(record), run, limit)
      && var t := Exec(Start(record), run, limit);
         && Quiet(t) && t.table == [] && t.cursor == MAX_ROWS + 2
         && Row(NextNo(t.table), next) !in Since([Row(NextNo(t.table), next)], t.cursor)
  {
    hide Full, Snapshot, Since, Table, Emptied, CountedTwo, BothIn;
    FullTable(record, a, b);
    InsertsReach(record, a, b, limit);
    var r3 := [Insert(0, a), Trim(0), Insert(1, b)];
    ReadsReach(record, a, b, limit, Start(record), r3);
    var r6 := r3 + [Subscribe, Read, Count(0)];
    DeletionsReach(record, a, b, limit, Start(record), r6);
    var r9 := r6 + [Trim(1), Select(0), Delete(0)];
    EmptiedShape(record, a, b, limit);
    var t := BumpsReach(Emptied(record, a, b, limit), limit, Start(record), r9);
    assert r9 + [Bump(0), Count(1), Bump(1), Wake, Read]
        == [Insert(0, a), Trim(0), Insert(1, b), Subscribe, Read, Count(0),
            Trim(1), Select(0), Delete(0), Bump(0), Count(1), Bump(1), Wake, Read];
    OneRow(next);
    BatchBeyond([Row(1, next)], MAX_ROWS + 2);
  }

  lemma EmptiedShape(record: Record, a: Record, b: Record, limit: nat)
    ensures var t := Emptied(record, a, b, limit);
      && t.table == [] && t.appends == map[0 := Pruned, 1 := Trimmed]
      && t.phase.Blocked? && t.seen == t.version && t.cursor == MAX_ROWS + 2
  {
  }

  lemma OneRow(next: Record)
    ensures Table([Row(1, next)]) && NextNo([]) == 1
  {
  }
}
