/** What the binlog says the database did, event by event, and that applying the published
    row changes by key comes to the same. */
module CdcDatabase {
  import opened Basics
  import opened Batches
  import opened Cdc
  import opened CdcReplay

  // ---- The database -------------------------------------------------------

  /** What the statement behind an event does to the rows: inserted rows are added, the
      first row of each pair gives way to the second, deleted rows are removed. */
  ghost function AfterEvent(rows: set<Row>, e: BinlogEvent): (r: set<Row>) {
    match e
    case WriteRows(written) => rows + (set row | row in written)
    case UpdateRows(pairs) => Replaced(rows, pairs)
    case DeleteRows(deleted) => rows - (set row | row in deleted)
  }

  function Replaced(rows: set<Row>, pairs: seq<(Row, Row)>): (r: set<Row>) {
    if pairs == [] then rows
    else
      var (before, after) := pairs[|pairs| - 1];
      Replaced(rows, pairs[..|pairs| - 1]) - {before} + {after}
  }

  ghost function AfterLog(rows: set<Row>, log: seq<BinlogEvent>): (r: set<Row>) {
    if log == [] then rows else AfterEvent(AfterLog(rows, log[..|log| - 1]), log[|log| - 1])
  }

  /** No row has the key of `row`. */
  ghost predicate KeyIsFree(rows: set<Row>, row: Row) {
    forall other :: other in rows ==> KeyOf(other) != KeyOf(row)
  }

  /** A statement a table with a primary key can execute: inserted rows have keys of their
      own, updated and deleted rows are there, and an update moves to a free key, if it
      moves at all. */
  ghost predicate Executable(rows: set<Row>, e: BinlogEvent) {
    match e
    case WriteRows(w) =>
      forall i :: 0 <= i < |w| ==> KeyIsFree(AfterEvent(rows, WriteRows(w[..i])), w[i])
    case UpdateRows(p) =>
      forall i :: 0 <= i < |p| ==>
        && p[i].0 in Replaced(rows, p[..i])
        && (KeyOf(p[i].1) == KeyOf(p[i].0) || KeyIsFree(Replaced(rows, p[..i]), p[i].1))
    case DeleteRows(d) =>
      forall i :: 0 <= i < |d| ==> d[i] in AfterEvent(rows, DeleteRows(d[..i]))
  }

  ghost predicate ExecutableLog(rows: set<Row>, log: seq<BinlogEvent>) {
    log == [] ||
    (&& ExecutableLog(rows, log[..|log| - 1])
     && Executable(AfterLog(rows, log[..|log| - 1]), log[|log| - 1]))
  }

  // ---- An event, row by row -----------------------------------------------

  /** The event with its first `n` rows only. */
  function FirstRows(e: BinlogEvent, n: nat): (r: BinlogEvent)
    requires n <= RowCount(e)
  {
    match e
    case WriteRows(rows) => WriteRows(rows[..n])
    case UpdateRows(pairs) => UpdateRows(pairs[..n])
    case DeleteRows(rows) => DeleteRows(rows[..n])
  }

  lemma AllRows(e: BinlogEvent)
    ensures FirstRows(e, RowCount(e)) == e
  {
    match e {
      case WriteRows(rows) => assert rows[..|rows|] == rows;
      case UpdateRows(pairs) => assert pairs[..|pairs|] == pairs;
      case DeleteRows(rows) => assert rows[..|rows|] == rows;
    }
  }

  /** What the database does with row `i` of the event. */
  ghost function AfterRow(rows: set<Row>, e: BinlogEvent, i: nat): (r: set<Row>)
    requires i < RowCount(e)
  {
    match e
    case WriteRows(w) => rows + {w[i]}
    case UpdateRows(p) => rows - {p[i].0} + {p[i].1}
    case DeleteRows(d) => rows - {d[i]}
  }

  lemma OneRowMore(rows: set<Row>, e: BinlogEvent, n: nat)
    requires n < RowCount(e)
    ensures AfterEvent(rows, FirstRows(e, n + 1)) == AfterRow(AfterEvent(rows, FirstRows(e, n)), e, n)
  {
    match e {
      case WriteRows(w) => OneLonger(w, n);
      case UpdateRows(p) =>
        assert p[..n + 1][..n] == p[..n];
      case DeleteRows(d) => OneLonger(d, n);
    }
  }

  lemma NoRows(rows: set<Row>, e: BinlogEvent)
    ensures AfterEvent(rows, FirstRows(e, 0)) == rows
  {
  }

  /** The change published for a row does to a set of rows what the database did. */
  lemma ChangeIsTheRow(rows: set<Row>, e: BinlogEvent, i: nat)
    requires i < RowCount(e)
    ensures Execute(rows, ChangeAt(e, i)) == AfterRow(rows, e, i)
  {
  }

  lemma ChangesInRow(e: BinlogEvent, n: nat)
    requires n < RowCount(e)
    ensures ChangesOf(e)[..n + 1] == ChangesOf(e)[..n] + [ChangeAt(e, n)]
  {
  }

  lemma {:induction false} FirstChangesAreFirstRows(rows: set<Row>, e: BinlogEvent, n: nat)
    requires n <= RowCount(e)
    ensures ExecuteAll(rows, ChangesOf(e)[..n]) == AfterEvent(rows, FirstRows(e, n))
  {
    if n == 0 {
      NoRows(rows, e);
    } else {
      FirstChangesAreFirstRows(rows, e, n - 1);
      OneRowMore(rows, e, n - 1);
      ChangesInRow(e, n - 1);
      OneExecuted(rows, ChangesOf(e)[..n - 1], ChangeAt(e, n - 1));
      ChangeIsTheRow(AfterEvent(rows, FirstRows(e, n - 1)), e, n - 1);
    }
  }

  lemma OneExecuted(rows: set<Row>, changes: seq<RowChanged>, c: RowChanged)
    ensures ExecuteAll(rows, changes + [c]) == Execute(ExecuteAll(rows, changes), c)
  {
    var longer := changes + [c];
    assert longer[..|longer| - 1] == changes;
  }

  /** The row changes published for an event do what the statement behind it did. */
  lemma EventIsItsChanges(rows: set<Row>, e: BinlogEvent)
    ensures ExecuteAll(rows, ChangesOf(e)) == AfterEvent(rows, e)
  {
    FirstChangesAreFirstRows(rows, e, RowCount(e));
    AllRows(e);
    assert ChangesOf(e)[..RowCount(e)] == ChangesOf(e);
  }

  lemma {:induction false} ExecuteInParts(rows: set<Row>, first: seq<RowChanged>, second: seq<RowChanged>)
    ensures ExecuteAll(rows, first + second) == ExecuteAll(ExecuteAll(rows, first), second)
  {
    if second == [] {
      assert first + second == first;
    } else {
      assert (first + second)[..|first + second| - 1] == first + second[..|second| - 1];
      ExecuteInParts(rows, first, second[..|second| - 1]);
    }
  }

  /** The row changes of a binlog do what the database did. */
  lemma {:induction false} LogIsItsChanges(rows: set<Row>, log: seq<BinlogEvent>)
    ensures ExecuteAll(rows, Changes(log)) == AfterLog(rows, log)
  {
    if log != [] {
      var front, e := log[..|log| - 1], log[|log| - 1];
      LogIsItsChanges(rows, front);
      ExecuteInParts(rows, Changes(front), ChangesOf(e));
      EventIsItsChanges(AfterLog(rows, front), e);
    }
  }

  // ---- The keyed table ----------------------------------------------------

  /** Each row is kept under its own key. */
  ghost predicate Keyed(t: Table) {
    forall k :: k in t ==> KeyOf(t[k]) == k
  }

  /** What the database could execute next it could log next. */
  lemma ExecutableIsLogged(t: Table, e: BinlogEvent, i: nat, rows: set<Row>)
    requires Keyed(t) && i < RowCount(e) && Executable(rows, e)
    requires t.Values == AfterEvent(rows, FirstRows(e, i))
    ensures Logged(t, ChangeAt(e, i))
  {
    match e {
      case WriteRows(w) => FreeInTable(t, w[i]);
      case UpdateRows(p) =>
        ThereInTable(t, p[i].0);
        if KeyOf(p[i].1) != KeyOf(p[i].0) {
          FreeInTable(t, p[i].1);
        }
      case DeleteRows(d) => ThereInTable(t, d[i]);
    }
  }

  lemma FreeInTable(t: Table, row: Row)
    requires Keyed(t)
    ensures KeyOf(row) in t ==> !KeyIsFree(t.Values, row)
  {
    if KeyOf(row) in t {
      assert t[KeyOf(row)] in t.Values;
    }
  }

  lemma ThereInTable(t: Table, row: Row)
    requires Keyed(t) && row in t.Values
    ensures KeyOf(row) in t && t[KeyOf(row)] == row
  {
    var k :| k in t && t[k] == row;
  }

  lemma HistoryGrows(t: Table, changes: seq<RowChanged>, c: RowChanged)
    requires History(t, changes) && Logged(ApplyAll(t, changes), c)
    ensures History(t, changes + [c])
  {
    var longer := changes + [c];
    forall i | 0 <= i < |longer| ensures Logged(ApplyAll(t, longer[..i]), longer[i]) {
      assert longer[..i] == changes[..i];
      assert i == |changes| ==> changes[..i] == changes;
    }
  }

  /** `earlier` are the changes of the event's first `i` rows. */
  lemma OneRowOfHistory(t: Table, changes: seq<RowChanged>, earlier: seq<RowChanged>, e: BinlogEvent, i: nat)
    requires History(t, changes + earlier) && i < RowCount(e) && Executable(ExecuteAll(t.Values, changes), e)
    requires ExecuteAll(ExecuteAll(t.Values, changes), earlier)
             == AfterEvent(ExecuteAll(t.Values, changes), FirstRows(e, i))
    ensures History(t, changes + (earlier + [ChangeAt(e, i)]))
  {
    KeyedTableIsTheDatabase(t, changes + earlier);
    ExecuteInParts(t.Values, changes, earlier);
    ExecutableIsLogged(ApplyAll(t, changes + earlier), e, i, ExecuteAll(t.Values, changes));
    HistoryGrows(t, changes + earlier, ChangeAt(e, i));
    assert changes + earlier + [ChangeAt(e, i)] == changes + (earlier + [ChangeAt(e, i)]);
  }

  lemma {:induction false} EventMakesHistory(t: Table, changes: seq<RowChanged>, e: BinlogEvent, n: nat)
    requires History(t, changes) && n <= RowCount(e)
    requires Executable(ExecuteAll(t.Values, changes), e)
    ensures History(t, changes + ChangesOf(e)[..n])
  {
    if n == 0 {
      assert changes + ChangesOf(e)[..0] == changes;
    } else {
      EventMakesHistory(t, changes, e, n - 1);
      FirstChangesAreFirstRows(ExecuteAll(t.Values, changes), e, n - 1);
      ChangesInRow(e, n - 1);
      OneRowOfHistory(t, changes, ChangesOf(e)[..n - 1], e, n - 1);
    }
  }

  lemma {:induction false} LogMakesHistory(t: Table, log: seq<BinlogEvent>)
    requires Keyed(t) && ExecutableLog(t.Values, log)
    ensures History(t, Changes(log))
  {
    if log != [] {
      var front, e := log[..|log| - 1], log[|log| - 1];
      LogMakesHistory(t, front);
      LogIsItsChanges(t.Values, front);
      EventMakesHistory(t, Changes(front), e, RowCount(e));
      assert ChangesOf(e)[..RowCount(e)] == ChangesOf(e);
    }
  }

  /** Whatever statements a table with a primary key executes: applying the row changes
      published for its binlog by key holds exactly the database's rows, each under its own
      key. */
  lemma PublishedIsTheDatabase(t: Table, log: seq<BinlogEvent>)
    requires Keyed(t) && ExecutableLog(t.Values, log)
    ensures ApplyAll(t, Changes(log)).Values == AfterLog(t.Values, log)
    ensures Keyed(ApplyAll(t, Changes(log)))
  {
    LogMakesHistory(t, log);
    KeyedTableIsTheDatabase(t, Changes(log));
    LogIsItsChanges(t.Values, log);
  }

  /** After any number of restarts: once a session has caught up with the whole of a binlog
      that starts from an empty table, the consumer holds exactly the database's rows. */
  lemma CaughtUpIsTheDatabase(sessions: seq<Session>, log: seq<BinlogEvent>)
    requires ExecutableLog({}, log) && Gapless(sessions, Changes(log))
    requires LastEnd(sessions) == Furthest(sessions) == |Changes(log)|
    ensures Replayed(sessions, Changes(log)).Values == AfterLog({}, log)
    ensures Keyed(Replayed(sessions, Changes(log)))
  {
    var empty: Table := map[];
    assert empty.Values == {};
    CaughtUpIsExact(sessions, Changes(log));
    assert Changes(log)[..|Changes(log)|] == Changes(log);
    PublishedIsTheDatabase(empty, log);
  }
}
