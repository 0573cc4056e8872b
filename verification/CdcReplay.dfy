/** What a consumer of RowChanged reconstructs, across restarts of the tailer. */
module CdcReplay {
  import opened Basics
  import opened Cdc

  type Table = map<string, Row>

  /** The primary key column of `orders`. */
  const KEY_COLUMN := "order_id"

  function KeyOf(row: Row): (key: string) {
    if KEY_COLUMN in row then row[KEY_COLUMN] else ""
  }

  /** Applying one change by key; an update may move the row to another key. */
  function Apply(t: Table, c: RowChanged): (r: Table) {
    match c.operation
    case Insert => t[KeyOf(c.row) := c.row]
    case Delete => t - {KeyOf(c.row)}
    case Update =>
      var without := if c.previous.Some? then t - {KeyOf(c.previous.value)} else t;
      without[KeyOf(c.row) := c.row]
  }

  function ApplyAll(t: Table, changes: seq<RowChanged>): (r: Table) {
    if changes == [] then t else Apply(ApplyAll(t, changes[..|changes| - 1]), changes[|changes| - 1])
  }

  predicate Touches(c: RowChanged, key: string) {
    key == KeyOf(c.row) || (c.operation.Update? && c.previous.Some? && key == KeyOf(c.previous.value))
  }

  ghost predicate Touched(changes: seq<RowChanged>, key: string) {
    exists i :: 0 <= i < |changes| && Touches(changes[i], key)
  }

  ghost predicate SameAt(a: Table, b: Table, key: string) {
    (key in a <==> key in b) && (key in a ==> a[key] == b[key])
  }

  lemma {:induction false} ApplyInParts(t: Table, first: seq<RowChanged>, second: seq<RowChanged>)
    ensures ApplyAll(t, first + second) == ApplyAll(ApplyAll(t, first), second)
  {
    if second == [] {
      assert first + second == first;
    } else {
      assert (first + second)[..|first + second| - 1] == first + second[..|second| - 1];
      ApplyInParts(t, first, second[..|second| - 1]);
    }
  }

  /** A key's row depends on the changes that touch it alone: on the last of them
      if there is one, on the table before otherwise. */
  lemma {:induction false} LastTouchDecides(a: Table, b: Table, changes: seq<RowChanged>, key: string)
    ensures Touched(changes, key) ==> SameAt(ApplyAll(a, changes), ApplyAll(b, changes), key)
    ensures !Touched(changes, key) ==> SameAt(ApplyAll(a, changes), a, key)
  {
    if changes != [] {
      var front, c := changes[..|changes| - 1], changes[|changes| - 1];
      LastTouchDecides(a, b, front, key);
      OneMoreTouch(changes, key);
      OneTouch(ApplyAll(a, front), ApplyAll(b, front), c, key);
    }
  }

  lemma OneTouch(a: Table, b: Table, c: RowChanged, key: string)
    ensures Touches(c, key) ==> SameAt(Apply(a, c), Apply(b, c), key)
    ensures !Touches(c, key) ==> SameAt(Apply(a, c), a, key)
  {
  }

  lemma OneMoreTouch(changes: seq<RowChanged>, key: string)
    requires changes != []
    ensures Touched(changes, key) <==>
              Touched(changes[..|changes| - 1], key) || Touches(changes[|changes| - 1], key)
  {
    var front := changes[..|changes| - 1];
    if Touched(front, key) {
      var i :| 0 <= i < |front| && Touches(front[i], key);
      assert Touches(changes[i], key);
    }
    if Touched(changes, key) && !Touches(changes[|changes| - 1], key) {
      var i :| 0 <= i < |changes| && Touches(changes[i], key);
      assert Touches(front[i], key);
    }
  }

  // ---- The database side --------------------------------------------------

  /** A change the database can have logged in state `t`. */
  predicate Logged(t: Table, c: RowChanged) {
    match c.operation
    case Insert => KeyOf(c.row) !in t && c.previous.None?
    case Delete => KeyOf(c.row) in t && t[KeyOf(c.row)] == c.row && c.previous.None?
    case Update =>
      && c.previous.Some?
      && KeyOf(c.previous.value) in t && t[KeyOf(c.previous.value)] == c.previous.value
      && (KeyOf(c.row) == KeyOf(c.previous.value) || KeyOf(c.row) !in t)
  }

  /** The database's own execution of one change: the rows as a set. */
  function Execute(rows: set<Row>, c: RowChanged): (r: set<Row>) {
    match c.operation
    case Insert => rows + {c.row}
    case Delete => rows - {c.row}
    case Update => (if c.previous.Some? then rows - {c.previous.value} else rows) + {c.row}
  }

  function ExecuteAll(rows: set<Row>, changes: seq<RowChanged>): (r: set<Row>) {
    if changes == [] then rows else Execute(ExecuteAll(rows, changes[..|changes| - 1]), changes[|changes| - 1])
  }

  /** A keyed table, and every change logged against the state before it. */
  ghost predicate History(t: Table, changes: seq<RowChanged>) {
    && (forall k :: k in t ==> KeyOf(t[k]) == k)
    && (forall i :: 0 <= i < |changes| ==> Logged(ApplyAll(t, changes[..i]), changes[i]))
  }

  /** Applying by key follows the database: at every log position the keyed table
      holds exactly the database's rows, each under its own key. */
  lemma {:induction false} KeyedTableIsTheDatabase(t: Table, changes: seq<RowChanged>)
    requires History(t, changes)
    ensures ApplyAll(t, changes).Values == ExecuteAll(t.Values, changes)
    ensures forall k :: k in ApplyAll(t, changes) ==> KeyOf(ApplyAll(t, changes)[k]) == k
  {
    if changes != [] {
      var front, c := changes[..|changes| - 1], changes[|changes| - 1];
      HistoryOfFront(t, changes);
      KeyedTableIsTheDatabase(t, front);
      OneChange(ApplyAll(t, front), c);
    }
  }

  lemma HistoryOfFront(t: Table, changes: seq<RowChanged>)
    requires History(t, changes) && changes != []
    ensures History(t, changes[..|changes| - 1])
    ensures Logged(ApplyAll(t, changes[..|changes| - 1]), changes[|changes| - 1])
  {
    var front := changes[..|changes| - 1];
    forall i | 0 <= i < |front| ensures Logged(ApplyAll(t, front[..i]), front[i]) {
      assert front[..i] == changes[..i];
    }
  }

  lemma OneChange(t: Table, c: RowChanged)
    requires forall k :: k in t ==> KeyOf(t[k]) == k
    requires Logged(t, c)
    ensures Apply(t, c).Values == Execute(t.Values, c)
    ensures forall k :: k in Apply(t, c) ==> KeyOf(Apply(t, c)[k]) == k
  {
    var t' := Apply(t, c);
    forall row ensures row in t'.Values <==> row in Execute(t.Values, c) {
      if row in t'.Values {
        var k :| k in t' && t'[k] == row;
        assert k == KeyOf(row);
        assert k in t ==> t[k] in t.Values;
      }
      if row in Execute(t.Values, c) {
        if row != c.row {
          var k :| k in t && t[k] == row;
          assert k in t';
        } else {
          assert KeyOf(row) in t';
        }
      }
    }
  }

  // ---- Starting from what is retained -------------------------------------

  /** A consumer that starts empty ends with the database's table exactly when
      every row older than the retained log is touched by it. */
  lemma EmptyStartSufficesIff(base: Table, changes: seq<RowChanged>)
    ensures ApplyAll(map[], changes) == ApplyAll(base, changes)
       <==> forall k :: k in base ==> Touched(changes, k)
  {
    var mine, theirs := ApplyAll(map[], changes), ApplyAll(base, changes);
    forall k
      ensures Touched(changes, k) ==> SameAt(mine, theirs, k)
      ensures !Touched(changes, k) ==> k !in mine && SameAt(theirs, base, k)
    {
      LastTouchDecides(map[], base, changes, k);
      LastTouchDecides(base, map[], changes, k);
    }
    if forall k :: k in base ==> Touched(changes, k) {
      forall k ensures SameAt(mine, theirs, k) {
      }
      assert mine.Keys == theirs.Keys;
    } else {
      var k :| k in base && !Touched(changes, k);
      assert k in theirs && k !in mine;
    }
  }

  // ---- Restarts -----------------------------------------------------------

  /** One life of the tailer: it published `log[start..end]`. */
  datatype Session = Session(start: nat, end: nat)

  /** Each session starts no later than the one before it stopped, the first at
      the beginning, and none reads past the log. */
  ghost predicate Gapless(sessions: seq<Session>, log: seq<RowChanged>) {
    && (forall i :: 0 <= i < |sessions| ==> sessions[i].start <= sessions[i].end <= |log|)
    && (sessions != [] ==> sessions[0].start == 0)
    && (forall i :: 0 < i < |sessions| ==> sessions[i].start <= sessions[i - 1].end)
  }

  /** The consumer's table after all sessions. */
  function Replayed(sessions: seq<Session>, log: seq<RowChanged>): (t: Table)
    requires forall i :: 0 <= i < |sessions| ==> sessions[i].start <= sessions[i].end <= |log|
  {
    if sessions == [] then map[]
    else
      var s := sessions[|sessions| - 1];
      ApplyAll(Replayed(sessions[..|sessions| - 1], log), log[s.start..s.end])
  }

  /** How far any session has come. */
  function Furthest(sessions: seq<Session>): (n: nat)
    ensures forall i :: 0 <= i < |sessions| ==> sessions[i].end <= n
    ensures n == 0 || exists i :: 0 <= i < |sessions| && sessions[i].end == n
  {
    if sessions == [] then 0
    else
      var before, end := Furthest(sessions[..|sessions| - 1]), sessions[|sessions| - 1].end;
      if before > end then before else end
  }

  function LastEnd(sessions: seq<Session>): (n: nat) {
    if sessions == [] then 0 else sessions[|sessions| - 1].end
  }

  ghost function TableAt(log: seq<RowChanged>, n: nat): (t: Table)
    requires n <= |log|
  {
    ApplyAll(map[], log[..n])
  }

  lemma Untouched(log: seq<RowChanged>, m: nat, n: nat, key: string)
    requires m <= n <= |log| && !Touched(log[m..n], key)
    ensures SameAt(TableAt(log, m), TableAt(log, n), key)
  {
    ApplyInParts(map[], log[..m], log[m..n]);
    assert log[..n] == log[..m] + log[m..n];
    LastTouchDecides(TableAt(log, m), map[], log[m..n], key);
  }

  lemma TouchedWithin(log: seq<RowChanged>, a: nat, b: nat, c: nat, d: nat, key: string)
    requires c <= a <= b <= d <= |log| && Touched(log[a..b], key)
    ensures Touched(log[c..d], key)
  {
    var i :| 0 <= i < |log[a..b]| && Touches(log[a..b][i], key);
    assert log[c..d][a - c + i] == log[a..b][i];
  }

  lemma TouchedInParts(log: seq<RowChanged>, a: nat, b: nat, c: nat, key: string)
    requires a <= b <= c <= |log| && Touched(log[a..c], key)
    ensures Touched(log[a..b], key) || Touched(log[b..c], key)
  {
    var i :| 0 <= i < |log[a..c]| && Touches(log[a..c][i], key);
    if a + i < b {
      assert log[a..b][i] == log[a..c][i];
    } else {
      assert log[b..c][a + i - b] == log[a..c][i];
    }
  }

  /** At every point of every run of restarts, the consumer agrees with the
      furthest table published so far on each key that the current session has
      no change left to replay for. */
  lemma {:induction false} ReplayConverges(sessions: seq<Session>, log: seq<RowChanged>, key: string)
    requires Gapless(sessions, log)
    ensures LastEnd(sessions) <= Furthest(sessions) <= |log|
    ensures !Touched(log[LastEnd(sessions)..Furthest(sessions)], key) ==>
              SameAt(Replayed(sessions, log), TableAt(log, Furthest(sessions)), key)
  {
    if sessions != [] {
      var front, s := sessions[..|sessions| - 1], sessions[|sessions| - 1];
      ReplayConverges(front, log, key);
      OneMoreSession(Replayed(front, log), log, s.start, LastEnd(front), Furthest(front), s.end, Furthest(sessions),
                     key);
    }
  }

  /** One session more, replaying `log[m..e']` onto `t`. */
  lemma OneMoreSession(t: Table, log: seq<RowChanged>, m: nat, e: nat, far: nat, e': nat, far': nat, key: string)
    requires m <= e <= far <= far' <= |log| && m <= e' <= far'
    requires !Touched(log[e..far], key) ==> SameAt(t, TableAt(log, far), key)
    ensures !Touched(log[e'..far'], key) ==> SameAt(ApplyAll(t, log[m..e']), TableAt(log, far'), key)
  {
    if !Touched(log[e'..far'], key) {
      LastTouchDecides(t, TableAt(log, m), log[m..e'], key);
      if Touched(log[m..e'], key) {
        ApplyInParts(map[], log[..m], log[m..e']);
        assert log[..e'] == log[..m] + log[m..e'];
        Untouched(log, e', far', key);
      } else {
        NothingLeft(log, m, e, far, e', far', key);
        Untouched(log, far, far', key);
      }
    }
  }

  lemma NothingLeft(log: seq<RowChanged>, m: nat, e: nat, far: nat, e': nat, far': nat, key: string)
    requires m <= e <= far <= far' <= |log| && m <= e' <= far'
    requires !Touched(log[e'..far'], key) && !Touched(log[m..e'], key)
    ensures !Touched(log[e..far], key) && !Touched(log[far..far'], key)
  {
    if Touched(log[m..far'], key) {
      TouchedInParts(log, m, e', far', key);
    }
    if Touched(log[e..far], key) {
      TouchedWithin(log, e, far, m, far', key);
    }
    if Touched(log[far..far'], key) {
      TouchedWithin(log, far, far', m, far', key);
    }
  }

  /** Once a session has caught up with the furthest publish, the consumer holds
      exactly the table at that log position, however often and wherever earlier
      sessions were cut off. */
  lemma CaughtUpIsExact(sessions: seq<Session>, log: seq<RowChanged>)
    requires Gapless(sessions, log) && LastEnd(sessions) == Furthest(sessions)
    ensures LastEnd(sessions) <= |log|
    ensures Replayed(sessions, log) == TableAt(log, LastEnd(sessions))
  {
    ReplayConverges(sessions, log, "");
    var mine, theirs := Replayed(sessions, log), TableAt(log, Furthest(sessions));
    assert log[LastEnd(sessions)..Furthest(sessions)] == [];
    forall k ensures SameAt(mine, theirs, k) {
      ReplayConverges(sessions, log, k);
    }
    SameEverywhere(mine, theirs);
  }

  lemma SameEverywhere(a: Table, b: Table)
    requires forall k :: SameAt(a, b, k)
    ensures a == b
  {
    forall k ensures k in a <==> k in b {
      assert SameAt(a, b, k);
    }
    forall k | k in a ensures a[k] == b[k] {
      assert SameAt(a, b, k);
    }
  }

  // ---- Gaps ---------------------------------------------------------------

  /** Replaying `log[m..e]` onto any table gives the table at `e` exactly when that table
      has, for every key not replayed, the row it should have at `m`. */
  lemma ReplayIsExactIff(t: Table, log: seq<RowChanged>, m: nat, e: nat)
    requires m <= e <= |log|
    ensures ApplyAll(t, log[m..e]) == TableAt(log, e)
       <==> forall key :: !Touched(log[m..e], key) ==> SameAt(t, TableAt(log, m), key)
  {
    var mine, theirs := ApplyAll(t, log[m..e]), TableAt(log, e);
    ApplyInParts(map[], log[..m], log[m..e]);
    assert log[..e] == log[..m] + log[m..e];
    forall key
      ensures Touched(log[m..e], key) ==> SameAt(mine, theirs, key)
      ensures !Touched(log[m..e], key) ==> (SameAt(mine, theirs, key) <==> SameAt(t, TableAt(log, m), key))
    {
      LastTouchDecides(t, TableAt(log, m), log[m..e], key);
      LastTouchDecides(TableAt(log, m), t, log[m..e], key);
    }
    if forall key :: !Touched(log[m..e], key) ==> SameAt(t, TableAt(log, m), key) {
      forall key ensures SameAt(mine, theirs, key) {
      }
      SameEverywhere(mine, theirs);
    }
  }

  /** The same for one more session after any others, gap or no gap. */
  lemma SessionIsExactIff(sessions: seq<Session>, log: seq<RowChanged>, s: Session)
    requires forall i :: 0 <= i < |sessions| ==> sessions[i].start <= sessions[i].end <= |log|
    requires s.start <= s.end <= |log|
    ensures Replayed(sessions + [s], log) == TableAt(log, s.end)
       <==> forall key :: !Touched(log[s.start..s.end], key) ==>
              SameAt(Replayed(sessions, log), TableAt(log, s.start), key)
  {
    assert (sessions + [s])[..|sessions|] == sessions;
    ReplayIsExactIff(Replayed(sessions, log), log, s.start, s.end);
  }

  /** Retention that drops changes before they were published: a session that starts
      beyond the furthest publish still gives the table exactly when each key it does
      not replay has the same row at both ends of the gap. */
  lemma GapIsHarmlessIff(sessions: seq<Session>, log: seq<RowChanged>, s: Session)
    requires Gapless(sessions, log) && LastEnd(sessions) == Furthest(sessions)
    requires Furthest(sessions) <= s.start <= s.end <= |log|
    ensures Replayed(sessions + [s], log) == TableAt(log, s.end)
       <==> forall key :: !Touched(log[s.start..s.end], key) ==>
              SameAt(TableAt(log, Furthest(sessions)), TableAt(log, s.start), key)
  {
    CaughtUpIsExact(sessions, log);
    SessionIsExactIff(sessions, log, s);
  }

  /** A gap that does harm: a row written between two sessions' reach is missing. */
  lemma GapLosesRows()
    ensures var row := map[KEY_COLUMN := "a"]; var other := map[KEY_COLUMN := "b"];
            var log := [RowChanged(Insert, row, None), RowChanged(Insert, other, None)];
            Replayed([Session(0, 0), Session(1, 2)], log) != TableAt(log, 2)
  {
    var row := map[KEY_COLUMN := "a"];
    var other := map[KEY_COLUMN := "b"];
    var log := [RowChanged(Insert, row, None), RowChanged(Insert, other, None)];
    var sessions := [Session(0, 0), Session(1, 2)];
    assert sessions[..1][..0] == [];
    assert log[1..2] == [log[1]] && log[0..0] == [];
    assert Replayed(sessions[..1], log) == map[];
    assert Replayed(sessions, log) == ApplyAll(map[], [log[1]]);
    assert "a" !in Replayed(sessions, log);
    ApplyInParts(map[], log[..1], log[1..2]);
    assert log[..2] == log[..1] + log[1..2] && log[..1] == [log[0]];
    assert ApplyAll(map[], [log[0]]) == map["a" := row];
    LastTouchDecides(map["a" := row], map[], [log[1]], "a");
    assert "a" in TableAt(log, 2);
  }

  // ---- The tailer's sessions ----------------------------------------------

  /** What `CdcWatcher.RunStream` leaves published, when it reads a log whose first
      `dropped` events are no longer retained, is a session of that log. */
  lemma TailerRunsASession(log: seq<BinlogEvent>, dropped: nat, passes: seq<seq<BinlogEvent>>,
                           published: seq<RowChanged>)
    returns (s: Session)
    requires dropped <= |log| && Flatten(passes) <= log[dropped..] && published <= Changes(Flatten(passes))
    ensures s == Session(|Changes(log[..dropped])|, |Changes(log[..dropped])| + |published|)
    ensures s.end <= |Changes(log)| && Changes(log)[s.start..s.end] == published
  {
    var before, rest, read := log[..dropped], log[dropped..], Flatten(passes);
    ChangesInTwo(log, dropped);
    ChangesOfPrefix(rest, read);
    MiddleOf(Changes(before), Changes(rest), Changes(read), published);
    s := Session(|Changes(before)|, |Changes(before)| + |published|);
  }

  lemma ChangesInTwo(log: seq<BinlogEvent>, n: nat)
    requires n <= |log|
    ensures Changes(log) == Changes(log[..n]) + Changes(log[n..])
  {
    assert log == log[..n] + log[n..];
    ChangesOfConcat(log[..n], log[n..]);
  }

  lemma ChangesOfPrefix(log: seq<BinlogEvent>, read: seq<BinlogEvent>)
    requires read <= log
    ensures Changes(read) <= Changes(log)
  {
    assert log[..|read|] == read;
    ChangesPrefix(log, |read|);
  }

  lemma MiddleOf(a: seq<RowChanged>, b: seq<RowChanged>, read: seq<RowChanged>, part: seq<RowChanged>)
    requires part <= read <= b
    ensures |a| + |part| <= |a + b| && (a + b)[|a|..|a| + |part|] == part
  {
    assert |part| <= |b| && b[..|part|] == read[..|part|] == part;
    assert (a + b)[|a|..|a| + |part|] == b[..|part|];
  }

  lemma OneSessionMore(earlier: seq<Session>, s: Session, log: seq<RowChanged>)
    requires Gapless(earlier, log) && s.start <= s.end <= |log|
    requires s.start <= LastEnd(earlier) && s.end >= Furthest(earlier)
    ensures Gapless(earlier + [s], log)
    ensures LastEnd(earlier + [s]) == Furthest(earlier + [s]) == s.end
    ensures Replayed(earlier + [s], log) == ApplyAll(Replayed(earlier, log), log[s.start..s.end])
  {
    StillGapless(earlier, s, log);
    var sessions := earlier + [s];
    assert sessions[..|sessions| - 1] == earlier;
  }

  lemma StillGapless(earlier: seq<Session>, s: Session, log: seq<RowChanged>)
    requires Gapless(earlier, log) && s.start <= s.end <= |log| && s.start <= LastEnd(earlier)
    ensures Gapless(earlier + [s], log)
  {
    var sessions, n := earlier + [s], |earlier|;
    assert sessions[n] == s && forall i :: 0 <= i < n ==> sessions[i] == earlier[i];
  }

  /** A session that comes as far as any before it leaves the table at its end. */
  lemma CatchesUp(earlier: seq<Session>, s: Session, log: seq<RowChanged>)
    requires Gapless(earlier, log) && s.start <= s.end <= |log|
    requires s.start <= LastEnd(earlier) && s.end >= Furthest(earlier)
    ensures ApplyAll(Replayed(earlier, log), log[s.start..s.end]) == TableAt(log, s.end)
  {
    OneSessionMore(earlier, s, log);
    CaughtUpIsExact(earlier + [s], log);
  }

  /** So a consumer is exact once the tailer, which starts over at the earliest retained
      event each time, has come as far as any of its lives did, if nothing was dropped
      before it was published. `changes` are the log's, `gone` those dropped of them. */
  lemma TailerCatchesUp(earlier: seq<Session>, log: seq<BinlogEvent>, dropped: nat, passes: seq<seq<BinlogEvent>>,
                        published: seq<RowChanged>, changes: seq<RowChanged>, gone: nat)
    returns (s: Session)
    requires dropped <= |log| && Flatten(passes) <= log[dropped..] && published <= Changes(Flatten(passes))
    requires changes == Changes(log) && gone == |Changes(log[..dropped])|
    requires Gapless(earlier, changes) && gone <= LastEnd(earlier) && gone + |published| >= Furthest(earlier)
    ensures s.start == gone && s.end == gone + |published| <= |changes| && changes[s.start..s.end] == published
    ensures ApplyAll(Replayed(earlier, changes), changes[s.start..s.end]) == TableAt(changes, s.end)
  {
    s := TailerRunsASession(log, dropped, passes, published);
    CatchesUp(earlier, s, changes);
  }
}
