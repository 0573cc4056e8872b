/** Change data capture (adapters/db_adapter_mysql/db_adapter_mysql/cdc_watcher.py):
    a binlog is tailed from its earliest retained position and every row change
    is published. */
module Cdc {
  import opened Basics
  import opened Batches

  type Row = map<string, string>

  /** What the binlog holds: one event per statement, several rows each. */
  datatype BinlogEvent =
    | WriteRows(rows: seq<Row>)
    | UpdateRows(pairs: seq<(Row, Row)>)
    | DeleteRows(rows: seq<Row>)

  datatype Operation = Insert | Update | Delete

  /** `encode_row_changed`; `previous` is present for updates only. */
  datatype RowChanged = RowChanged(operation: Operation, row: Row, previous: Option<Row>)

  function RowCount(e: BinlogEvent): (n: nat) {
    match e
    case WriteRows(rows) => |rows|
    case UpdateRows(pairs) => |pairs|
    case DeleteRows(rows) => |rows|
  }

  function ChangeAt(e: BinlogEvent, i: nat): (c: RowChanged)
    requires i < RowCount(e)
  {
    match e
    case WriteRows(rows) => RowChanged(Insert, rows[i], None)
    case UpdateRows(pairs) => RowChanged(Update, pairs[i].1, Some(pairs[i].0))
    case DeleteRows(rows) => RowChanged(Delete, rows[i], None)
  }

  function ChangesOf(e: BinlogEvent): (c: seq<RowChanged>) {
    seq(RowCount(e), i requires 0 <= i < RowCount(e) => ChangeAt(e, i))
  }

  /** The row changes of a binlog, in order. */
  function Changes(log: seq<BinlogEvent>): (c: seq<RowChanged>) {
    if log == [] then [] else Changes(log[..|log| - 1]) + ChangesOf(log[|log| - 1])
  }

  function Flatten(passes: seq<seq<BinlogEvent>>): (log: seq<BinlogEvent>) {
    if passes == [] then [] else Flatten(passes[..|passes| - 1]) + passes[|passes| - 1]
  }

  lemma {:induction false} ChangesOfConcat(a: seq<BinlogEvent>, b: seq<BinlogEvent>)
    ensures Changes(a + b) == Changes(a) + Changes(b)
  {
    if b == [] {
      assert a + b == a;
    } else {
      var front, last := b[..|b| - 1], ChangesOf(b[|b| - 1]);
      assert (a + b)[..|a + b| - 1] == a + front;
      ChangesOfConcat(a, front);
      assert Changes(a) + (Changes(front) + last) == (Changes(a) + Changes(front)) + last;
    }
  }

  // ---- The tailer ---------------------------------------------------------

  /** What happens around the tailer: after how many looks at it the shutdown
      flag is found set, which publish, if any, raises, and whether that one takes
      effect all the same. */
  datatype Environment = Environment(shutdownAfter: nat, failingPublish: Option<nat>, landed: bool)

  datatype Ending = Shutdown | PublishFailed | StillRunning

  class CdcWatcher {
    const env: Environment
    var published: seq<RowChanged>
    var looks: nat

    constructor (env: Environment)
      ensures this.env == env && published == [] && looks == 0
    {
      this.env, published, looks := env, [], 0;
    }

    /** With `n` changes in the stream, the failing publish was the last attempt. */
    predicate FailedAt(n: nat) {
      env.failingPublish.Some? && n == env.failingPublish.value + if env.landed then 1 else 0
    }

    /** One look at the shutdown flag; once set it stays set. */
    method ShutdownIsSet() returns (stop: bool)
      modifies this`looks
      ensures looks == old(looks) + 1 && stop == (old(looks) >= env.shutdownAfter)
    {
      stop := looks >= env.shutdownAfter;
      looks := looks + 1;
    }

    /** `_publish_row_changed` */
    method PublishRowChanged(operation: Operation, row: Row, previous: Option<Row>) returns (ok: bool)
      modifies this`published
      ensures ok == (env.failingPublish != Some(|old(published)|))
      ensures published == if ok || env.landed then old(published) + [RowChanged(operation, row, previous)]
                           else old(published)
    {
      ok := env.failingPublish != Some(|published|);
      if ok || env.landed {
        published := published + [RowChanged(operation, row, previous)];
      }
    }

    /** Publish one event row by row. */
    method PublishEvent(e: BinlogEvent) returns (ok: bool)
      modifies this`published
      ensures ok ==> published == old(published) + ChangesOf(e)
      ensures !ok ==> FailedAt(|published|)
      ensures published <= old(published) + ChangesOf(e)
    {
      var i := 0;
      while i < RowCount(e)
        invariant 0 <= i <= |ChangesOf(e)|
        invariant published == old(published) + ChangesOf(e)[..i]
      {
        match e {
          case WriteRows(rows) => ok := PublishRowChanged(Insert, rows[i], None);
          case UpdateRows(pairs) => ok := PublishRowChanged(Update, pairs[i].1, Some(pairs[i].0));
          case DeleteRows(rows) => ok := PublishRowChanged(Delete, rows[i], None);
        }
        if !ok {
          return;
        }
        i := i + 1;
      }
      assert ChangesOf(e)[..i] == ChangesOf(e);
      ok := true;
    }

    /** One polling pass: publish its events, looking at the flag after each. */
    method RunPass(pass: seq<BinlogEvent>) returns (ending: Ending, events: nat)
      modifies this`published, this`looks
      ensures events <= |pass| && looks >= old(looks)
      ensures ending != PublishFailed ==> published == old(published) + Changes(pass[..events])
      ensures ending == PublishFailed ==> FailedAt(|published|)
      ensures published <= old(published) + Changes(pass)
      ensures ending == StillRunning ==> events == |pass| && published == old(published) + Changes(pass)
      ensures looks == old(looks) + events
      ensures old(looks) <= env.shutdownAfter ==>
                if ending == Shutdown then looks == env.shutdownAfter + 1 else looks <= env.shutdownAfter
    {
      events := 0;
      while events < |pass|
        invariant events <= |pass| && looks == old(looks) + events
        invariant old(looks) <= env.shutdownAfter ==> looks <= env.shutdownAfter
        invariant published == old(published) + Changes(pass[..events])
      {
        var ok := PublishEvent(pass[events]);
        OneEventMore(old(published), pass, events);
        if !ok {
          return PublishFailed, events;
        }
        events := events + 1;
        var stop := ShutdownIsSet();
        if stop {
          return Shutdown, events;
        }
      }
      assert pass[..events] == pass;
      ending := StillRunning;
    }

    /** `_run_stream`. `passes[k]` is what the k-th polling pass over the stream
        yields; together they are the log read so far. What was published is the
        log's row changes, in order and from the start, cut off only by a failed
        publish or, between events, by shutdown: it looks at the flag after each event,
        and stops at the first look that finds it set. */
    method RunStream(passes: seq<seq<BinlogEvent>>) returns (ending: Ending, ghost events: nat)
      requires published == [] && looks == 0
      modifies this`published, this`looks
      ensures events <= |Flatten(passes)|
      ensures ending != PublishFailed ==> published == Changes(Flatten(passes)[..events])
      ensures published <= Changes(Flatten(passes))
      ensures ending == PublishFailed ==> FailedAt(|published|)
      ensures ending == StillRunning ==> events == |Flatten(passes)|
      ensures if ending == Shutdown then looks == env.shutdownAfter + 1 else looks <= env.shutdownAfter
      ensures events < looks
    {
      events := 0;
      ghost var done := [];
      var pass := 0;
      var stop := ShutdownIsSet();
      while !stop && pass < |passes|
        invariant 0 <= pass <= |passes|
        invariant done == Flatten(passes[..pass])
        invariant events == |done| && published == Changes(done)
        invariant if stop then looks == env.shutdownAfter + 1 else looks <= env.shutdownAfter
        invariant events < looks
      {
        var n;
        ending, n := RunPass(passes[pass]);
        AfterPass(passes, pass, done, n);
        if ending != StillRunning {
          return ending, events + n;
        }
        events, done := events + n, done + passes[pass];
        pass := pass + 1;
        stop := ShutdownIsSet();
        if !stop {
          // the wait between passes; the loop then looks again
          stop := ShutdownIsSet();
        }
      }
      AllPassesSoFar(passes, pass, done);
      ending := if stop then Shutdown else StillRunning;
    }
  }

  lemma AfterPass(passes: seq<seq<BinlogEvent>>, k: nat, done: seq<BinlogEvent>, n: nat)
    requires k < |passes| && done == Flatten(passes[..k]) && n <= |passes[k]|
    ensures done + passes[k] == Flatten(passes[..k + 1])
    ensures |done| + n <= |Flatten(passes)|
    ensures Changes(done) + Changes(passes[k][..n]) == Changes(Flatten(passes)[..|done| + n])
    ensures Changes(done) + Changes(passes[k]) <= Changes(Flatten(passes))
    ensures Changes(done + passes[k]) == Changes(done) + Changes(passes[k])
  {
    var rest := PassInLog(passes, k);
    PublishedSoFar(done, passes[k], rest, Flatten(passes), n);
  }

  lemma AllPassesSoFar(passes: seq<seq<BinlogEvent>>, k: nat, done: seq<BinlogEvent>)
    requires k <= |passes| && done == Flatten(passes[..k])
    ensures |done| <= |Flatten(passes)| && Flatten(passes)[..|done|] == done
    ensures Changes(done) <= Changes(Flatten(passes))
    ensures k == |passes| ==> done == Flatten(passes)
  {
    FlattenPrefix(passes, k);
    ChangesPrefix(Flatten(passes), |done|);
    assert k == |passes| ==> passes[..k] == passes;
  }

  /** After `n` events of a pass, on top of all passes before it. */
  lemma PublishedSoFar(done: seq<BinlogEvent>, pass: seq<BinlogEvent>, rest: seq<BinlogEvent>, log: seq<BinlogEvent>,
                       n: nat)
    requires n <= |pass| && log == done + pass + rest
    ensures |done| + n <= |log|
    ensures Changes(done) + Changes(pass[..n]) == Changes(log[..|done| + n])
    ensures Changes(done) + Changes(pass) <= Changes(log)
    ensures Changes(done + pass) == Changes(done) + Changes(pass)
  {
    var some := pass[..n];
    assert log[..|done| + n] == done + some;
    ChangesOfConcat(done, some);
    ChangesOfConcat(done, pass);
    ChangesOfConcat(done + pass, rest);
  }

  lemma ChangesPrefix(log: seq<BinlogEvent>, n: nat)
    requires n <= |log|
    ensures Changes(log[..n]) <= Changes(log)
  {
    assert log == log[..n] + log[n..];
    ChangesOfConcat(log[..n], log[n..]);
  }

  lemma OneEventMore(done: seq<RowChanged>, log: seq<BinlogEvent>, n: nat)
    requires n < |log|
    ensures done + Changes(log[..n]) + ChangesOf(log[n]) == done + Changes(log[..n + 1])
    ensures done + Changes(log[..n + 1]) <= done + Changes(log)
  {
    OneLonger(log, n);
    LastEvent(log[..n + 1], log[..n], log[n]);
    ChangesPrefix(log, n + 1);
    InStep(done, Changes(log[..n]), ChangesOf(log[n]), Changes(log));
  }

  lemma LastEvent(longer: seq<BinlogEvent>, log: seq<BinlogEvent>, e: BinlogEvent)
    requires longer == log + [e]
    ensures Changes(longer) == Changes(log) + ChangesOf(e)
  {
    assert longer[..|longer| - 1] == log;
  }

  lemma InStep(done: seq<RowChanged>, a: seq<RowChanged>, b: seq<RowChanged>, all: seq<RowChanged>)
    requires a + b <= all
    ensures done + a + b == done + (a + b) <= done + all
  {
  }

  lemma {:induction false} FlattenPrefix(passes: seq<seq<BinlogEvent>>, k: nat)
    requires k <= |passes|
    ensures |Flatten(passes[..k])| <= |Flatten(passes)|
    ensures Flatten(passes)[..|Flatten(passes[..k])|] == Flatten(passes[..k])
  {
    if k < |passes| {
      var front := passes[..|passes| - 1];
      assert front[..k] == passes[..k];
      FlattenPrefix(front, k);
    } else {
      assert passes[..k] == passes;
    }
  }

  /** Where the k-th pass lies in the whole log. */
  lemma PassInLog(passes: seq<seq<BinlogEvent>>, k: nat) returns (rest: seq<BinlogEvent>)
    requires k < |passes|
    ensures Flatten(passes[..k + 1]) == Flatten(passes[..k]) + passes[k]
    ensures Flatten(passes) == Flatten(passes[..k]) + passes[k] + rest
  {
    assert passes[..k + 1][..k] == passes[..k];
    FlattenPrefix(passes, k + 1);
    rest := Flatten(passes)[|Flatten(passes[..k + 1])|..];
  }
}
