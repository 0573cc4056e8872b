/** The short memory of the writer's own files
    (adapters/file_storage_adapter/file_storage_adapter/recent_writes.py): marks
    are pruned when they are looked at, and pruning must never be visible. */
module RecentWrites {

  datatype Access<P> = Mark(path: P, now: real) | Ask(path: P, now: real)

  /** Access `i` is the latest mark of `path`. */
  ghost predicate LatestMark<P>(history: seq<Access<P>>, path: P, i: int) {
    && 0 <= i < |history| && history[i].Mark? && history[i].path == path
    && (forall j :: i < j < |history| ==> !(history[j].Mark? && history[j].path == path))
  }

  /** The simple predicate: the latest mark of `path` is no older than the ttl. */
  ghost predicate Recent<P>(history: seq<Access<P>>, path: P, now: real, ttl: real) {
    exists i :: LatestMark(history, path, i) && history[i].now >= now - ttl
  }

  /** When each path was last marked. */
  function LastMarks<P(==)>(history: seq<Access<P>>): (marks: map<P, real>) {
    if history == [] then map[]
    else
      match history[|history| - 1]
      case Mark(p, now) => LastMarks(history[..|history| - 1])[p := now]
      case Ask(_, _) => LastMarks(history[..|history| - 1])
  }

  /** The clock has not gone back since the last access. */
  predicate ClockAt<P>(history: seq<Access<P>>, now: real) {
    history == [] || history[|history| - 1].now <= now
  }

  lemma {:induction false} LastMarksAreLatest<P>(history: seq<Access<P>>, path: P)
    ensures path in LastMarks(history) <==> exists i :: LatestMark(history, path, i)
    ensures forall i :: LatestMark(history, path, i) ==> LastMarks(history)[path] == history[i].now
  {
    if history != [] {
      var n := |history| - 1;
      var front := history[..n];
      LastMarksAreLatest(front, path);
      if history[n].Mark? && history[n].path == path {
        assert LatestMark(history, path, n);
      } else {
        forall i ensures LatestMark(history, path, i) <==> LatestMark(front, path, i) {
          if LatestMark(front, path, i) {
            assert forall j :: i < j < n ==> front[j] == history[j];
          }
          if LatestMark(history, path, i) {
            assert forall j :: i < j < n ==> front[j] == history[j];
          }
        }
      }
    }
  }

  class RecentWrites<P(==)> {
    const ttl: real
    var markedAt: map<P, real>
    ghost var history: seq<Access<P>>

    /** The table holds last marks only; a last mark it lacks had outlived the ttl
        by the last clock reading. */
    ghost predicate Valid()
      reads this
    {
      && (forall p :: p in markedAt ==> p in LastMarks(history) && markedAt[p] == LastMarks(history)[p])
      && (forall p :: p in LastMarks(history) && p !in markedAt ==>
            history != [] && LastMarks(history)[p] < history[|history| - 1].now - ttl)
    }

    constructor (ttl: real)
      ensures Valid() && this.ttl == ttl && history == []
    {
      this.ttl, markedAt, history := ttl, map[], [];
    }

    method Mark(path: P, now: real)
      requires Valid() && ClockAt(history, now)
      modifies this
      ensures Valid() && history == old(history) + [Access.Mark(path, now)]
    {
      markedAt := markedAt[path := now];
      history := history + [Access.Mark(path, now)];
      assert history[..|history| - 1] == old(history);
    }

    /** The answer depends on the marks alone, not on what was pruned before. */
    method WasRecent(path: P, now: real) returns (recent: bool)
      requires Valid() && ClockAt(history, now)
      modifies this
      ensures Valid() && history == old(history) + [Ask(path, now)]
      ensures recent <==> Recent(old(history), path, now, ttl)
    {
      Prune(now);
      recent := path in markedAt;
      LastMarksAreLatest(history, path);
      history := history + [Ask(path, now)];
      assert history[..|history| - 1] == old(history);
    }

    /** `_prune`: afterwards the table holds exactly the marks within the ttl. */
    method Prune(now: real)
      requires Valid() && ClockAt(history, now)
      modifies this`markedAt
      ensures markedAt == map p | p in LastMarks(history) && LastMarks(history)[p] >= now - ttl :: LastMarks(history)[p]
    {
      var cutoff := now - ttl;
      var expired := set p | p in markedAt && markedAt[p] < cutoff;
      ghost var kept := map p | p in markedAt && markedAt[p] >= cutoff :: markedAt[p];
      while expired != {}
        invariant expired <= markedAt.Keys && expired !! kept.Keys
        invariant markedAt.Keys == expired + kept.Keys
        invariant forall p :: p in kept ==> markedAt[p] == kept[p]
        decreases expired
      {
        var p :| p in expired;
        markedAt := markedAt - {p};
        expired := expired - {p};
      }
      assert markedAt == kept;
    }
  }

  /** Marking makes a path recent for exactly the ttl. */
  lemma MarkedForTheTtl<P>(history: seq<Access<P>>, path: P, marked: real, now: real, ttl: real)
    ensures Recent(history + [Mark(path, marked)], path, now, ttl) <==> now <= marked + ttl
  {
    var history' := history + [Mark(path, marked)];
    assert history'[..|history|] == history;
    assert LatestMark(history', path, |history|);
    LastMarksAreLatest(history', path);
  }
}
