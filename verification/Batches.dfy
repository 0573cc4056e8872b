/** One fetched batch, handled in order by the `run_once` of an adapter: an exception
    ends it and leaves the rest of the batch unsettled. */
module Batches {

  /** What one handling makes of the state, what it does on the bus, and whether an
      exception gets out of it. */
  datatype Handling<S, E> = Handling(state: S, effects: seq<E>, raised: bool)

  datatype Progress<S, E> = Progress(state: S, effects: seq<E>, handled: nat, raised: bool)

  function Batch<S, D, E>(handle: (S, D) -> Handling<S, E>, s: S, batch: seq<D>): (p: Progress<S, E>) {
    if batch == [] then Progress(s, [], 0, false)
    else
      var p := Batch(handle, s, batch[..|batch| - 1]);
      if p.raised then p
      else
        var h := handle(p.state, batch[|batch| - 1]);
        Progress(h.state, p.effects + h.effects, p.handled + 1, h.raised)
  }

  /** Handlings one after the other, come what may. */
  function Run<S, D, E>(handle: (S, D) -> Handling<S, E>, s: S, run: seq<D>): (r: S) {
    if run == [] then s else handle(Run(handle, s, run[..|run| - 1]), run[|run| - 1]).state
  }

  function Effects<S, D, E>(handle: (S, D) -> Handling<S, E>, s: S, run: seq<D>): (e: seq<E>) {
    if run == [] then []
    else
      var n := |run| - 1;
      Effects(handle, s, run[..n]) + handle(Run(handle, s, run[..n]), run[n]).effects
  }

  /** An exception gets out of handling `i`. */
  predicate RaisesAt<S, D, E>(handle: (S, D) -> Handling<S, E>, s: S, run: seq<D>, i: nat)
    requires i < |run|
  {
    handle(Run(handle, s, run[..i]), run[i]).raised
  }

  lemma {:induction false} RaisedIsFinal<S, D, E>(handle: (S, D) -> Handling<S, E>, s: S, batch: seq<D>, n: nat)
    requires n <= |batch| && Batch(handle, s, batch[..n]).raised
    ensures Batch(handle, s, batch) == Batch(handle, s, batch[..n])
  {
    if n < |batch| {
      var front := batch[..|batch| - 1];
      assert front[..n] == batch[..n];
      RaisedIsFinal(handle, s, front, n);
    } else {
      assert batch[..n] == batch;
    }
  }

  lemma OneLonger<D>(batch: seq<D>, n: nat)
    requires n < |batch|
    ensures batch[..n + 1] == batch[..n] + [batch[n]]
  {
  }

  /** Nothing more happens after an exception, or at the end. */
  lemma NothingMore<S, D, E>(handle: (S, D) -> Handling<S, E>, s: S, batch: seq<D>, n: nat)
    requires n <= |batch| && (n == |batch| || Batch(handle, s, batch[..n]).raised)
    ensures Batch(handle, s, batch) == Batch(handle, s, batch[..n])
  {
    if n == |batch| {
      assert batch[..n] == batch;
    } else {
      RaisedIsFinal(handle, s, batch, n);
    }
  }

  /** A batch is a run of its handled deliveries. */
  lemma {:induction false} BatchIsRun<S, D, E>(handle: (S, D) -> Handling<S, E>, s: S, batch: seq<D>)
    ensures var p := Batch(handle, s, batch);
            && p.handled <= |batch|
            && p.state == Run(handle, s, batch[..p.handled]) && p.effects == Effects(handle, s, batch[..p.handled])
            && (p.raised ==> p.handled > 0) && (!p.raised ==> p.handled == |batch|)
  {
    if batch != [] {
      var n := |batch| - 1;
      var front := batch[..n];
      BatchIsRun(handle, s, front);
      var handled := Batch(handle, s, front).handled;
      assert front[..handled] == batch[..handled];
      assert front[..n] == front && batch[..n + 1] == batch;
    }
  }

  /** They are all the deliveries, or those up to the first that raises. */
  lemma {:induction false} FirstExceptionEndsTheBatch<S, D, E>(handle: (S, D) -> Handling<S, E>, s: S, batch: seq<D>,
                                                                i: nat)
    requires i < Batch(handle, s, batch).handled <= |batch|
    ensures RaisesAt(handle, s, batch, i) <==>
              Batch(handle, s, batch).raised && i == Batch(handle, s, batch).handled - 1
  {
    var n := |batch| - 1;
    var front := batch[..n];
    BatchIsRun(handle, s, front);
    if i < Batch(handle, s, front).handled {
      FirstExceptionEndsTheBatch(handle, s, front, i);
      assert front[..i] == batch[..i] && front[i] == batch[i];
    } else {
      assert front[..n] == front;
    }
  }
}
