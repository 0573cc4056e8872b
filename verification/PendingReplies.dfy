/** What registering, resolving and giving up do to the correlation map and its
    futures (adapters/rest_api_service/rest_api_service/pending_replies.py). */
module Replies {
  import opened Basics

  /** A fetched OrderPersisted event: its place in the stream, its correlation id
      and the order it names. */
  datatype Reply = Reply(seqNo: nat, correlationId: Option<string>, orderId: string)

  datatype FutureState = Pending | Cancelled | Resolved(reply: Reply)

  /** A future, with the request that awaits it and the id it was registered under. */
  datatype Future = Future(owner: nat, eventId: string, state: FutureState)

  /** The correlation map and all futures ever made, in order of creation. */
  datatype Correlations = Correlations(pending: map<string, nat>, futures: seq<Future>)

  const NO_REPLIES := Correlations(map[], [])

  /** A new future under `eventId`; an entry already there is displaced. */
  function Register(t: Correlations, owner: nat, eventId: string): (r: Correlations) {
    Correlations(t.pending[eventId := |t.futures|], t.futures + [Future(owner, eventId, Pending)])
  }

  /** Whatever entry `eventId` has is removed, its own or another's. */
  function Unregister(t: Correlations, eventId: string): (r: Correlations) {
    t.(pending := t.pending - {eventId})
  }

  /** The future a reply would complete. */
  function Target(t: Correlations, reply: Reply): (f: Option<nat>) {
    if reply.correlationId.None? || reply.correlationId.value !in t.pending then None
    else
      var f := t.pending[reply.correlationId.value];
      if f < |t.futures| && t.futures[f].state.Pending? then Some(f) else None
  }

  function Resolve(t: Correlations, reply: Reply): (r: Correlations) {
    match Target(t, reply)
    case None => t
    case Some(f) =>
      if f < |t.futures| then t.(futures := t.futures[f := t.futures[f].(state := Resolved(reply))]) else t
  }

  /** The deadline of the request passes: a future still pending is cancelled. */
  function Expire(t: Correlations, f: nat): (r: Correlations) {
    if f < |t.futures| && t.futures[f].state.Pending?
    then t.(futures := t.futures[f := t.futures[f].(state := Cancelled)])
    else t
  }

  function ResolveAll(t: Correlations, replies: seq<Reply>): (r: Correlations) {
    if replies == [] then t else Resolve(ResolveAll(t, replies[..|replies| - 1]), replies[|replies| - 1])
  }

  // ---- Futures are completed at most once ---------------------------------

  /** Completed or cancelled futures keep their state through everything. */
  lemma DoneIsFinal(t: Correlations, f: nat, owner: nat, eventId: string, reply: Reply, other: nat)
    requires f < |t.futures| && !t.futures[f].state.Pending?
    ensures Register(t, owner, eventId).futures[f] == t.futures[f]
    ensures Unregister(t, eventId).futures[f] == t.futures[f]
    ensures |Resolve(t, reply).futures| == |t.futures| && Resolve(t, reply).futures[f] == t.futures[f]
    ensures |Expire(t, other).futures| == |t.futures| && Expire(t, other).futures[f] == t.futures[f]
  {
  }

  /** The first matching reply of a batch wins; all later ones change nothing. */
  lemma {:induction false} FirstReplyWins(t: Correlations, replies: seq<Reply>, id: string, i: nat)
    requires forall k :: k in t.pending ==> t.pending[k] < |t.futures|
    requires forall k, l :: k in t.pending && l in t.pending && k != l ==> t.pending[k] != t.pending[l]
    requires id in t.pending && t.futures[t.pending[id]].state.Pending?
    requires i < |replies| && replies[i].correlationId == Some(id)
    requires forall j :: 0 <= j < i ==> replies[j].correlationId != Some(id)
    ensures ResolveAll(t, replies).pending == t.pending && |ResolveAll(t, replies).futures| == |t.futures|
    ensures ResolveAll(t, replies).futures[t.pending[id]].state == Resolved(replies[i])
  {
    var front := replies[..|replies| - 1];
    if i < |front| {
      FirstReplyWins(t, front, id, i);
    } else {
      UnmatchedStays(t, front, id);
    }
  }

  lemma {:induction false} UnmatchedStays(t: Correlations, replies: seq<Reply>, id: string)
    requires forall k :: k in t.pending ==> t.pending[k] < |t.futures|
    requires forall k, l :: k in t.pending && l in t.pending && k != l ==> t.pending[k] != t.pending[l]
    requires id in t.pending
    requires forall j :: 0 <= j < |replies| ==> replies[j].correlationId != Some(id)
    ensures ResolveAll(t, replies).pending == t.pending && |ResolveAll(t, replies).futures| == |t.futures|
    ensures ResolveAll(t, replies).futures[t.pending[id]] == t.futures[t.pending[id]]
  {
    if replies != [] {
      UnmatchedStays(t, replies[..|replies| - 1], id);
    }
  }
}

/** Correlation of waiting requests with replies, as the service runs it
    (adapters/rest_api_service/rest_api_service/pending_replies.py). */
module PendingReplies {
  import opened Basics
  import opened Replies

  class PendingReplies {
    var pending: map<string, nat>
    var futures: seq<Future>

    function View(): (t: Correlations)
      reads this
    {
      Correlations(pending, futures)
    }

    /** Entries refer to futures that exist. */
    ghost predicate Valid()
      reads this
    {
      forall id :: id in pending ==> pending[id] < |futures|
    }

    constructor ()
      ensures Valid() && View() == NO_REPLIES
    {
      pending, futures := map[], [];
    }

    method Register(owner: nat, correlationId: string) returns (future: nat)
      requires Valid()
      modifies this
      ensures Valid() && future == |old(futures)|
      ensures View() == Replies.Register(old(View()), owner, correlationId)
    {
      future := |futures|;
      futures := futures + [Future(owner, correlationId, Pending)];
      pending := pending[correlationId := future];
    }

    method Unregister(correlationId: string)
      requires Valid()
      modifies this`pending
      ensures Valid() && View() == Replies.Unregister(old(View()), correlationId)
    {
      pending := pending - {correlationId};
    }

    /** True if a pending future was completed; a done future is never completed
        again. */
    method Resolve(reply: Reply) returns (matched: bool)
      requires Valid()
      modifies this`futures
      ensures Valid() && View() == Replies.Resolve(old(View()), reply)
      ensures matched == Target(old(View()), reply).Some?
    {
      if reply.correlationId.None? {
        return false;
      }
      if reply.correlationId.value !in pending {
        return false;
      }
      var f := pending[reply.correlationId.value];
      if !futures[f].state.Pending? {
        return false;
      }
      futures := futures[f := futures[f].(state := Resolved(reply))];
      matched := true;
    }

    /** One batch of the watcher: each reply is resolved and then acknowledged, matched or
        not. `failingAck` is the number of acks after which one raises, if any does. */
    method ResolveBatch(batch: seq<Reply>, failingAck: Option<nat>) returns (acked: nat, raised: bool)
      requires Valid()
      modifies this`futures
      ensures Valid() && acked <= |batch|
      ensures !raised ==> acked == |batch| && View() == ResolveAll(old(View()), batch)
      ensures raised ==> failingAck == Some(acked) && acked < |batch|
                         && View() == ResolveAll(old(View()), batch[..acked + 1])
      ensures !raised ==> failingAck.None? || failingAck.value >= acked
    {
      acked := 0;
      while acked < |batch|
        invariant 0 <= acked <= |batch| && Valid()
        invariant failingAck.None? || failingAck.value >= acked
        invariant pending == old(pending) && View() == ResolveAll(old(View()), batch[..acked])
      {
        var matched := Resolve(batch[acked]);
        assert batch[..acked + 1][..acked] == batch[..acked];
        if failingAck == Some(acked) {
          return acked, true;
        }
        acked := acked + 1;
      }
      assert batch[..|batch|] == batch;
      raised := false;
    }

    /** `run_reply_watcher` over what its fetches yield (nothing for one that raises)
        until shutdown is seen. An exception out of a fetch or an ack ends it. */
    method RunReplyWatcher(fetches: seq<Option<seq<Reply>>>, shutdownAfter: nat, failingAck: Option<nat>)
      returns (resolved: seq<Reply>, acked: nat, raised: bool, ghost n: nat)
      requires Valid()
      modifies this`futures
      ensures Valid() && View() == ResolveAll(old(View()), resolved)
      ensures n <= |fetches| && n <= shutdownAfter
      ensures !raised ==>
                (n == |fetches| || n == shutdownAfter) && acked == |resolved| && resolved == Concat(fetches[..n])
      ensures raised ==>
                || (n < |fetches| && fetches[n].None? && acked == |resolved| && resolved == Concat(fetches[..n]))
                || (failingAck == Some(acked) && acked + 1 == |resolved| && resolved <= Concat(fetches[..n]))
    {
      resolved, acked, raised, n := [], 0, false, 0;
      var next := 0;
      while next < |fetches| && next < shutdownAfter
        invariant 0 <= next <= |fetches| && next <= shutdownAfter && n == next && Valid()
        invariant acked == |resolved| && resolved == Concat(fetches[..next])
        invariant failingAck.None? || failingAck.value >= acked
        invariant pending == old(pending) && View() == ResolveAll(old(View()), resolved)
      {
        if fetches[next].None? {
          raised := true;
          return;
        }
        var batch := fetches[next].value;
        ghost var before := View();
        var some;
        some, raised := ResolveBatch(batch, if failingAck.Some? then Some(failingAck.value - acked) else None);
        assert fetches[..next + 1][..next] == fetches[..next];
        ResolveInParts(old(View()), resolved, if raised then batch[..some + 1] else batch);
        resolved := resolved + if raised then batch[..some + 1] else batch;
        acked := acked + some;
        next, n := next + 1, next + 1;
        if raised {
          return;
        }
      }
    }
  }

  lemma {:induction false} ResolveInParts(t: Correlations, first: seq<Reply>, second: seq<Reply>)
    ensures ResolveAll(t, first + second) == ResolveAll(ResolveAll(t, first), second)
  {
    if second == [] {
      assert first + second == first;
    } else {
      assert (first + second)[..|first + second| - 1] == first + second[..|second| - 1];
      ResolveInParts(t, first, second[..|second| - 1]);
    }
  }

  /** The replies of the fetches that yield any. */
  function Concat(fetches: seq<Option<seq<Reply>>>): (all: seq<Reply>) {
    if fetches == [] then []
    else Concat(fetches[..|fetches| - 1]) + match fetches[|fetches| - 1] case Some(batch) => batch case None => []
  }
}
