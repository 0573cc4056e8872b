/** What requests are told, and how often messages are delivered, over whole runs of the
    order path. */
module OrderAnswers {
  import opened Basics
  import opened EventStream
  import opened OrderPayloads
  import opened Replies
  import opened OrderSystem
  import opened OrderSafety
  import Delivery

  // ---- What the publish of a request leads to -----------------------------

  /** Message `k` of the stream is the one stored for the request's publish: the message it
      stored itself, or else one under its message id that is younger than the window. */
  ghost predicate KeptFor(s: State, s': State, window: nat, a: Action, k: nat)
    requires a.Publish?
  {
    && k < |s'.stream.log|
    && (if |s'.stream.log| == |s.stream.log|
        then a.key.Some? && LatestUnder(s.stream, a.key.value, k) && a.now - s.stream.log[k].time < window
        else k == |s.stream.log| && s'.stream.log[k].data == OrderCreated(a.id, a.body, a.reader))
  }

  /** A request whose publish returned goes on under the event id of the message kept for it:
      it waits for a reply, or is answered 202. One whose publish raised is answered 500, and
      if the call did not reach the server, nothing is stored. */
  lemma PublishDecides(s: State, window: nat, a: Action) returns (k: nat)
    requires a.Publish? && Inv(s) && Indexed(s.stream) && Step(s, window, a).Some?
    ensures var s' := Step(s, window, a).value;
            && a.r !in s.requests && s'.requests.Keys == s.requests.Keys + {a.r}
            && (a.outcome == Done ==>
                  && KeptFor(s, s', window, a, k)
                  && s'.requests[a.r] == (if a.wait then Sent(s'.stream.log[k].data.eventId)
                                          else Answered(s'.stream.log[k].data.eventId, Accepted202)))
            && (a.outcome != Done ==> s'.requests[a.r] == Answered(a.id, Error500))
            && (a.outcome == Failed ==> s'.stream == s.stream)
  {
    k := Append(s.stream, window, Call(a.now, ORDER_CREATED, a.key, OrderCreated(a.id, a.body, a.reader))).1.seqNo;
  }

  /** The stream's dedup table is in step with its log in every reachable state. */
  lemma {:induction false} RunKeepsIndex(s: State, window: nat, actions: seq<Action>)
    requires Indexed(s.stream) && Exec(s, window, actions).Some?
    ensures Indexed(Exec(s, window, actions).value.stream)
  {
    if actions != [] {
      RunKeepsIndex(s, window, actions[..|actions| - 1]);
      StepKeepsIndex(Exec(s, window, actions[..|actions| - 1]).value, window, actions[|actions| - 1]);
    }
  }

  lemma StepKeepsIndex(s: State, window: nat, a: Action)
    requires Indexed(s.stream) && Step(s, window, a).Some?
    ensures Indexed(Step(s, window, a).value.stream)
  {
    match a {
      case Publish(_, _, _, _, _, _, _, _) =>
        AppendKeepsIndex(s.stream, window, Call(a.now, ORDER_CREATED, a.key, OrderCreated(a.id, a.body, a.reader)));
      case PublishOther(_, _, _, _) =>
        AppendKeepsIndex(s.stream, window, Call(a.now, a.subject, a.key, OtherEvent(a.id)));
      case HandlerPublish(_, _, _, _) =>
        if !a.outcome.Failed? {
          AppendKeepsIndex(s.stream, window, Call(a.now, ORDER_PERSISTED, None, ReportOf(s, a)));
        }
      case HandlerUpsert(outcome, raised) => UpsertLeaves(s, outcome, raised);
      case _ =>
    }
  }

  /** The call `c` reached the stream: its message is at the end, unless one under its id
      is younger than the window. */
  ghost predicate Received(before: Stream<Message>, after: Stream<Message>, window: nat, c: Call<Message>) {
    if Recent(before, window, c) then after == before
    else after.log == before.log + [Stored(c.subject, c.msgId, c.now, c.data)] && after.first == before.first
  }

  /** What each step stores: a request its order, under its message id if it has one; other
      publishers theirs; the handler its report, under the id of the order's event and never
      under a message id. No other step changes the stream. */
  lemma WhatIsStored(s: State, window: nat, a: Action)
    requires Inv(s) && Indexed(s.stream) && Step(s, window, a).Some?
    ensures var before, after := s.stream, Step(s, window, a).value.stream;
            match a
            case Publish(_, body, key, _, id, now, reader, outcome) =>
              if outcome.Failed? then after == before
              else Received(before, after, window, Call(now, ORDER_CREATED, key, OrderCreated(id, body, reader)))
            case PublishOther(subject, id, key, now) =>
              Received(before, after, window, Call(now, subject, key, OtherEvent(id)))
            case HandlerPublish(id, now, readable, outcome) =>
              && s.job.Some? && s.job.value.phase.Upserted? && IsOrder(s, s.job.value.seqNo)
              && if outcome.Failed? then after == before
                 else Received(before, after, window,
                               Call(now, ORDER_PERSISTED, None,
                                    OrderPersisted(id, Some(before.log[s.job.value.seqNo].data.eventId),
                                                   s.job.value.phase.order.orderId, readable)))
            case _ => after == before
  {
    match a
    case Publish(_, _, _, _, _, _, _, _) => OrderIsStored(s, window, a);
    case PublishOther(_, _, _, _) => OtherIsStored(s, window, a);
    case HandlerPublish(_, _, _, _) => ReportIsStored(s, window, a);
    case HandlerUpsert(outcome, raised) => UpsertLeaves(s, outcome, raised);
    case _ =>
  }

  lemma OrderIsStored(s: State, window: nat, a: Action)
    requires a.Publish? && Indexed(s.stream) && DoPublish(s, window, a).Some?
    ensures var after := DoPublish(s, window, a).value.stream;
            if a.outcome.Failed? then after == s.stream
            else Received(s.stream, after, window,
                          Call(a.now, ORDER_CREATED, a.key, OrderCreated(a.id, a.body, a.reader)))
  {
    AppendIff(s.stream, window, Call(a.now, ORDER_CREATED, a.key, OrderCreated(a.id, a.body, a.reader)));
  }

  lemma OtherIsStored(s: State, window: nat, a: Action)
    requires a.PublishOther? && Indexed(s.stream) && DoPublishOther(s, window, a).Some?
    ensures Received(s.stream, DoPublishOther(s, window, a).value.stream, window,
                     Call(a.now, a.subject, a.key, OtherEvent(a.id)))
  {
    AppendIff(s.stream, window, Call(a.now, a.subject, a.key, OtherEvent(a.id)));
  }

  lemma ReportIsStored(s: State, window: nat, a: Action)
    requires a.HandlerPublish? && Inv(s) && Indexed(s.stream) && DoHandlerPublish(s, window, a).Some?
    ensures s.job.Some? && s.job.value.phase.Upserted? && IsOrder(s, s.job.value.seqNo)
    ensures var after := DoHandlerPublish(s, window, a).value.stream;
            if a.outcome.Failed? then after == s.stream
            else Received(s.stream, after, window,
                          Call(a.now, ORDER_PERSISTED, None,
                               OrderPersisted(a.id, Some(s.stream.log[s.job.value.seqNo].data.eventId),
                                              s.job.value.phase.order.orderId, a.readable)))
  {
    AppendIff(s.stream, window,
              Call(a.now, ORDER_PERSISTED, None,
                   OrderPersisted(a.id, Some(s.stream.log[s.job.value.seqNo].data.eventId),
                                  s.job.value.phase.order.orderId, a.readable)));
  }

  /** In every run: a request that asks for no wait is answered at once, 202 under the id of
      the message kept for it if and only if its publish returned, and 500 otherwise; one
      that asks to wait is not answered, unless with 500. */
  lemma AnsweredAtOnceIff(window: nat, actions: seq<Action>, a: Action) returns (k: nat)
    requires Exec(Init(), window, actions).Some? && a.Publish?
    requires Step(Exec(Init(), window, actions).value, window, a).Some?
    ensures var s := Exec(Init(), window, actions).value;
            var s' := Step(s, window, a).value;
            var log := s'.stream.log;
            && (a.outcome == Done ==> KeptFor(s, s', window, a, k))
            && (!a.wait && a.outcome == Done ==> s'.requests[a.r] == Answered(log[k].data.eventId, Accepted202))
            && (a.outcome != Done ==> s'.requests[a.r] == Answered(a.id, Error500))
            && (a.wait && a.outcome == Done ==> s'.requests[a.r] == Sent(log[k].data.eventId))
  {
    InitIsOk();
    RunKeepsInv(Init(), window, actions);
    RunKeepsIndex(Init(), window, actions);
    k := PublishDecides(Exec(Init(), window, actions).value, window, a);
  }

  /** Whoever was told an event id, by a 200, 202 or 504, can find its event in the stream. */
  lemma AnsweredMeansStored(window: nat, actions: seq<Action>, r: nat)
    requires Exec(Init(), window, actions).Some? && r in Exec(Init(), window, actions).value.requests
    requires Exec(Init(), window, actions).value.requests[r].Answered?
    requires Exec(Init(), window, actions).value.requests[r].status != Error500
    ensures var s := Exec(Init(), window, actions).value; HasEvent(s.stream.log, s.requests[r].eventId)
  {
    InitIsOk();
    RunKeepsInv(Init(), window, actions);
    var s := Exec(Init(), window, actions).value;
    assert RequestOk(s, r, s.requests[r]);
  }

  /** What each step makes of a request: only its own registration, deadline and wake-up
      change it, and an answer is never changed. */
  lemma StepOfARequest(s: State, window: nat, a: Action, r: nat)
    requires Step(s, window, a).Some? && r in s.requests
    ensures r in Step(s, window, a).value.requests
    ensures var q, q' := s.requests[r], Step(s, window, a).value.requests[r];
            && (q.Sent? && a == Register(r) ==> q' == Waiting(q.eventId, |s.replies.futures|, false))
            && (q.Waiting? && a == Timer(r) ==> q' == q.(timedOut := true))
            && (q.Waiting? && a == Resume(r) ==> q'.Answered? && q'.eventId == q.eventId)
            && (a != Register(r) && a != Timer(r) && a != Resume(r) ==> q' == q)
            && (q.Answered? ==> q' == q)
  {
    if !TouchesReplies(a) {
      OtherStepsLeaveReplies(s, window, a);
    }
  }

  lemma {:induction false} AnswerIsFinal(s: State, window: nat, actions: seq<Action>, r: nat)
    requires Exec(s, window, actions).Some? && r in s.requests && s.requests[r].Answered?
    ensures r in Exec(s, window, actions).value.requests
    ensures Exec(s, window, actions).value.requests[r] == s.requests[r]
  {
    if actions != [] {
      var front := actions[..|actions| - 1];
      AnswerIsFinal(s, window, front, r);
      StepOfARequest(Exec(s, window, front).value, window, actions[|actions| - 1], r);
    }
  }

  /** A deadline that fires before the reply closes the future: no later reply gets in. */
  lemma DeadlineCloses(s: State, window: nat, r: nat, actions: seq<Action>)
    requires Inv(s) && r in s.requests && s.requests[r].Waiting? && !s.requests[r].timedOut
    requires Exec(DoTimer(s, r).value, window, actions).Some?
    requires s.requests[r].future < |s.replies.futures| && s.replies.futures[s.requests[r].future].state.Pending?
    ensures var f, s' := s.requests[r].future, Exec(DoTimer(s, r).value, window, actions).value;
            f < |s'.replies.futures| && s'.replies.futures[f].state == Cancelled
  {
    DoneStaysDone(DoTimer(s, r).value, window, actions, s.requests[r].future);
  }

  // ---- The watcher's batches ----------------------------------------------

  /** The replies fetched in a run, in order. */
  function Fetched(s: State, window: nat, actions: seq<Action>): (replies: seq<Reply>)
    requires Exec(s, window, actions).Some?
    decreases |actions|
  {
    if actions == [] then []
    else
      var front, a := actions[..|actions| - 1], actions[|actions| - 1];
      Fetched(s, window, front)
      + if a.WatcherFetch? then TakenFrom(Exec(s, window, front).value, a.batch) else []
  }

  function TakenFrom(s: State, batch: seq<nat>): (replies: seq<Reply>) {
    if Taken(s, batch).Some? then Taken(s, batch).value.0 else []
  }

  /** The replies resolved in a run, in order. */
  function Consumed(s: State, window: nat, actions: seq<Action>): (replies: seq<Reply>)
    requires Exec(s, window, actions).Some?
    decreases |actions|
  {
    if actions == [] then []
    else
      var front, a := actions[..|actions| - 1], actions[|actions| - 1];
      Consumed(s, window, front)
      + if a.WatcherResolve? then FirstOf(Exec(s, window, front).value.inbox) else []
  }

  function FirstOf(inbox: seq<Reply>): (first: seq<Reply>) {
    if inbox == [] then [] else inbox[..1]
  }

  /** A watcher that lives resolves every reply it fetches, each once and in order; only its
      current batch is still to come. */
  lemma {:induction false} EveryFetchedReplyIsConsumed(window: nat, actions: seq<Action>)
    requires Exec(Init(), window, actions).Some? && forall i :: 0 <= i < |actions| ==> actions[i] != WatcherDies
    ensures Fetched(Init(), window, actions)
         == Consumed(Init(), window, actions) + Exec(Init(), window, actions).value.inbox
  {
    if actions != [] {
      var front, a := actions[..|actions| - 1], actions[|actions| - 1];
      EveryFetchedReplyIsConsumed(window, front);
      InboxAfter(Exec(Init(), window, front).value, window, a);
      Shift(Fetched(Init(), window, front), Consumed(Init(), window, front), Exec(Init(), window, front).value.inbox,
            Exec(Init(), window, actions).value.inbox);
    }
  }

  /** The watcher ends once, by an exception, with its batch; nothing brings it back. */
  lemma OnlyAnExceptionEndsTheWatcher(s: State, window: nat, a: Action)
    requires Inv(s) && Step(s, window, a).Some?
    ensures Step(s, window, a).value.watching <==> s.watching && a != WatcherDies
    ensures a == WatcherDies ==> s.watching && Step(s, window, a).value.inbox == []
  {
    if a.HandlerUpsert? {
      UpsertLeaves(s, a.outcome, a.raised);
    }
  }

  /** What a step does to the batch. */
  lemma InboxAfter(s: State, window: nat, a: Action)
    requires Step(s, window, a).Some? && a != WatcherDies
    ensures var before, after := s.inbox, Step(s, window, a).value.inbox;
            && (a.WatcherFetch? ==> before == [] && Taken(s, a.batch).Some? && after == Taken(s, a.batch).value.0)
            && (a.WatcherResolve? ==> before == FirstOf(before) + after && before != [])
            && (!a.WatcherFetch? && !a.WatcherResolve? ==> after == before)
  {
    match a
    case WatcherFetch(batch) => FetchFillsInbox(s, batch);
    case WatcherResolve(reached) => ResolveTakesFirst(s, reached);
    case HandlerUpsert(outcome, raised) => UpsertLeaves(s, outcome, raised);
    case _ =>
  }

  lemma FetchFillsInbox(s: State, batch: seq<nat>)
    requires DoWatcherFetch(s, batch).Some?
    ensures s.inbox == [] && Taken(s, batch).Some? && DoWatcherFetch(s, batch).value.inbox == Taken(s, batch).value.0
  {
  }

  lemma ResolveTakesFirst(s: State, reached: bool)
    requires DoWatcherResolve(s, reached).Some?
    ensures s.inbox != [] && s.inbox == FirstOf(s.inbox) + DoWatcherResolve(s, reached).value.inbox
  {
  }

  lemma Shift(fetched: seq<Reply>, consumed: seq<Reply>, before: seq<Reply>, after: seq<Reply>)
    requires fetched == consumed + before
    ensures before == [] ==> fetched + after == consumed + after
    ensures before == FirstOf(before) + after ==> fetched == consumed + FirstOf(before) + after
  {
    assert consumed + (FirstOf(before) + after) == consumed + FirstOf(before) + after;
  }

  // ---- The lives of the handler -------------------------------------------

  /** The handler's process gets a new key only when it is started, and is started only when
      it is gone, with the invocation it was at; nothing else brings it back. */
  lemma OnlyAStartDrawsAKey(s: State, window: nat, a: Action)
    requires Inv(s) && Step(s, window, a).Some?
    ensures var s' := Step(s, window, a).value;
            && (s'.life != s.life ==> a == HandlerStarts)
            && (a == HandlerStarts <==> !s.handling && s'.handling)
            && (a == HandlerStarts ==> s.job.None? && s'.job.None? && s'.life == s.life + 1)
  {
    if a.HandlerUpsert? {
      UpsertLeaves(s, a.outcome, a.raised);
    }
  }

  // ---- How often a message is delivered -----------------------------------

  /** Deliveries of order `q` to the handler's consumer in a run. */
  function OrderDeliveries(actions: seq<Action>, q: nat): (n: nat) {
    if actions == [] then 0
    else
      var a := actions[|actions| - 1];
      OrderDeliveries(actions[..|actions| - 1], q) + if a == HandlerFetch(q) || a == HandlerMisses(q) then 1 else 0
  }

  /** Deliveries of report `q` to the watcher's consumer. */
  function ReportDeliveries(actions: seq<Action>, q: nat): (n: nat) {
    if actions == [] then 0
    else
      var a := actions[|actions| - 1];
      ReportDeliveries(actions[..|actions| - 1], q)
      + (match a
         case WatcherFetch(batch) => multiset(batch)[q]
         case WatcherMisses(p) => if p == q then 1 else 0
         case _ => 0)
  }

  /** The consumers' records count exactly, and no message is delivered more than five
      times. */
  lemma {:induction false} DeliveriesAreCounted(window: nat, actions: seq<Action>, q: nat)
    requires Exec(Init(), window, actions).Some?
    ensures var s := Exec(Init(), window, actions).value;
            && Count(s.orders, q) == OrderDeliveries(actions, q) <= 5
            && Count(s.reports, q) == ReportDeliveries(actions, q) <= 5
  {
    if actions != [] {
      var front, a := actions[..|actions| - 1], actions[|actions| - 1];
      DeliveriesAreCounted(window, front, q);
      OneStepCounts(Exec(Init(), window, front).value, window, a, q);
      assert actions == front + [a];
    }
  }

  lemma OneStepCounts(s: State, window: nat, a: Action, q: nat)
    requires Step(s, window, a).Some? && Count(s.orders, q) <= 5 && Count(s.reports, q) <= 5
    ensures var s' := Step(s, window, a).value;
            && Count(s'.orders, q)
               == Count(s.orders, q) + (if a == HandlerFetch(q) || a == HandlerMisses(q) then 1 else 0) <= 5
            && Count(s'.reports, q)
               == Count(s.reports, q) + (match a
                                         case WatcherFetch(batch) => multiset(batch)[q]
                                         case WatcherMisses(p) => if p == q then 1 else 0
                                         case _ => 0) <= 5
  {
    match a {
      case HandlerUpsert(outcome, raised) => UpsertLeaves(s, outcome, raised);
      case WatcherFetch(batch) => TakenCounts(s, batch, q);
      case _ =>
    }
  }

  lemma {:induction false} TakenCounts(s: State, batch: seq<nat>, q: nat)
    requires Taken(s, batch).Some? && Count(s.reports, q) <= 5
    ensures Count(Taken(s, batch).value.1, q) == Count(s.reports, q) + multiset(batch)[q] <= 5
  {
    if batch != [] {
      var front := batch[..|batch| - 1];
      TakenCounts(s, front, q);
      assert batch == front + [batch[|batch| - 1]];
    }
  }

  /** Neither acknowledged nor delivered five times. */
  predicate Open(c: Consumer, q: nat) {
    q !in c.acked && (q in c.deliveries ==> c.deliveries[q] < 5)
  }

  /** When message `q` can be delivered: to the handler, if it is idle and has the key the
      order is sealed for; to the watcher, if it has nothing in hand and the report is
      sealed for the service. To be dropped, any open message can be delivered. */
  lemma CanBeDeliveredIff(s: State, window: nat, q: nat)
    ensures var log := s.stream.log;
            && (Step(s, window, HandlerMisses(q)).Some?
                <==> q < |log| && log[q].data.OrderCreated? && Open(s.orders, q))
            && (Step(s, window, HandlerFetch(q)).Some?
                <==> && s.handling && s.job.None? && q < |log| && log[q].data.OrderCreated? && Open(s.orders, q)
                     && log[q].data.reader == Some(s.life))
            && (Step(s, window, WatcherMisses(q)).Some?
                <==> s.watching && q < |log| && log[q].data.OrderPersisted? && Open(s.reports, q))
            && (Step(s, window, WatcherFetch([q])).Some?
                <==> && s.watching && s.inbox == [] && q < |log| && log[q].data.OrderPersisted? && Open(s.reports, q)
                     && log[q].data.readable)
  {
    assert [q][..0] == [];
    assert Taken(s, []) == Some(([], s.reports));
  }

  /** What is acknowledged is not delivered again. */
  lemma {:induction false} AckedIsNotDelivered(s: State, window: nat, actions: seq<Action>, q: nat)
    requires Exec(s, window, actions).Some? && q in s.orders.acked
    ensures q in Exec(s, window, actions).value.orders.acked && OrderDeliveries(actions, q) == 0
  {
    if actions != [] {
      var front := actions[..|actions| - 1];
      AckedIsNotDelivered(s, window, front, q);
      StillAcked(Exec(s, window, front).value, window, actions[|actions| - 1], q);
    }
  }

  lemma StillAcked(s: State, window: nat, a: Action, q: nat)
    requires Step(s, window, a).Some? && q in s.orders.acked
    ensures q in Step(s, window, a).value.orders.acked && a != HandlerFetch(q) && a != HandlerMisses(q)
  {
    if a.HandlerUpsert? {
      UpsertLeaves(s, a.outcome, a.raised);
    }
  }
}
