/** Runs of the order path in which a waiting request does not get its answer: two in
    which its order is committed and reported, one in which it is committed and not
    reported, and one in which nobody can read it. */
module OrderRuns {
  import opened Basics
  import opened EventStream
  import opened OrderPayloads
  import opened Replies
  import opened OrderSystem
  import opened OrderSafety
  import opened ReplyDelivery
  import OrderWriter

  const PEN := Order("a", "pen", 1)

  /** The order, sealed for the handler as it was started first. */
  const ORDERED := Publish(0, EncodeOrder(PEN), None, true, "e", 0, Some(0), Done)

  /** The order, published while no recipient is known. */
  const UNSEALED := Publish(0, EncodeOrder(PEN), None, true, "e", 0, None, Done)

  /** The handling of that order, with nothing going wrong. */
  const HANDLED := OrderWriter.Delivery("e", EncodeOrder(PEN), Done, true, Done, Done)

  const SERVED := OrderWriter.StepsOf(HANDLED, 0, "p", 0, true) + [WatcherFetch([1])] + [WatcherResolve(true)]

  /** The handling of that order, with the publish of its report failing. */
  const UNREPORTED := OrderWriter.Delivery("e", EncodeOrder(PEN), Done, true, Failed, Done)

  /** The order is the whole stream, and nothing has been delivered. */
  predicate Ordered(s: State, reader: Option<nat>) {
    && |s.stream.log| == 1 && s.stream.log[0].data == OrderCreated("e", EncodeOrder(PEN), reader) && s.issued == {"e"}
    && s.watching && s.inbox == [] && s.handling && s.life == 0 && s.job == None
    && s.orders == NOTHING_DELIVERED && s.reports == NOTHING_DELIVERED
  }

  /** The order is committed and acked, its report consumed and acked. */
  predicate Served(s: State) {
    && |s.stream.log| == 2 && s.stream.log[0].data == OrderCreated("e", EncodeOrder(PEN), Some(0))
    && s.stream.log[1].data == OrderPersisted("p", Some("e"), "a", true)
    && Commit("e", PEN) in s.committed && 0 in s.orders.acked && 1 in s.reports.acked
    && s.inbox == [] && s.job == None
  }

  const REPORT := Reply(1, Some("e"), "a")

  lemma Ordering(window: nat, publish: Action) returns (s: State)
    requires publish == ORDERED || publish == UNSEALED
    ensures Exec(Init(), window, [publish]) == Some(s)
    ensures Ordered(s, publish.reader) && s.requests == map[0 := Sent("e")] && s.replies == NO_REPLIES
  {
    ExecOne(Init(), window, publish);
    s := DoPublish(Init(), window, publish).value;
  }

  lemma Handling(s: State, window: nat) returns (s': State)
    requires Ordered(s, Some(0))
    ensures Exec(s, window, OrderWriter.StepsOf(HANDLED, 0, "p", 0, true)) == Some(s')
    ensures s'.requests == s.requests && s'.replies == s.replies && s'.watching && s'.inbox == []
    ensures s'.reports == NOTHING_DELIVERED && s'.job == None && 0 in s'.orders.acked
    ensures |s'.stream.log| == 2 && s'.stream.log[0] == s.stream.log[0]
    ensures s'.stream.log[1].data == OrderPersisted("p", Some("e"), "a", true) && Commit("e", PEN) in s'.committed
  {
    DecodeInvertsEncode(PEN, EncodeOrder(PEN));
    OrderWriter.HandlingIsSteps(s, window, HANDLED, 0, "p", 0, true);
    s' := Exec(s, window, OrderWriter.StepsOf(HANDLED, 0, "p", 0, true)).value;
    assert OrderWriter.EffectsOf(HANDLED)[1] == OrderWriter.Ack("e");
  }

  lemma Serving(s: State, window: nat) returns (s': State)
    requires Ordered(s, Some(0))
    ensures Exec(s, window, SERVED) == Some(s') && Served(s')
    ensures s'.requests == s.requests && s'.replies == Resolve(s.replies, REPORT)
  {
    var handled := Handling(s, window);
    var steps := OrderWriter.StepsOf(HANDLED, 0, "p", 0, true);
    TakingOne(handled, 1);
    var fetched := DoWatcherFetch(handled, [1]).value;
    ExecLast(s, window, steps, WatcherFetch([1]));
    ExecLast(s, window, steps + [WatcherFetch([1])], WatcherResolve(true));
    s' := DoWatcherResolve(fetched, true).value;
  }

  lemma ServedIsHopeless(s: State)
    requires Served(s)
    ensures !Hope(s, "e")
  {
  }

  /** The report is consumed before the request registers: from there on no run answers
      it 200. */
  lemma ReplyBeforeRegistration(window: nat) returns (actions: seq<Action>, s: State)
    ensures Exec(Init(), window, actions) == Some(s)
    ensures Served(s) && 0 in s.requests && s.requests[0] == Sent("e")
    ensures forall more :: Exec(DoRegister(s, 0).value, window, more).Some? ==>
              var last := Exec(DoRegister(s, 0).value, window, more).value;
              0 in last.requests && StillWaits(last.requests[0], "e", |s.replies.futures|)
  {
    var ordered := Ordering(window, ORDERED);
    s := Serving(ordered, window);
    actions := [ORDERED] + SERVED;
    ExecInParts(Init(), window, [ORDERED], SERVED);
    InitIsOk();
    RunKeepsInv(Init(), window, actions);
    ServedIsHopeless(s);
    forall more | Exec(DoRegister(s, 0).value, window, more).Some?
      ensures 0 in Exec(DoRegister(s, 0).value, window, more).value.requests
      ensures StillWaits(Exec(DoRegister(s, 0).value, window, more).value.requests[0], "e", |s.replies.futures|)
    {
      EarlyReplyIsLost(s, window, more, 0, "e");
    }
  }

  /** The report is consumed in time, the deadline fires before the request wakes: the
      future holds the reply, and the request is answered 504. */
  lemma ReplyBeforeDeadline(window: nat) returns (actions: seq<Action>, s: State)
    ensures Exec(Init(), window, actions) == Some(s)
    ensures Served(s) && 0 in s.requests && s.requests[0] == Answered("e", Timeout504)
    ensures |s.replies.futures| == 1 && s.replies.futures[0].state == Resolved(REPORT)
  {
    var ordered := Ordering(window, ORDERED);
    var registered := DoRegister(ordered, 0).value;
    ExecLast(Init(), window, [ORDERED], Register(0));
    var served := Serving(registered, window);
    ExecInParts(Init(), window, [ORDERED] + [Register(0)], SERVED);
    assert served.replies.futures[0].state == Resolved(REPORT);
    actions := [ORDERED] + [Register(0)] + SERVED + [Timer(0)];
    ExecLast(Init(), window, [ORDERED] + [Register(0)] + SERVED, Timer(0));
    var late := DoTimer(served, 0).value;
    ExecLast(Init(), window, actions, Resume(0));
    actions := actions + [Resume(0)];
    s := DoResume(late, 0).value;
  }

  // ---- Orders nobody will report on ---------------------------------------

  /** The request waits for a report that cannot come. */
  lemma NoAnswer(s: State, window: nat)
    requires Inv(s) && 0 in s.requests && s.requests[0] == Waiting("e", 0, false) && !Hope(s, "e")
    requires |s.replies.futures| == 1 && s.replies.futures[0].state.Pending?
    ensures !CanSucceed(s, window, 0)
  {
    CanStillSucceedIff(s, window, 0, "e", 0);
  }

  /** An order published while no recipient is known: its request waits, the watcher and the
      handler live, and no run answers it 200. */
  lemma UnsealedOrderTimesOut(window: nat) returns (s: State)
    ensures Exec(Init(), window, [UNSEALED] + [Register(0)]) == Some(s)
    ensures s.watching && s.handling && 0 in s.requests && s.requests[0] == Waiting("e", 0, false)
    ensures !CanSucceed(s, window, 0)
  {
    var ordered := Ordering(window, UNSEALED);
    ExecLast(Init(), window, [UNSEALED], Register(0));
    s := DoRegister(ordered, 0).value;
    InitIsOk();
    RunKeepsInv(Init(), window, [UNSEALED] + [Register(0)]);
    forall q ensures !Awaits(s, q, "e") && !ReportAt(s, q, "e") {
    }
    NoAnswer(s, window);
  }

  lemma Unreported(s: State, window: nat) returns (s': State)
    requires Ordered(s, Some(0))
    ensures Exec(s, window, OrderWriter.StepsOf(UNREPORTED, 0, "p", 0, true)) == Some(s')
    ensures s'.requests == s.requests && s'.replies == s.replies && s'.watching && s'.inbox == []
    ensures !s'.handling && s'.job == None && s'.stream == s.stream && Commit("e", PEN) in s'.committed
  {
    DecodeInvertsEncode(PEN, EncodeOrder(PEN));
    OrderWriter.HandlingIsSteps(s, window, UNREPORTED, 0, "p", 0, true);
    s' := Exec(s, window, OrderWriter.StepsOf(UNREPORTED, 0, "p", 0, true)).value;
  }

  /** The order is committed, the publish of its report fails, and the exception ends the
      handler: started anew it cannot decrypt the order, and no run answers the request
      200. */
  lemma FailedReportIsFinal(window: nat) returns (actions: seq<Action>, s: State)
    ensures Exec(Init(), window, actions) == Some(s)
    ensures Commit("e", PEN) in s.committed && s.watching && !s.handling
    ensures 0 in s.requests && s.requests[0] == Waiting("e", 0, false)
    ensures !CanSucceed(s, window, 0)
  {
    var ordered := Ordering(window, ORDERED);
    var registered := DoRegister(ordered, 0).value;
    ExecLast(Init(), window, [ORDERED], Register(0));
    s := Unreported(registered, window);
    actions := [ORDERED] + [Register(0)] + OrderWriter.StepsOf(UNREPORTED, 0, "p", 0, true);
    ExecInParts(Init(), window, [ORDERED] + [Register(0)], OrderWriter.StepsOf(UNREPORTED, 0, "p", 0, true));
    InitIsOk();
    RunKeepsInv(Init(), window, actions);
    forall q ensures !Awaits(s, q, "e") && !ReportAt(s, q, "e") {
    }
    NoAnswer(s, window);
  }
}
