/** Which waiting requests get their reply. */
module ReplyDelivery {
  import opened Basics
  import opened EventStream
  import opened OrderPayloads
  import opened Replies
  import opened OrderSystem
  import opened OrderSafety

  /** Request `r` waits for `id` with its deadline ahead and its own entry in the map. */
  predicate Listening(s: State, r: nat, id: string, f: nat) {
    && r in s.requests && s.requests[r] == Waiting(id, f, false)
    && id in s.replies.pending && s.replies.pending[id] == f
    && f < |s.replies.futures|
  }

  /** Nobody else waits under `id`. */
  ghost predicate AloneUnder(s: State, r: nat, id: string) {
    forall r' :: r' in s.requests && r' != r && s.requests[r'].Waiting? ==> s.requests[r'].eventId != id
  }

  /** The run leaves `r` waiting, alone under its id throughout. */
  ghost predicate Undisturbed(s: State, window: nat, actions: seq<Action>, r: nat, id: string)
    requires Exec(s, window, actions).Some?
    decreases |actions|
  {
    && AloneUnder(Exec(s, window, actions).value, r, id)
    && (actions != [] ==>
          && actions[|actions| - 1] != Timer(r) && actions[|actions| - 1] != Resume(r)
          && Undisturbed(s, window, actions[..|actions| - 1], r, id))
  }

  /** The first reply to `id` the watcher consumes in the run. */
  function FirstReply(s: State, window: nat, actions: seq<Action>, id: string): (e: Option<Reply>)
    requires Exec(s, window, actions).Some?
    decreases |actions|
  {
    if actions == [] then None
    else
      var front := actions[..|actions| - 1];
      var earlier := FirstReply(s, window, front, id);
      var inbox := Exec(s, window, front).value.inbox;
      if earlier.Some? then earlier
      else if actions[|actions| - 1].WatcherResolve? && inbox != [] && inbox[0].correlationId == Some(id) then
        Some(inbox[0])
      else None
  }

  lemma OneMoreConsumed(s: State, window: nat, actions: seq<Action>, id: string)
    requires actions != [] && Exec(s, window, actions).Some?
    ensures var front, a := actions[..|actions| - 1], actions[|actions| - 1];
            var inbox := Exec(s, window, front).value.inbox;
            && (a.WatcherResolve? ==> inbox != [])
            && FirstReply(s, window, actions, id) ==
                 if FirstReply(s, window, front, id).None? && a.WatcherResolve? && inbox[0].correlationId == Some(id)
                 then Some(inbox[0]) else FirstReply(s, window, front, id)
  {
  }

  function StateAfter(reply: Option<Reply>): (state: FutureState) {
    match reply
    case None => Pending
    case Some(e) => Resolved(e)
  }

  lemma OneUndisturbedStep(s: State, window: nat, a: Action, r: nat, id: string, f: nat)
    requires Inv(s) && Step(s, window, a).Some? && Listening(s, r, id, f)
    requires AloneUnder(s, r, id) && AloneUnder(Step(s, window, a).value, r, id)
    requires a != Timer(r) && a != Resume(r)
    ensures Listening(Step(s, window, a).value, r, id, f)
    ensures Step(s, window, a).value.replies.futures[f].state ==
              if a.WatcherResolve? && s.inbox[0].correlationId == Some(id) && s.replies.futures[f].state.Pending?
              then Resolved(s.inbox[0]) else s.replies.futures[f].state
  {
    assert RequestOk(s, r, s.requests[r]);
    if !TouchesReplies(a) {
      OtherStepsLeaveReplies(s, window, a);
    } else if a.WatcherResolve? {
      ResolveReaches(s, id, f);
    } else {
      OthersComeAndGo(s, window, a, r, id, f);
    }
  }

  lemma ResolveReaches(s: State, id: string, f: nat)
    requires RepliesOk(s) && s.inbox != []
    requires id in s.replies.pending && s.replies.pending[id] == f < |s.replies.futures|
    ensures var t := Resolve(s.replies, s.inbox[0]);
            && t.pending == s.replies.pending && |t.futures| == |s.replies.futures|
            && t.futures[f].state ==
                 if s.inbox[0].correlationId == Some(id) && s.replies.futures[f].state.Pending?
                 then Resolved(s.inbox[0]) else s.replies.futures[f].state
  {
  }

  lemma OthersComeAndGo(s: State, window: nat, a: Action, r: nat, id: string, f: nat)
    requires Inv(s) && Step(s, window, a).Some? && Listening(s, r, id, f)
    requires AloneUnder(s, r, id) && AloneUnder(Step(s, window, a).value, r, id)
    requires (a.Register? || a.Timer? || a.Resume?) && a != Timer(r) && a != Resume(r)
    ensures Listening(Step(s, window, a).value, r, id, f)
    ensures Step(s, window, a).value.replies.futures[f] == s.replies.futures[f]
  {
    match a {
      case Register(other) => AnotherRegisters(s, other, r, id, f);
      case Timer(other) => AnotherTimesOut(s, other, r, id, f);
      case Resume(other) => AnotherResumes(s, other, r, id, f);
    }
  }

  lemma AnotherRegisters(s: State, other: nat, r: nat, id: string, f: nat)
    requires DoRegister(s, other).Some? && Listening(s, r, id, f) && AloneUnder(DoRegister(s, other).value, r, id)
    ensures Listening(DoRegister(s, other).value, r, id, f)
    ensures DoRegister(s, other).value.replies.futures[f] == s.replies.futures[f]
  {
    assert DoRegister(s, other).value.requests[other].Waiting?;
  }

  lemma AnotherTimesOut(s: State, other: nat, r: nat, id: string, f: nat)
    requires RequestsOk(s) && DoTimer(s, other).Some? && Listening(s, r, id, f) && other != r
    ensures Listening(DoTimer(s, other).value, r, id, f)
    ensures DoTimer(s, other).value.replies.futures[f] == s.replies.futures[f]
  {
    assert RequestOk(s, r, s.requests[r]) && RequestOk(s, other, s.requests[other]);
  }

  lemma AnotherResumes(s: State, other: nat, r: nat, id: string, f: nat)
    requires DoResume(s, other).Some? && Listening(s, r, id, f) && AloneUnder(s, r, id) && other != r
    ensures Listening(DoResume(s, other).value, r, id, f)
    ensures DoResume(s, other).value.replies.futures[f] == s.replies.futures[f]
  {
  }

  /** While a request waits alone under its id, its future holds the first reply to
      that id consumed since, and nothing else. */
  lemma {:induction false} FutureHoldsFirstReply(s: State, window: nat, actions: seq<Action>, r: nat, id: string,
                                                 f: nat)
    requires Inv(s) && Exec(s, window, actions).Some? && Listening(s, r, id, f)
    requires s.replies.futures[f].state.Pending?
    requires Undisturbed(s, window, actions, r, id)
    ensures Listening(Exec(s, window, actions).value, r, id, f)
    ensures Exec(s, window, actions).value.replies.futures[f].state == StateAfter(FirstReply(s, window, actions, id))
    decreases |actions|
  {
    if actions != [] {
      var front, a := actions[..|actions| - 1], actions[|actions| - 1];
      FutureHoldsFirstReply(s, window, front, r, id, f);
      RunKeepsInv(s, window, front);
      OneUndisturbedStep(Exec(s, window, front).value, window, a, r, id, f);
      OneMoreConsumed(s, window, actions, id);
    }
  }

  /** Reply delivery. A request that waits alone under its id when a matching reply is
      consumed, and wakes before its deadline, is answered 200 with the first such
      reply; if none was consumed it cannot wake. */
  lemma FirstReplyIsDelivered(s: State, window: nat, actions: seq<Action>, r: nat, id: string)
    requires Inv(s) && r in s.requests && s.requests[r] == Sent(id)
    requires Exec(DoRegister(s, r).value, window, actions).Some?
    requires Undisturbed(DoRegister(s, r).value, window, actions, r, id)
    ensures var waiting := DoRegister(s, r).value;
            var last := Exec(waiting, window, actions).value;
            match FirstReply(waiting, window, actions, id)
            case Some(e) => Step(last, window, Resume(r)).Some?
                              && Step(last, window, Resume(r)).value.requests[r] == Answered(id, Ok200(e))
            case None => Step(last, window, Resume(r)).None?
  {
    RegisterKeepsInv(s, r);
    FutureHoldsFirstReply(DoRegister(s, r).value, window, actions, r, id, |s.replies.futures|);
  }

  /** A consumed reply is acknowledged, answers nobody by itself, and touches no future
      but the one its id leads to. */
  lemma ConsumedReplyTouchesOneFuture(s: State, window: nat, reached: bool, f: nat)
    requires Inv(s) && Step(s, window, WatcherResolve(reached)).Some?
    ensures var s' := Step(s, window, WatcherResolve(reached)).value;
            && s'.reports == Acked(s.reports, s.inbox[0].seqNo, reached)
            && s'.requests == s.requests && s'.replies.pending == s.replies.pending
            && |s'.replies.futures| == |s.replies.futures|
            && (f < |s.replies.futures| && s'.replies.futures[f] != s.replies.futures[f] ==>
                  s.inbox[0].correlationId == Some(s.replies.futures[f].eventId)
                  && s.replies.futures[f].state.Pending?)
  {
  }

  // ---- The deadline -------------------------------------------------------

  /** Until it wakes a request waits, and knows of its own deadline only. */
  lemma {:induction false} WaitsUntilResume(s: State, window: nat, actions: seq<Action>, r: nat, id: string)
    requires r in s.requests && s.requests[r] == Sent(id)
    requires Exec(DoRegister(s, r).value, window, actions).Some? && Resume(r) !in actions
    ensures var last := Exec(DoRegister(s, r).value, window, actions).value;
            r in last.requests && last.requests[r] == Waiting(id, |s.replies.futures|, Timer(r) in actions)
  {
    if actions != [] {
      var front, a := actions[..|actions| - 1], actions[|actions| - 1];
      WaitsUntilResume(s, window, front, r, id);
      assert actions == front + [a];
      OneStepOfWaiting(Exec(DoRegister(s, r).value, window, front).value, window, a, r);
    }
  }

  lemma OneStepOfWaiting(s: State, window: nat, a: Action, r: nat)
    requires Step(s, window, a).Some? && r in s.requests && s.requests[r].Waiting? && a != Resume(r)
    ensures r in Step(s, window, a).value.requests
    ensures Step(s, window, a).value.requests[r] ==
              if a == Timer(r) then s.requests[r].(timedOut := true) else s.requests[r]
  {
    if !TouchesReplies(a) {
      OtherStepsLeaveReplies(s, window, a);
    }
  }

  /** A request that wakes is answered 200 exactly if its deadline has not passed since
      it registered; whether its reply was there makes no difference. */
  lemma DeadlineDecides(s: State, window: nat, actions: seq<Action>, r: nat, id: string)
    requires r in s.requests && s.requests[r] == Sent(id)
    requires Exec(DoRegister(s, r).value, window, actions).Some? && Resume(r) !in actions
    requires Step(Exec(DoRegister(s, r).value, window, actions).value, window, Resume(r)).Some?
    ensures var q := Step(Exec(DoRegister(s, r).value, window, actions).value, window, Resume(r)).value.requests[r];
            && q.Answered? && q.eventId == id
            && (q.status.Ok200? <==> Timer(r) !in actions)
            && (q.status == Timeout504 <==> Timer(r) in actions)
  {
    WaitsUntilResume(s, window, actions, r, id);
  }

  // ---- Requests that share an event id ------------------------------------

  /** A second registration under one id displaces the first, and the clean-up of
      either removes whichever entry is there. */
  lemma SharedIdDisplaces(s: State, first: nat, second: nat, id: string, f: nat)
    requires Inv(s) && Listening(s, first, id, f)
    requires second in s.requests && s.requests[second] == Sent(id)
    ensures var s' := DoRegister(s, second).value;
            && s'.requests[first] == Waiting(id, f, false) && s'.replies.pending[id] != f
            && (forall r, g :: Listening(s', r, id, g) ==> r == second)
  {
    var s' := DoRegister(s, second).value;
    forall r, g | r != second && r in s.requests ensures !Listening(s', r, id, g) {
      assert RequestOk(s, r, s.requests[r]);
    }
  }

  lemma CleanUpEvictsTheOther(s: State, window: nat, r: nat, other: nat, id: string, f: nat)
    requires Inv(s) && Step(s, window, Resume(r)).Some? && s.requests[r].eventId == id
    requires r != other && Listening(s, other, id, f)
    ensures var s' := Step(s, window, Resume(r)).value;
            s'.requests[other] == Waiting(id, f, false) && id !in s'.replies.pending
  {
  }

  // ---- Requests that cannot succeed any more ------------------------------

  /** Nothing leads to future `f`. */
  ghost predicate Orphaned(s: State, f: nat) {
    forall id :: id in s.replies.pending ==> s.replies.pending[id] != f
  }

  /** A report on `id` is at `q`. */
  predicate ReportAt(s: State, q: nat, id: string) {
    IsReply(s, q) && s.stream.log[q].data.correlationId == Some(id)
  }

  /** An order with event id `id` is at `q`, and decodes. */
  predicate OrderAt(s: State, q: nat, id: string) {
    && IsOrder(s, q) && s.stream.log[q].data.eventId == id
    && DecodeOrderCreated(s.stream.log[q].data.body).Success?
  }

  /** An invocation that has yet to report on `id`. */
  predicate WillReport(s: State, job: Job, id: string) {
    && IsOrder(s, job.seqNo) && s.stream.log[job.seqNo].data.eventId == id
    && (job.phase.Upserted? || (job.phase.Fetched? && OrderAt(s, job.seqNo, id)))
  }

  /** The handler is at a message that will raise in its decoder and end its process. */
  predicate Poisoned(s: State) {
    && s.job.Some? && s.job.value.phase.Fetched? && IsOrder(s, s.job.value.seqNo)
    && DecodeOrderCreated(s.stream.log[s.job.value.seqNo].data.body) == Failure(Uncaught)
  }

  /** The running handler can still be delivered the order at `q`, and decrypt it. */
  predicate Awaits(s: State, q: nat, id: string) {
    OrderAt(s, q, id) && Readable(s, q) && Deliverable(s.orders, q)
  }

  /** A report on `id` can still reach the watcher: it is in the watcher's batch, or it can
      be delivered and decrypted, or it can still be published by the invocation in flight,
      or by one for the order, if the running handler can be delivered that and decrypt it
      and does not end with the message it is at. */
  ghost predicate Hope(s: State, id: string) {
    || (exists i :: 0 <= i < |s.inbox| && s.inbox[i].correlationId == Some(id))
    || ReportComes(s, id)
    || (s.job.Some? && WillReport(s, s.job.value, id))
    || (!Poisoned(s) && exists q :: Awaits(s, q, id))
  }

  ghost predicate ReportComes(s: State, id: string) {
    exists q :: ReportAt(s, q, id) && Fetchable(s, s.reports, q)
  }

  /** With the same stream, and no message deliverable to the watcher that was not. */
  lemma NoReportComes(s: State, s': State, id: string)
    requires !ReportComes(s, id) && s'.stream == s.stream
    requires forall q :: Deliverable(s'.reports, q) ==> Deliverable(s.reports, q)
    ensures !ReportComes(s', id)
  {
    forall q ensures !(ReportAt(s', q, id) && Fetchable(s', s'.reports, q)) {
      assert !(ReportAt(s, q, id) && Fetchable(s, s.reports, q));
    }
  }

  lemma IdIsIssued(s: State, id: string)
    requires StreamOk(s) && HasEvent(s.stream.log, id)
    ensures id in s.issued
  {
  }

  /** Storing a message that is neither an order under `id` nor a report on it. */
  lemma StoringGivesNoHope(s: State, s': State, m: Message, id: string)
    requires Stores(s, s', m) && !Hope(s, id) && HandlerOk(s)
    requires m.OrderCreated? ==> m.eventId != id
    requires m.OrderPersisted? ==> m.correlationId != Some(id)
    requires s'.inbox == s.inbox && s'.reports == s.reports && s'.orders == s.orders && s'.life == s.life
    requires s'.handling == s.handling && s'.job == s.job
    ensures !Hope(s', id)
  {
    forall q: nat ensures ReportAt(s', q, id) ==> ReportAt(s, q, id) && s'.stream.log[q] == s.stream.log[q]
      ensures OrderAt(s', q, id) ==> OrderAt(s, q, id) && s'.stream.log[q] == s.stream.log[q]
    {
      if q < |s.stream.log| {
        StoredAt(s, s', m, q);
      }
    }
    if s.job.Some? {
      StoredAt(s, s', m, s.job.value.seqNo);
    }
    forall q ensures !(ReportAt(s', q, id) && Fetchable(s', s'.reports, q)) {
      assert !(ReportAt(s, q, id) && Fetchable(s, s.reports, q));
    }
    forall q ensures !Awaits(s', q, id) || Poisoned(s') {
      assert Awaits(s', q, id) ==> Awaits(s, q, id);
    }
  }

  /** The end of the handler's process. */
  lemma DeathGivesNoHope(s: State, s': State, id: string)
    requires !Hope(s, id) && s'.stream == s.stream && s'.inbox == s.inbox && s'.reports == s.reports
    requires s'.job.None? && !s'.handling
    ensures !Hope(s', id)
  {
    NoReportComes(s, s', id);
  }

  lemma PublishGivesNoHope(s: State, window: nat, a: Action, id: string)
    requires a.Publish? && DoPublish(s, window, a).Some? && id in s.issued && !Hope(s, id)
    requires HandlerOk(s)
    ensures !Hope(DoPublish(s, window, a).value, id)
  {
    StoringGivesNoHope(s, DoPublish(s, window, a).value, OrderCreated(a.id, a.body, a.reader), id);
  }

  lemma OtherGivesNoHope(s: State, window: nat, a: Action, id: string)
    requires a.PublishOther? && DoPublishOther(s, window, a).Some? && !Hope(s, id) && HandlerOk(s)
    ensures !Hope(DoPublishOther(s, window, a).value, id)
  {
    StoringGivesNoHope(s, DoPublishOther(s, window, a).value, OtherEvent(a.id), id);
  }

  lemma ReportGivesNoHope(s: State, window: nat, a: Action, id: string)
    requires a.HandlerPublish? && DoHandlerPublish(s, window, a).Some? && !Hope(s, id)
    requires HandlerOk(s)
    ensures !Hope(DoHandlerPublish(s, window, a).value, id)
  {
    PublishIsReporting(s, window, a);
    var s' := DoHandlerPublish(s, window, a).value;
    assert !WillReport(s, s.job.value, id);
    var stored := s.(stream := s'.stream, issued := s'.issued);
    StoringGivesNoHope(s, stored, ReportOf(s, a), id);
    if a.outcome.Done? {
      MovedOnGivesNoHope(stored, s', id);
    } else {
      DeathGivesNoHope(stored, s', id);
    }
  }

  /** The invocation goes on, or is over, without the process ending. */
  lemma MovedOnGivesNoHope(s: State, s': State, id: string)
    requires !Hope(s, id) && !Poisoned(s) && s'.stream == s.stream && s'.inbox == s.inbox && s'.reports == s.reports
    requires s'.handling == s.handling && s'.life == s.life
    requires s'.job.Some? ==> !WillReport(s', s'.job.value, id)
    requires forall q :: Deliverable(s'.orders, q) ==> Deliverable(s.orders, q)
    ensures !Hope(s', id)
  {
    NoReportComes(s, s', id);
    forall q ensures !Awaits(s', q, id) {
      assert Awaits(s', q, id) ==> Awaits(s, q, id);
    }
  }

  lemma UpsertGivesNoHope(s: State, outcome: Outcome, raised: bool, id: string)
    requires DoHandlerUpsert(s, outcome, raised).Some? && !Hope(s, id)
    ensures !Hope(DoHandlerUpsert(s, outcome, raised).value, id)
  {
    var s' := DoHandlerUpsert(s, outcome, raised).value;
    UpsertLeaves(s, outcome, raised);
    assert !WillReport(s, s.job.value, id);
    if s'.handling == s.handling && !Poisoned(s) {
      MovedOnGivesNoHope(s, s', id);
    } else {
      DeathGivesNoHope(s, s', id);
    }
  }

  lemma FetchGivesNoHope(s: State, q: nat, id: string)
    requires DoHandlerFetch(s, q).Some? && !Hope(s, id)
    ensures !Hope(DoHandlerFetch(s, q).value, id)
  {
    assert !Awaits(s, q, id);
    MovedOnGivesNoHope(s, DoHandlerFetch(s, q).value, id);
  }

  lemma MissedGivesNoHope(s: State, q: nat, id: string)
    requires DoHandlerMisses(s, q).Some? && !Hope(s, id)
    ensures !Hope(DoHandlerMisses(s, q).value, id)
  {
    var s' := DoHandlerMisses(s, q).value;
    NoReportComes(s, s', id);
    forall p ensures Awaits(s', p, id) ==> Awaits(s, p, id) {
    }
  }

  lemma AckGivesNoHope(s: State, reached: bool, raised: bool, id: string)
    requires DoHandlerAck(s, reached, raised).Some? && !Hope(s, id) && HandlerOk(s)
    ensures !Hope(DoHandlerAck(s, reached, raised).value, id)
  {
    var s' := DoHandlerAck(s, reached, raised).value;
    if raised {
      DeathGivesNoHope(s, s', id);
    } else {
      MovedOnGivesNoHope(s, s', id);
    }
  }

  /** A new key opens no order stored so far. */
  lemma StartGivesNoHope(s: State, id: string)
    requires DoHandlerStarts(s).Some? && !Hope(s, id) && StreamOk(s) && HandlerOk(s)
    ensures !Hope(DoHandlerStarts(s).value, id)
  {
    var s' := DoHandlerStarts(s).value;
    NoReportComes(s, s', id);
    forall q: nat ensures !Awaits(s', q, id) {
      assert IsOrder(s, q) && s.stream.log[q].data.reader.Some? ==> s.stream.log[q].data.reader.value <= s.life;
    }
  }

  lemma WatcherFetchGivesNoHope(s: State, batch: seq<nat>, id: string)
    requires DoWatcherFetch(s, batch).Some? && !Hope(s, id)
    ensures !Hope(DoWatcherFetch(s, batch).value, id)
  {
    TakenIsHopeless(s, batch, id);
    NoReportComes(s, DoWatcherFetch(s, batch).value, id);
    OrdersAsBefore(s, DoWatcherFetch(s, batch).value, id);
  }

  /** No step of the watcher or of a request brings the handler an order. */
  lemma OrdersAsBefore(s: State, s': State, id: string)
    requires s'.stream == s.stream && s'.orders == s.orders
    requires s'.handling == s.handling && s'.life == s.life && s'.job == s.job
    ensures forall q :: Awaits(s', q, id) ==> Awaits(s, q, id)
    ensures Poisoned(s') == Poisoned(s)
    ensures s.job.Some? ==> WillReport(s', s.job.value, id) == WillReport(s, s.job.value, id)
  {
    forall q ensures Awaits(s', q, id) ==> Awaits(s, q, id) {
    }
  }

  lemma MissGivesNoHope(s: State, q: nat, id: string)
    requires DoWatcherMisses(s, q).Some? && !Hope(s, id)
    ensures !Hope(DoWatcherMisses(s, q).value, id)
  {
    var s' := DoWatcherMisses(s, q).value;
    NoReportComes(s, s', id);
    OrdersAsBefore(s, s', id);
  }

  lemma ResolveGivesNoHope(s: State, reached: bool, id: string)
    requires DoWatcherResolve(s, reached).Some? && !Hope(s, id)
    ensures !Hope(DoWatcherResolve(s, reached).value, id)
  {
    var s' := DoWatcherResolve(s, reached).value;
    assert forall i :: 0 <= i < |s'.inbox| ==> s'.inbox[i] == s.inbox[i + 1];
    NoReportComes(s, s', id);
    OrdersAsBefore(s, s', id);
  }

  lemma TakenIsHopeless(s: State, batch: seq<nat>, id: string)
    requires Taken(s, batch).Some? && !Hope(s, id)
    ensures forall i :: 0 <= i < |Taken(s, batch).value.0| ==> Taken(s, batch).value.0[i].correlationId != Some(id)
    ensures forall q :: Deliverable(Taken(s, batch).value.1, q) ==> Deliverable(s.reports, q)
  {
    TakenIsGenuine(s, batch);
    var taken := Taken(s, batch).value.0;
    forall i | 0 <= i < |taken| ensures taken[i].correlationId != Some(id) {
      assert Genuine(s.stream.log, taken[i]) && Fetchable(s, s.reports, batch[i]);
      assert !ReportAt(s, batch[i], id);
    }
  }

  /** Future `f` of a request under `id` can never be resolved: the map does not lead to
      it, or the watcher is dead, or no report can reach the watcher. */
  ghost predicate Doomed(s: State, f: nat, id: string) {
    && f < |s.replies.futures| && s.replies.futures[f].eventId == id && !s.replies.futures[f].state.Resolved?
    && HasEvent(s.stream.log, id)
    && (Orphaned(s, f) || !s.watching || !Hope(s, id))
  }

  lemma LogGrows(s: State, window: nat, a: Action)
    requires Step(s, window, a).Some?
    ensures s.stream.log <= Step(s, window, a).value.stream.log
  {
    if a.HandlerUpsert? {
      UpsertLeaves(s, a.outcome, a.raised);
    }
  }

  lemma StepKeepsHopeless(s: State, window: nat, a: Action, id: string)
    requires Inv(s) && HasEvent(s.stream.log, id) && Step(s, window, a).Some? && !Hope(s, id)
    ensures !Hope(Step(s, window, a).value, id)
  {
    match a {
      case Publish(_, _, _, _, _, _, _, _) => PublishingGivesNoHope(s, window, a, id);
      case PublishOther(_, _, _, _) => PublishingGivesNoHope(s, window, a, id);
      case HandlerPublish(_, _, _, _) => PublishingGivesNoHope(s, window, a, id);
      case HandlerUpsert(outcome, raised) => HandlerGivesNoHope(s, window, a, id);
      case HandlerFetch(q) => HandlerGivesNoHope(s, window, a, id);
      case HandlerMisses(q) => HandlerGivesNoHope(s, window, a, id);
      case HandlerAck(reached, raised) => HandlerGivesNoHope(s, window, a, id);
      case HandlerDies => DeathGivesNoHope(s, Died(s), id);
      case HandlerStarts => StartGivesNoHope(s, id);
      case WatcherFetch(batch) => WatcherFetchGivesNoHope(s, batch, id);
      case WatcherMisses(q) => MissGivesNoHope(s, q, id);
      case WatcherResolve(reached) => ResolveGivesNoHope(s, reached, id);
      case _ => OthersGiveNoHope(s, Step(s, window, a).value, id);
    }
  }

  lemma OthersGiveNoHope(s: State, s': State, id: string)
    requires !Hope(s, id) && s'.stream == s.stream && s'.reports == s.reports && s'.orders == s.orders
    requires s'.handling == s.handling && s'.life == s.life && s'.job == s.job
    requires s'.inbox == s.inbox || s'.inbox == []
    ensures !Hope(s', id)
  {
    NoReportComes(s, s', id);
    OrdersAsBefore(s, s', id);
  }

  lemma PublishingGivesNoHope(s: State, window: nat, a: Action, id: string)
    requires Inv(s) && HasEvent(s.stream.log, id) && Step(s, window, a).Some? && !Hope(s, id)
    requires a.Publish? || a.PublishOther? || a.HandlerPublish?
    ensures !Hope(Step(s, window, a).value, id)
  {
    IdIsIssued(s, id);
    if a.Publish? {
      PublishGivesNoHope(s, window, a, id);
    } else if a.PublishOther? {
      OtherGivesNoHope(s, window, a, id);
    } else {
      ReportGivesNoHope(s, window, a, id);
    }
  }

  lemma HandlerGivesNoHope(s: State, window: nat, a: Action, id: string)
    requires Inv(s) && Step(s, window, a).Some? && !Hope(s, id)
    requires a.HandlerUpsert? || a.HandlerFetch? || a.HandlerMisses? || a.HandlerAck?
    ensures !Hope(Step(s, window, a).value, id)
  {
    if a.HandlerUpsert? {
      UpsertGivesNoHope(s, a.outcome, a.raised, id);
    } else if a.HandlerFetch? {
      FetchGivesNoHope(s, a.seqNo, id);
    } else if a.HandlerMisses? {
      MissedGivesNoHope(s, a.seqNo, id);
    } else {
      AckGivesNoHope(s, a.reached, a.raised, id);
    }
  }

  lemma StepKeepsWatcherDead(s: State, window: nat, a: Action)
    requires Step(s, window, a).Some? && !s.watching
    ensures !Step(s, window, a).value.watching
  {
    if a.HandlerUpsert? {
      UpsertLeaves(s, a.outcome, a.raised);
    }
  }

  lemma StepKeepsOrphan(s: State, window: nat, a: Action, f: nat)
    requires Step(s, window, a).Some? && f < |s.replies.futures| && Orphaned(s, f)
    ensures Orphaned(Step(s, window, a).value, f)
  {
    if !TouchesReplies(a) {
      OtherStepsLeaveReplies(s, window, a);
    }
  }

  /** A doomed future stays unresolved. */
  lemma DoomedIsNotResolved(s: State, window: nat, a: Action, f: nat, id: string)
    requires Inv(s) && Step(s, window, a).Some? && Doomed(s, f, id)
    ensures var t := Step(s, window, a).value.replies;
            f < |t.futures| && t.futures[f].eventId == id && !t.futures[f].state.Resolved?
  {
    if !TouchesReplies(a) {
      OtherStepsLeaveReplies(s, window, a);
    } else if a.WatcherResolve? {
      DoomedIsNoTarget(s, f, id);
    }
  }

  lemma DoomedIsNoTarget(s: State, f: nat, id: string)
    requires InboxOk(s) && RepliesOk(s) && Doomed(s, f, id) && s.inbox != []
    ensures Target(s.replies, s.inbox[0]) != Some(f)
  {
    var t, c := s.replies, s.inbox[0].correlationId;
    assert c.Some? && c.value in t.pending && t.pending[c.value] == f ==> c == Some(id);
  }

  lemma StepKeepsDoomed(s: State, window: nat, a: Action, f: nat, id: string)
    requires Inv(s) && Step(s, window, a).Some? && Doomed(s, f, id)
    ensures Doomed(Step(s, window, a).value, f, id)
  {
    var s' := Step(s, window, a).value;
    DoomedIsNotResolved(s, window, a, f, id);
    LogGrows(s, window, a);
    assert HasEvent(s'.stream.log, id) by {
      var q :| 0 <= q < |s.stream.log| && !s.stream.log[q].data.OrderPersisted? && s.stream.log[q].data.eventId == id;
      assert s'.stream.log[q] == s.stream.log[q];
    }
    if Orphaned(s, f) {
      StepKeepsOrphan(s, window, a, f);
    } else if !s.watching {
      StepKeepsWatcherDead(s, window, a);
    } else {
      StepKeepsHopeless(s, window, a, id);
    }
  }

  predicate StillWaits(q: Request, id: string, f: nat) {
    (q.Waiting? && q.eventId == id && q.future == f) || q == Answered(id, Timeout504)
  }

  lemma DoomedStep(s: State, window: nat, a: Action, r: nat, id: string, f: nat)
    requires Step(s, window, a).Some? && Doomed(s, f, id) && r in s.requests && StillWaits(s.requests[r], id, f)
    ensures r in Step(s, window, a).value.requests && StillWaits(Step(s, window, a).value.requests[r], id, f)
  {
    if !TouchesReplies(a) {
      OtherStepsLeaveReplies(s, window, a);
    }
  }

  /** Over any run such a request keeps waiting, or is answered 504. */
  lemma {:induction false} DoomedTimesOut(s: State, window: nat, actions: seq<Action>, r: nat, id: string, f: nat)
    requires Inv(s) && Exec(s, window, actions).Some?
    requires r in s.requests && StillWaits(s.requests[r], id, f) && Doomed(s, f, id)
    ensures r in Exec(s, window, actions).value.requests
    ensures StillWaits(Exec(s, window, actions).value.requests[r], id, f)
    ensures Doomed(Exec(s, window, actions).value, f, id)
  {
    if actions != [] {
      var front, a := actions[..|actions| - 1], actions[|actions| - 1];
      DoomedTimesOut(s, window, front, r, id, f);
      RunKeepsInv(s, window, front);
      DoomedStep(Exec(s, window, front).value, window, a, r, id, f);
      StepKeepsDoomed(Exec(s, window, front).value, window, a, f, id);
    }
  }

  /** A reply consumed before its request registers is lost: once nothing is left that
      could report on `id` again, a request that registers under it only then is never
      answered 200. */
  lemma EarlyReplyIsLost(s: State, window: nat, actions: seq<Action>, r: nat, id: string)
    requires Inv(s) && r in s.requests && s.requests[r] == Sent(id) && !Hope(s, id)
    requires Exec(DoRegister(s, r).value, window, actions).Some?
    ensures r in Exec(DoRegister(s, r).value, window, actions).value.requests
    ensures StillWaits(Exec(DoRegister(s, r).value, window, actions).value.requests[r], id, |s.replies.futures|)
  {
    var waiting := DoRegister(s, r).value;
    RegisterKeepsInv(s, r);
    assert RequestOk(s, r, s.requests[r]);
    assert Step(s, window, Register(r)) == Some(waiting);
    StepKeepsHopeless(s, window, Register(r), id);
    DoomedTimesOut(waiting, window, actions, r, id, |s.replies.futures|);
  }

  // ---- Requests that can --------------------------------------------------

  /** `r` is answered 200. */
  predicate Succeeded(s: State, r: nat) {
    r in s.requests && s.requests[r].Answered? && s.requests[r].status.Ok200?
  }

  /** The watcher has only ever seen what is in the stream. */
  ghost predicate ReportsSeen(s: State) {
    && (forall q :: q in s.reports.deliveries ==> q < |s.stream.log|)
    && (forall q :: q in s.reports.acked ==> q < |s.stream.log|)
  }

  /** Ready for a rescue: a living watcher with nothing in hand, and `r` listening for an
      answer it does not have. */
  ghost predicate Ready(s: State, r: nat, id: string, f: nat) {
    && ReportsSeen(s) && s.watching && s.inbox == [] && Listening(s, r, id, f) && s.replies.futures[f].state.Pending?
  }

  lemma ResumeSucceeds(s: State, window: nat, r: nat, id: string, f: nat) returns (actions: seq<Action>)
    requires r in s.requests && s.requests[r] == Waiting(id, f, false)
    requires f < |s.replies.futures| && s.replies.futures[f].state.Resolved?
    ensures Exec(s, window, actions).Some? && Succeeded(Exec(s, window, actions).value, r)
  {
    actions := [Resume(r)];
    ExecOne(s, window, Resume(r));
  }

  lemma FromReport(s: State, window: nat, r: nat, id: string, f: nat, q: nat) returns (actions: seq<Action>)
    requires Ready(s, r, id, f) && ReportAt(s, q, id) && Fetchable(s, s.reports, q)
    ensures Exec(s, window, actions).Some? && Succeeded(Exec(s, window, actions).value, r)
  {
    TakingOne(s, q);
    var fetched := DoWatcherFetch(s, [q]).value;
    var resolved := DoWatcherResolve(fetched, true).value;
    assert resolved.replies.futures[f].state == Resolved(ReplyAt(s, q));
    var rest := ResumeSucceeds(resolved, window, r, id, f);
    var tail := [WatcherResolve(true)] + rest;
    ExecFirst(fetched, window, WatcherResolve(true), rest);
    assert Exec(fetched, window, tail) == Exec(resolved, window, rest);
    actions := [WatcherFetch([q])] + tail;
    assert Step(s, window, WatcherFetch([q])) == Some(fetched);
    ExecFirst(s, window, WatcherFetch([q]), tail);
  }

  lemma TakingOne(s: State, q: nat)
    requires Fetchable(s, s.reports, q)
    ensures Taken(s, [q]) == Some(([ReplyAt(s, q)], Delivered(s.reports, q)))
  {
    assert [q][..0] == [];
    assert Taken(s, []) == Some(([], s.reports));
    assert [] + [ReplyAt(s, q)] == [ReplyAt(s, q)];
  }

  lemma FromUpserted(s: State, window: nat, r: nat, id: string, f: nat) returns (actions: seq<Action>)
    requires Ready(s, r, id, f)
    requires s.job.Some? && WillReport(s, s.job.value, id) && s.job.value.phase.Upserted?
    ensures Exec(s, window, actions).Some? && Succeeded(Exec(s, window, actions).value, r)
  {
    var unused := FreshText(s.issued);
    var publish := HandlerPublish(unused, 0, true, Done);
    var published := DoHandlerPublish(s, window, publish).value;
    var q := |s.stream.log|;
    assert |published.stream.log| == q + 1 && ReportAt(published, q, id);
    assert q !in s.reports.deliveries && q !in s.reports.acked;
    var rest := FromReport(published, window, r, id, f, q);
    actions := [publish] + rest;
    ExecFirst(s, window, publish, rest);
  }

  lemma FromFetched(s: State, window: nat, r: nat, id: string, f: nat) returns (actions: seq<Action>)
    requires Ready(s, r, id, f)
    requires s.job.Some? && s.job.value.phase.Fetched? && OrderAt(s, s.job.value.seqNo, id)
    ensures Exec(s, window, actions).Some? && Succeeded(Exec(s, window, actions).value, r)
  {
    var upserted := DoHandlerUpsert(s, Done, false).value;
    UpsertLeaves(s, Done, false);
    assert upserted.job.value.phase.Upserted? && upserted.job.value.seqNo == s.job.value.seqNo;
    var rest := FromUpserted(upserted, window, r, id, f);
    actions := [HandlerUpsert(Done, false)] + rest;
    ExecFirst(s, window, HandlerUpsert(Done, false), rest);
  }

  lemma FromOrder(s: State, window: nat, r: nat, id: string, f: nat, q: nat) returns (actions: seq<Action>)
    requires Ready(s, r, id, f) && s.job.None? && Awaits(s, q, id)
    ensures Exec(s, window, actions).Some? && Succeeded(Exec(s, window, actions).value, r)
  {
    var fetched := DoHandlerFetch(s, q).value;
    var rest := FromFetched(fetched, window, r, id, f);
    actions := [HandlerFetch(q)] + rest;
    ExecFirst(s, window, HandlerFetch(q), rest);
  }

  /** The handler gets done with the message it is at, and nothing else is different for
      request `r` and order `q`. */
  ghost predicate GotDone(s: State, s': State, r: nat, id: string, f: nat, q: nat) {
    Ready(s', r, id, f) && s'.job.None? && Awaits(s', q, id)
  }

  /** From an invocation that has reported: its ack gets lost. */
  lemma GetDoneReported(s: State, window: nat, r: nat, id: string, f: nat, q: nat) returns (actions: seq<Action>)
    requires Ready(s, r, id, f) && Awaits(s, q, id) && s.job.Some? && s.job.value.phase.Reported?
    ensures Exec(s, window, actions).Some? && GotDone(s, Exec(s, window, actions).value, r, id, f, q)
  {
    actions := [HandlerAck(false, false)];
    ExecOne(s, window, HandlerAck(false, false));
  }

  /** From one that has committed: it reports. */
  lemma GetDoneUpserted(s: State, window: nat, r: nat, id: string, f: nat, q: nat) returns (actions: seq<Action>)
    requires Ready(s, r, id, f) && Awaits(s, q, id) && s.job.Some? && s.job.value.phase.Upserted?
    requires s.job.value.seqNo < |s.stream.log|
    ensures Exec(s, window, actions).Some? && GotDone(s, Exec(s, window, actions).value, r, id, f, q)
  {
    var unused := FreshText(s.issued);
    var publish := HandlerPublish(unused, 0, true, Done);
    var published := DoHandlerPublish(s, window, publish).value;
    PublishIsReporting(s, window, publish);
    StoredAt(s, published, ReportOf(s, publish), q);
    assert Awaits(published, q, id);
    var rest := GetDoneReported(published, window, r, id, f, q);
    actions := [publish] + rest;
    ExecFirst(s, window, publish, rest);
  }

  /** From one just started: the database refuses, or its ack gets lost. */
  lemma GetDoneFetched(s: State, window: nat, r: nat, id: string, f: nat, q: nat) returns (actions: seq<Action>)
    requires Ready(s, r, id, f) && Awaits(s, q, id) && s.job.Some? && s.job.value.phase.Fetched?
    requires IsOrder(s, s.job.value.seqNo) && !Poisoned(s)
    ensures Exec(s, window, actions).Some? && GotDone(s, Exec(s, window, actions).value, r, id, f, q)
  {
    actions := [HandlerUpsert(Failed, false)];
    ExecOne(s, window, HandlerUpsert(Failed, false));
    assert DoHandlerUpsert(s, Failed, false) == Some(s.(job := None));
  }

  lemma FromBusyHandler(s: State, window: nat, r: nat, id: string, f: nat, q: nat) returns (actions: seq<Action>)
    requires Ready(s, r, id, f) && Awaits(s, q, id) && !Poisoned(s)
    requires s.job.Some? ==> IsOrder(s, s.job.value.seqNo)
    ensures Exec(s, window, actions).Some? && Succeeded(Exec(s, window, actions).value, r)
  {
    if s.job.None? {
      actions := FromOrder(s, window, r, id, f, q);
    } else {
      var first;
      match s.job.value.phase {
        case Fetched => first := GetDoneFetched(s, window, r, id, f, q);
        case Upserted(_) => first := GetDoneUpserted(s, window, r, id, f, q);
        case Reported(_) => first := GetDoneReported(s, window, r, id, f, q);
      }
      var rest := FromOrder(Exec(s, window, first).value, window, r, id, f, q);
      actions := first + rest;
      ExecInParts(s, window, first, rest);
    }
  }

  /** Working off the watcher's batch, `r` gets its reply or is ready for a rescue that
      is still possible. */
  ghost predicate Drained(s: State, s': State, r: nat, id: string, f: nat) {
    && s' == s.(replies := s'.replies, inbox := [], reports := s'.reports)
    && ReportsSeen(s') && Listening(s', r, id, f) && !s'.replies.futures[f].state.Cancelled?
    && (s'.replies.futures[f].state.Pending? ==>
          f < |s.replies.futures| && s.replies.futures[f].state.Pending? && NothingHere(s, s', id))
  }

  /** The batch held nothing on `id`, and no report on it was used up. */
  ghost predicate NothingHere(s: State, s': State, id: string) {
    && (forall i :: 0 <= i < |s.inbox| ==> s.inbox[i].correlationId != Some(id))
    && (forall q :: ReportAt(s, q, id) && Deliverable(s.reports, q) ==> Deliverable(s'.reports, q))
  }

  lemma {:induction false} Drain(s: State, window: nat, r: nat, id: string, f: nat) returns (actions: seq<Action>)
    requires InboxOk(s) && RepliesOk(s) && RequestsOk(s)
    requires Listening(s, r, id, f) && !s.replies.futures[f].state.Cancelled?
    ensures Exec(s, window, actions).Some? && Drained(s, Exec(s, window, actions).value, r, id, f)
    decreases |s.inbox|
  {
    if s.inbox == [] {
      actions := [];
      assert s == s.(replies := s.replies, inbox := [], reports := s.reports);
    } else {
      var next := OneDrained(s, r, id, f);
      var rest := Drain(next, window, r, id, f);
      actions := [WatcherResolve(true)] + rest;
      ExecFirst(s, window, WatcherResolve(true), rest);
      OneMoreDrained(s, next, Exec(next, window, rest).value, r, id, f);
    }
  }

  lemma OneDrained(s: State, r: nat, id: string, f: nat) returns (next: State)
    requires InboxOk(s) && RepliesOk(s) && RequestsOk(s) && s.inbox != []
    requires Listening(s, r, id, f) && !s.replies.futures[f].state.Cancelled?
    ensures DoWatcherResolve(s, true) == Some(next) && |next.inbox| < |s.inbox|
    ensures InboxOk(next) && RepliesOk(next) && RequestsOk(next)
    ensures Listening(next, r, id, f) && !next.replies.futures[f].state.Cancelled?
    ensures next.replies.futures[f].state.Pending? ==>
              s.replies.futures[f].state.Pending? && s.inbox[0].correlationId != Some(id)
  {
    next := DoWatcherResolve(s, true).value;
    assert Genuine(s.stream.log, s.inbox[0]);
    WatcherKeepsInbox(s, 0, WatcherResolve(true));
    ResolveKeepsReplies(s, s.inbox[0]);
    ResolveReaches(s, id, f);
  }

  lemma OneMoreDrained(s: State, next: State, s': State, r: nat, id: string, f: nat)
    requires InboxOk(s) && s.inbox != [] && DoWatcherResolve(s, true) == Some(next)
    requires f < |s.replies.futures| && f < |next.replies.futures| && Drained(next, s', r, id, f)
    requires next.replies.futures[f].state.Pending? ==>
               s.replies.futures[f].state.Pending? && s.inbox[0].correlationId != Some(id)
    ensures Drained(s, s', r, id, f)
  {
    if s'.replies.futures[f].state.Pending? {
      MoreNothing(s, next, s', id);
    }
  }

  lemma MoreNothing(s: State, next: State, s': State, id: string)
    requires InboxOk(s) && s.inbox != [] && DoWatcherResolve(s, true) == Some(next)
    requires NothingHere(next, s', id) && s.inbox[0].correlationId != Some(id)
    ensures NothingHere(s, s', id)
  {
    assert Genuine(s.stream.log, s.inbox[0]);
    forall i | 0 <= i < |s.inbox| ensures s.inbox[i].correlationId != Some(id) {
      if i > 0 {
        assert next.inbox[i - 1] == s.inbox[i];
      }
    }
    forall q | ReportAt(s, q, id) && Deliverable(s.reports, q) ensures Deliverable(s'.reports, q) {
      assert q != s.inbox[0].seqNo && ReportAt(next, q, id) && Deliverable(next.reports, q);
    }
  }

  /** A listening request can be answered as long as there is hope. */
  lemma RescueWorks(s: State, window: nat, r: nat, id: string, f: nat) returns (actions: seq<Action>)
    requires Inv(s) && s.watching && Listening(s, r, id, f) && !s.replies.futures[f].state.Cancelled?
    requires s.replies.futures[f].state.Resolved? || Hope(s, id)
    ensures Exec(s, window, actions).Some? && Succeeded(Exec(s, window, actions).value, r)
  {
    var first := Drain(s, window, r, id, f);
    var rest := Finish(s, Exec(s, window, first).value, window, r, id, f);
    actions := first + rest;
    ExecInParts(s, window, first, rest);
  }

  lemma Finish(s: State, s': State, window: nat, r: nat, id: string, f: nat) returns (actions: seq<Action>)
    requires s.watching && HandlerOk(s) && Drained(s, s', r, id, f) && f < |s.replies.futures|
    requires s.replies.futures[f].state.Resolved? || Hope(s, id)
    ensures Exec(s', window, actions).Some? && Succeeded(Exec(s', window, actions).value, r)
  {
    if s'.replies.futures[f].state.Resolved? {
      actions := ResumeSucceeds(s', window, r, id, f);
    } else {
      actions := FromHope(s, s', window, r, id, f);
    }
  }

  lemma FromHope(s: State, s': State, window: nat, r: nat, id: string, f: nat) returns (actions: seq<Action>)
    requires s.watching && HandlerOk(s) && Drained(s, s', r, id, f) && f < |s.replies.futures|
    requires s'.replies.futures[f].state.Pending? && Hope(s, id)
    ensures Exec(s', window, actions).Some? && Succeeded(Exec(s', window, actions).value, r)
  {
    if q :| ReportAt(s, q, id) && Fetchable(s, s.reports, q) {
      actions := FromReport(s', window, r, id, f, q);
    } else if s.job.Some? && WillReport(s, s.job.value, id) {
      if s.job.value.phase.Upserted? {
        actions := FromUpserted(s', window, r, id, f);
      } else {
        actions := FromFetched(s', window, r, id, f);
      }
    } else {
      var q :| Awaits(s, q, id);
      assert Awaits(s', q, id) && !Poisoned(s');
      actions := FromBusyHandler(s', window, r, id, f, q);
    }
  }

  /** Some run from `s` answers `r` 200. */
  ghost predicate CanSucceed(s: State, window: nat, r: nat) {
    exists actions :: Exec(s, window, actions).Some? && Succeeded(Exec(s, window, actions).value, r)
  }

  /** A request whose deadline is ahead can still be answered 200 exactly when its reply
      is there, or the map leads to its future, the watcher is alive, and a report on
      its event can still reach the watcher. */
  lemma CanStillSucceedIff(s: State, window: nat, r: nat, id: string, f: nat)
    requires Inv(s) && r in s.requests && s.requests[r] == Waiting(id, f, false)
    ensures f < |s.replies.futures|
    ensures CanSucceed(s, window, r)
       <==> s.replies.futures[f].state.Resolved? || (Listening(s, r, id, f) && s.watching && Hope(s, id))
  {
    assert RequestOk(s, r, s.requests[r]);
    if s.replies.futures[f].state.Resolved? {
      var actions := ResumeSucceeds(s, window, r, id, f);
    } else if Listening(s, r, id, f) && s.watching && Hope(s, id) {
      var actions := RescueWorks(s, window, r, id, f);
    } else {
      DoomedUnlessListening(s, r, id, f);
      forall actions | Exec(s, window, actions).Some? ensures !Succeeded(Exec(s, window, actions).value, r) {
        DoomedTimesOut(s, window, actions, r, id, f);
      }
    }
  }

  lemma DoomedUnlessListening(s: State, r: nat, id: string, f: nat)
    requires Inv(s) && r in s.requests && s.requests[r] == Waiting(id, f, false) && f < |s.replies.futures|
    requires !s.replies.futures[f].state.Resolved? && !(Listening(s, r, id, f) && s.watching && Hope(s, id))
    ensures Doomed(s, f, id)
  {
    assert RequestOk(s, r, s.requests[r]);
    if !Listening(s, r, id, f) {
      forall k | k in s.replies.pending ensures s.replies.pending[k] != f {
      }
    }
  }
}
