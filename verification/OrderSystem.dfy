/** The synchronous order path as a step system: `create_order`
    (adapters/rest_api_service/rest_api_service/app.py), its reply watcher, the
    database write handler (adapters/db_adapter_mysql/db_adapter_mysql/
    write_handler.py) and the stream between them. Each step is the code between
    two awaits. Any number of requests interleave with the watcher and the handler,
    each consumer is delivered a message until it acknowledges it or the deliveries run
    out, and every remote call may fail before or after taking effect. An exception
    out of the watcher ends it for good; one out of the handler ends its process, and
    the next one draws a new key. */
module OrderSystem {
  import opened Basics
  import opened EventStream
  import opened OrderPayloads
  import opened Replies
  import Delivery

  const ORDER_CREATED := "events.orders.OrderCreated"
  const ORDER_PERSISTED := "events.orders.OrderPersisted"

  /** `reader`: the life of the write handler whose key the order was sealed for, if it was
      sealed for one. `readable`: the report was sealed for the key of the service. Events
      of other publishers share the stream. */
  datatype Message =
    | OrderCreated(eventId: string, body: Body, reader: Option<nat>)
    | OrderPersisted(eventId: string, correlationId: Option<string>, orderId: string, readable: bool)
    | OtherEvent(eventId: string)

  datatype Status = Accepted202 | Ok200(reply: Reply) | Timeout504 | Error500

  /** A request handler between its awaits. */
  datatype Request =
    | Sent(eventId: string)
    | Waiting(eventId: string, future: nat, timedOut: bool)
    | Answered(eventId: string, status: Status)

  datatype Phase = Fetched | Upserted(order: Order) | Reported(order: Order)

  /** The write handler's invocation, for one delivery of message `seqNo`. */
  datatype Job = Job(seqNo: nat, phase: Phase)

  datatype Commit = Commit(eventId: string, order: Order)

  /** A durable consumer's record: how often each message was delivered to it, and
      which ones it acknowledged. */
  datatype Consumer = Consumer(deliveries: map<nat, nat>, acked: set<nat>)

  function Count(c: Consumer, q: nat): (n: nat) {
    if q in c.deliveries then c.deliveries[q] else 0
  }

  /** Neither acknowledged nor out of deliveries. */
  predicate Deliverable(c: Consumer, q: nat) {
    q !in c.acked && Count(c, q) < Delivery.MAX_DELIVER_ATTEMPTS
  }

  function Delivered(c: Consumer, q: nat): (c': Consumer) {
    c.(deliveries := c.deliveries[q := Count(c, q) + 1])
  }

  /** `reached`: whether the acknowledgement gets to the server. */
  function Acked(c: Consumer, q: nat, reached: bool): (c': Consumer) {
    if reached then c.(acked := c.acked + {q}) else c
  }

  datatype State = State(
    stream: Stream<Message>,
    issued: set<string>,          // event ids ever generated
    requests: map<nat, Request>,
    replies: Correlations,
    watching: bool,               // the reply watcher's task is alive
    inbox: seq<Reply>,            // its current batch, not yet resolved
    reports: Consumer,            // the watcher's consumer, of OrderPersisted
    handling: bool,               // the write handler's process is alive
    life: nat,                    // how often it was started anew, each time with a new key
    job: Option<Job>,             // what it is at; it handles one delivery at a time
    table: Table,
    committed: seq<Commit>,       // every upsert committed, in order
    orders: Consumer)             // the write handler's consumer, of OrderCreated

  const NOTHING_DELIVERED := Consumer(map[], {})

  function Init(): (s: State) {
    State(EventStream.Empty(), {}, map[], NO_REPLIES, true, [], NOTHING_DELIVERED, true, 0, None, map[], [],
          NOTHING_DELIVERED)
  }

  /** How a remote call ends: with its effect and an answer, with neither, or with
      its effect but an error for an answer. */
  datatype Outcome = Done | Failed | DoneButFailed

  /** `reached`: the call took effect; `raised`: an exception gets out. */
  datatype Action =
    | Publish(r: nat, body: Body, key: Option<string>, wait: bool, id: string, now: nat, reader: Option<nat>,
              outcome: Outcome)
    | PublishOther(subject: string, id: string, key: Option<string>, now: nat)
    | Register(r: nat)
    | Timer(r: nat)
    | Resume(r: nat)
    | WatcherFetch(batch: seq<nat>)
    | WatcherMisses(seqNo: nat)
    | WatcherResolve(reached: bool)
    | WatcherDies
    | HandlerFetch(seqNo: nat)
    | HandlerMisses(seqNo: nat)
    | HandlerUpsert(outcome: Outcome, raised: bool)
    | HandlerPublish(id: string, now: nat, readable: bool, outcome: Outcome)
    | HandlerAck(reached: bool, raised: bool)
    | HandlerDies
    | HandlerStarts

  // ---- Requests -----------------------------------------------------------

  /** The publish of a new request: `a.id` is the fresh id of the envelope it built,
      the id it goes on with is that of the message the stream kept. It can be sealed for
      no key that is not drawn yet. */
  function DoPublish(s: State, window: nat, a: Action): (s': Option<State>)
    requires a.Publish?
  {
    if a.r in s.requests || a.id in s.issued || (a.reader.Some? && a.reader.value > s.life) then None
    else
      var sent := Append(s.stream, window, Call(a.now, ORDER_CREATED, a.key, OrderCreated(a.id, a.body, a.reader)));
      var stream := if a.outcome.Failed? then s.stream else sent.0;
      var original := GetMsg(sent.0, sent.1.seqNo);
      var request :=
        if !a.outcome.Done? || original.None? then Answered(a.id, Error500)
        else if a.wait then Sent(original.value.eventId)
        else Answered(original.value.eventId, Accepted202);
      Some(s.(stream := stream, issued := s.issued + {a.id}, requests := s.requests[a.r := request]))
  }

  /** A publish by anyone else, with a message id or without: deduplication is one for the
      whole stream. */
  function DoPublishOther(s: State, window: nat, a: Action): (s': Option<State>)
    requires a.PublishOther?
  {
    if a.id in s.issued then None
    else
      var sent := Append(s.stream, window, Call(a.now, a.subject, a.key, OtherEvent(a.id))).0;
      Some(s.(stream := sent, issued := s.issued + {a.id}))
  }

  function DoRegister(s: State, r: nat): (s': Option<State>) {
    if r !in s.requests || !s.requests[r].Sent? then None
    else
      var id := s.requests[r].eventId;
      Some(s.(replies := Replies.Register(s.replies, r, id),
              requests := s.requests[r := Waiting(id, |s.replies.futures|, false)]))
  }

  /** The deadline fires. */
  function DoTimer(s: State, r: nat): (s': Option<State>) {
    if r !in s.requests || !s.requests[r].Waiting? || s.requests[r].timedOut then None
    else
      var w := s.requests[r];
      Some(s.(replies := Expire(s.replies, w.future), requests := s.requests[r := w.(timedOut := true)]))
  }

  /** The handler wakes, unregisters and answers. A deadline that fired first wins,
      even over a reply that came before it. */
  function DoResume(s: State, r: nat): (s': Option<State>) {
    if r !in s.requests || !s.requests[r].Waiting? || s.requests[r].future >= |s.replies.futures| then None
    else
      var w := s.requests[r];
      var state := s.replies.futures[w.future].state;
      if !w.timedOut && !state.Resolved? then None
      else
        var status := if w.timedOut then Timeout504 else Ok200(state.reply);
        Some(s.(replies := Unregister(s.replies, w.eventId), requests := s.requests[r := Answered(w.eventId, status)]))
  }

  // ---- The reply watcher --------------------------------------------------

  predicate IsReply(s: State, q: nat) {
    q < |s.stream.log| && s.stream.log[q].data.OrderPersisted?
  }

  /** `fetch` can hand it out: it is sealed for the service, and can be delivered. */
  predicate Fetchable(s: State, c: Consumer, q: nat) {
    IsReply(s, q) && s.stream.log[q].data.readable && Deliverable(c, q)
  }

  function ReplyAt(s: State, q: nat): (e: Reply)
    requires IsReply(s, q)
  {
    Reply(q, s.stream.log[q].data.correlationId, s.stream.log[q].data.orderId)
  }

  /** The replies of a batch of deliveries, first or repeated, and the record after it. */
  function Taken(s: State, batch: seq<nat>): (r: Option<(seq<Reply>, Consumer)>) {
    if batch == [] then Some(([], s.reports))
    else
      var q := batch[|batch| - 1];
      match Taken(s, batch[..|batch| - 1])
      case None => None
      case Some((taken, c)) =>
        if Fetchable(s, c, q) then Some((taken + [ReplyAt(s, q)], Delivered(c, q))) else None
  }

  function DoWatcherFetch(s: State, batch: seq<nat>): (s': Option<State>) {
    if !s.watching || s.inbox != [] then None
    else
      match Taken(s, batch)
      case None => None
      case Some((taken, c)) => Some(s.(inbox := taken, reports := c))
  }

  /** A delivery `fetch` drops, because it cannot process it, ever or at the moment. */
  function DoWatcherMisses(s: State, q: nat): (s': Option<State>) {
    if !s.watching || !IsReply(s, q) || !Deliverable(s.reports, q) then None
    else Some(s.(reports := Delivered(s.reports, q)))
  }

  function DoWatcherResolve(s: State, reached: bool): (s': Option<State>) {
    if s.inbox == [] then None
    else Some(s.(replies := Resolve(s.replies, s.inbox[0]), inbox := s.inbox[1..],
                 reports := Acked(s.reports, s.inbox[0].seqNo, reached)))
  }

  /** An exception out of a fetch or an ack ends the watcher's task for good. */
  function DoWatcherDies(s: State): (s': Option<State>) {
    if s.watching then Some(s.(watching := false, inbox := [])) else None
  }

  // ---- The write handler --------------------------------------------------

  predicate IsOrder(s: State, q: nat) {
    q < |s.stream.log| && s.stream.log[q].data.OrderCreated?
  }

  /** The handler's process is gone, and what it was at. */
  function Died(s: State): (s': State) {
    s.(handling := false, job := None)
  }

  /** The running handler can decrypt the order. */
  predicate Readable(s: State, q: nat) {
    s.handling && IsOrder(s, q) && s.stream.log[q].data.reader == Some(s.life)
  }

  function DoHandlerFetch(s: State, q: nat): (s': Option<State>) {
    if s.job.Some? || !Readable(s, q) || !Deliverable(s.orders, q) then None
    else Some(s.(job := Some(Job(q, Fetched)), orders := Delivered(s.orders, q)))
  }

  /** A delivery `fetch` drops, or one fetched by a process that ends before handling it. */
  function DoHandlerMisses(s: State, q: nat): (s': Option<State>) {
    if !IsOrder(s, q) || !Deliverable(s.orders, q) then None else Some(s.(orders := Delivered(s.orders, q)))
  }

  /** Decode and upsert. A malformed payload is acked, a database error refused; what the
      decoder lets through raises. */
  function DoHandlerUpsert(s: State, outcome: Outcome, raised: bool): (s': Option<State>) {
    if s.job.None? || !s.job.value.phase.Fetched? || !IsOrder(s, s.job.value.seqNo) then None
    else
      var q := s.job.value.seqNo;
      var created := s.stream.log[q].data;
      match DecodeOrderCreated(created.body)
      case Failure(Uncaught) => Some(Died(s))
      case Failure(MalformedPayload) => Some(Ended(s.(orders := Acked(s.orders, q, !outcome.Failed?)), raised))
      case Success(order) =>
        var s1 := if outcome.Failed? then s
                  else s.(table := Upsert(s.table, order), committed := s.committed + [Commit(created.eventId, order)]);
        if outcome.Done? then Some(s1.(job := Some(Job(q, Upserted(order))))) else Some(Ended(s1, raised))
  }

  /** The invocation is over, the process with it if an exception gets out. */
  function Ended(s: State, raised: bool): (s': State) {
    if raised then Died(s) else s.(job := None)
  }

  /** Report the order under its event's id. A failed publish raises. */
  function DoHandlerPublish(s: State, window: nat, a: Action): (s': Option<State>)
    requires a.HandlerPublish?
  {
    if s.job.None? || !s.job.value.phase.Upserted? || s.job.value.seqNo >= |s.stream.log| || a.id in s.issued then None
    else
      var q, order := s.job.value.seqNo, s.job.value.phase.order;
      var m := OrderPersisted(a.id, Some(s.stream.log[q].data.eventId), order.orderId, a.readable);
      var sent := Append(s.stream, window, Call(a.now, ORDER_PERSISTED, None, m)).0;
      var s1 := s.(stream := if a.outcome.Failed? then s.stream else sent, issued := s.issued + {a.id});
      Some(if a.outcome.Done? then s1.(job := Some(Job(q, Reported(order)))) else Died(s1))
  }

  function DoHandlerAck(s: State, reached: bool, raised: bool): (s': Option<State>) {
    if s.job.None? || !s.job.value.phase.Reported? then None
    else Some(Ended(s.(orders := Acked(s.orders, s.job.value.seqNo, reached)), raised))
  }

  /** Started anew, the handler has a key no stored order is sealed for. */
  function DoHandlerStarts(s: State): (s': Option<State>) {
    if s.handling then None else Some(s.(handling := true, life := s.life + 1))
  }

  // ---- Runs ---------------------------------------------------------------

  function Step(s: State, window: nat, a: Action): (s': Option<State>) {
    match a
    case Publish(_, _, _, _, _, _, _, _) => DoPublish(s, window, a)
    case PublishOther(_, _, _, _) => DoPublishOther(s, window, a)
    case Register(r) => DoRegister(s, r)
    case Timer(r) => DoTimer(s, r)
    case Resume(r) => DoResume(s, r)
    case WatcherFetch(batch) => DoWatcherFetch(s, batch)
    case WatcherMisses(q) => DoWatcherMisses(s, q)
    case WatcherResolve(reached) => DoWatcherResolve(s, reached)
    case WatcherDies => DoWatcherDies(s)
    case HandlerFetch(q) => DoHandlerFetch(s, q)
    case HandlerMisses(q) => DoHandlerMisses(s, q)
    case HandlerUpsert(outcome, raised) => DoHandlerUpsert(s, outcome, raised)
    case HandlerPublish(_, _, _, _) => DoHandlerPublish(s, window, a)
    case HandlerAck(reached, raised) => DoHandlerAck(s, reached, raised)
    case HandlerDies => if s.handling then Some(Died(s)) else None
    case HandlerStarts => DoHandlerStarts(s)
  }

  /** The state after `actions`, if they can happen in this order from `s`. */
  function Exec(s: State, window: nat, actions: seq<Action>): (s': Option<State>) {
    if actions == [] then Some(s)
    else
      match Exec(s, window, actions[..|actions| - 1])
      case None => None
      case Some(before) => Step(before, window, actions[|actions| - 1])
  }

  lemma {:induction false} ExecInParts(s: State, window: nat, first: seq<Action>, second: seq<Action>)
    ensures Exec(s, window, first + second) ==
              match Exec(s, window, first)
              case None => None
              case Some(mid) => Exec(mid, window, second)
  {
    if second == [] {
      assert first + second == first;
    } else {
      var both := first + second;
      assert both[..|both| - 1] == first + second[..|second| - 1];
      ExecInParts(s, window, first, second[..|second| - 1]);
    }
  }

  lemma ExecOne(s: State, window: nat, a: Action)
    ensures Exec(s, window, [a]) == Step(s, window, a)
  {
    assert [a][..0] == [];
  }

  /** A run that begins with `a`. */
  lemma ExecFirst(s: State, window: nat, a: Action, rest: seq<Action>)
    requires Step(s, window, a).Some?
    ensures Exec(s, window, [a] + rest) == Exec(Step(s, window, a).value, window, rest)
  {
    ExecOne(s, window, a);
    ExecInParts(s, window, [a], rest);
  }

  /** A run that ends with `a`. */
  lemma ExecLast(s: State, window: nat, actions: seq<Action>, a: Action)
    requires Exec(s, window, actions).Some?
    ensures Exec(s, window, actions + [a]) == Step(Exec(s, window, actions).value, window, a)
  {
    var longer := actions + [a];
    assert longer[..|longer| - 1] == actions;
  }
}

/** What holds in every reachable state of the order path. */
module OrderSafety {
  import opened Basics
  import opened EventStream
  import opened OrderPayloads
  import opened Replies
  import opened OrderSystem

  type Log = seq<Stored<Message>>

  /** The OrderCreated stored under `id` carries exactly `order`. */
  ghost predicate CreatedAs(log: Log, id: string, order: Order) {
    exists q :: 0 <= q < |log| && CarriesOrder(log[q].data, id, order)
  }

  predicate CarriesOrder(m: Message, id: string, order: Order) {
    m.OrderCreated? && m.eventId == id && DecodeOrderCreated(m.body) == Success(order)
  }

  /** An event of this id is stored: an order, or another publisher's event that the same
      message id was used for. */
  ghost predicate HasEvent(log: Log, id: string) {
    exists q :: 0 <= q < |log| && !log[q].data.OrderPersisted? && log[q].data.eventId == id
  }

  /** A result for `id` naming `orderId` is in the stream. */
  ghost predicate Persisted(log: Log, id: string, orderId: string) {
    exists q :: 0 <= q < |log| && IsResult(log[q].data, id, orderId)
  }

  predicate IsResult(m: Message, id: string, orderId: string) {
    m.OrderPersisted? && m.correlationId == Some(id) && m.orderId == orderId
  }

  /** An upsert of an order named `orderId` was committed for `id`. */
  ghost predicate Backed(committed: seq<Commit>, id: string, orderId: string) {
    exists i :: 0 <= i < |committed| && committed[i].eventId == id && committed[i].order.orderId == orderId
  }

  /** The reply is a report in the stream, sealed for the service. */
  predicate Genuine(log: Log, e: Reply) {
    e.seqNo < |log| && log[e.seqNo].data.OrderPersisted? && log[e.seqNo].data.readable
    && log[e.seqNo].data.correlationId == e.correlationId && log[e.seqNo].data.orderId == e.orderId
  }

  // ---- The invariant, part by part ----------------------------------------

  /** Event ids are unique, reports are published without a message id, and no order is
      sealed for a key not drawn yet. */
  ghost predicate StreamOk(s: State) {
    && s.stream.first == 0
    && (forall m :: m in s.stream.dedup ==> s.stream.dedup[m] < |s.stream.log| && !IsReply(s, s.stream.dedup[m]))
    && (forall q: nat :: IsOrder(s, q) && s.stream.log[q].data.reader.Some? ==>
          s.stream.log[q].data.reader.value <= s.life)
    && (forall q :: 0 <= q < |s.stream.log| ==> s.stream.log[q].data.eventId in s.issued)
    && (forall p, q :: 0 <= p < q < |s.stream.log| ==> s.stream.log[p].data.eventId != s.stream.log[q].data.eventId)
  }

  /** Only stored orders are ever committed, and the table is what they leave. */
  ghost predicate CommitsOk(s: State) {
    && (forall i :: 0 <= i < |s.committed| ==> CreatedAs(s.stream.log, s.committed[i].eventId, s.committed[i].order))
    && s.table == UpsertAll(OrdersOf(s.committed))
  }

  function OrdersOf(committed: seq<Commit>): (o: seq<Order>)
    ensures |o| == |committed|
  {
    seq(|committed|, i requires 0 <= i < |committed| => committed[i].order)
  }

  /** Every result in the stream has a committed upsert behind it. */
  ghost predicate ResultsOk(s: State) {
    forall q :: 0 <= q < |s.stream.log| && s.stream.log[q].data.OrderPersisted? ==>
      && s.stream.log[q].data.correlationId.Some?
      && Backed(s.committed, s.stream.log[q].data.correlationId.value, s.stream.log[q].data.orderId)
  }

  /** The invocation has done what its phase says. */
  ghost predicate JobOk(s: State, job: Job) {
    && IsOrder(s, job.seqNo)
    && (!job.phase.Fetched? ==> Commit(s.stream.log[job.seqNo].data.eventId, job.phase.order) in s.committed)
    && (job.phase.Reported? ==> Persisted(s.stream.log, s.stream.log[job.seqNo].data.eventId, job.phase.order.orderId))
  }

  ghost predicate HandlerOk(s: State) {
    s.job.Some? ==> s.handling && JobOk(s, s.job.value)
  }

  /** An acked OrderCreated was malformed, or committed and reported. */
  ghost predicate AckOk(s: State, q: nat) {
    && IsOrder(s, q)
    && (DecodeOrderCreated(s.stream.log[q].data.body) == Failure(MalformedPayload) ||
        exists o :: Commit(s.stream.log[q].data.eventId, o) in s.committed &&
                    Persisted(s.stream.log, s.stream.log[q].data.eventId, o.orderId))
  }

  ghost predicate AcksOk(s: State) {
    forall q :: q in s.orders.acked ==> AckOk(s, q)
  }

  /** Only what is in the stream was ever delivered to the watcher or acked by it; the
      watcher's batch is genuine, and gone with it. */
  ghost predicate InboxOk(s: State) {
    && (forall i :: 0 <= i < |s.inbox| ==> Genuine(s.stream.log, s.inbox[i]))
    && (!s.watching ==> s.inbox == [])
    && (forall q :: q in s.reports.deliveries ==> q < |s.stream.log|)
    && (forall q :: q in s.reports.acked ==> q < |s.stream.log|)
  }

  /** Every entry of the correlation map leads to a request still in its wait, and
      futures hold genuine replies to their own id. */
  ghost predicate RepliesOk(s: State) {
    && (forall id :: id in s.replies.pending ==>
          var f := s.replies.pending[id];
          && f < |s.replies.futures| && s.replies.futures[f].eventId == id
          && s.replies.futures[f].owner in s.requests
          && s.requests[s.replies.futures[f].owner].Waiting?
          && s.requests[s.replies.futures[f].owner].future == f)
    && (forall f :: 0 <= f < |s.replies.futures| && s.replies.futures[f].state.Resolved? ==>
          Genuine(s.stream.log, s.replies.futures[f].state.reply)
          && s.replies.futures[f].state.reply.correlationId == Some(s.replies.futures[f].eventId))
  }

  ghost predicate RequestOk(s: State, r: nat, q: Request) {
    match q
    case Sent(id) => HasEvent(s.stream.log, id)
    case Waiting(id, f, timedOut) =>
      && HasEvent(s.stream.log, id) && f < |s.replies.futures|
      && s.replies.futures[f].owner == r && s.replies.futures[f].eventId == id
      && (s.replies.futures[f].state.Cancelled? ==> timedOut)
    case Answered(id, status) =>
      && (status.Ok200? ==> Genuine(s.stream.log, status.reply) && status.reply.correlationId == Some(id))
      && (!status.Error500? ==> HasEvent(s.stream.log, id))
  }

  ghost predicate RequestsOk(s: State) {
    forall r :: r in s.requests ==> RequestOk(s, r, s.requests[r])
  }

  ghost predicate Inv(s: State) {
    && StreamOk(s) && CommitsOk(s) && ResultsOk(s) && HandlerOk(s) && AcksOk(s)
    && InboxOk(s) && RepliesOk(s) && RequestsOk(s)
  }

  // ---- Preservation -------------------------------------------------------

  /** The stream and the commits only grow. */
  ghost predicate Grows(s: State, s': State) {
    s.stream.log <= s'.stream.log && s.committed <= s'.committed
  }

  lemma FactsPersist(s: State, s': State)
    requires Grows(s, s')
    ensures forall id, o :: CreatedAs(s.stream.log, id, o) ==> CreatedAs(s'.stream.log, id, o)
    ensures forall id :: HasEvent(s.stream.log, id) ==> HasEvent(s'.stream.log, id)
    ensures forall id, o :: Persisted(s.stream.log, id, o) ==> Persisted(s'.stream.log, id, o)
    ensures forall id, o :: Backed(s.committed, id, o) ==> Backed(s'.committed, id, o)
    ensures forall c :: c in s.committed ==> c in s'.committed
    ensures forall e :: Genuine(s.stream.log, e) ==> Genuine(s'.stream.log, e)
  {
    forall id, o | CreatedAs(s.stream.log, id, o) ensures CreatedAs(s'.stream.log, id, o) {
      var q :| 0 <= q < |s.stream.log| && CarriesOrder(s.stream.log[q].data, id, o);
      assert CarriesOrder(s'.stream.log[q].data, id, o);
    }
    forall id | HasEvent(s.stream.log, id) ensures HasEvent(s'.stream.log, id) {
      var q :| 0 <= q < |s.stream.log| && !s.stream.log[q].data.OrderPersisted? && s.stream.log[q].data.eventId == id;
      assert s'.stream.log[q] == s.stream.log[q];
    }
    forall id, o | Persisted(s.stream.log, id, o) ensures Persisted(s'.stream.log, id, o) {
      var q :| 0 <= q < |s.stream.log| && IsResult(s.stream.log[q].data, id, o);
      assert IsResult(s'.stream.log[q].data, id, o);
    }
    forall id, o | Backed(s.committed, id, o) ensures Backed(s'.committed, id, o) {
      var i :| 0 <= i < |s.committed| && s.committed[i].eventId == id && s.committed[i].order.orderId == o;
      assert s'.committed[i] == s.committed[i];
    }
  }

  /** What does not mention requests, replies or the watcher survives any growth that
      keeps the stream, the commits and the results in order. */
  lemma FrameOfGrowth(s: State, s': State)
    requires Inv(s) && Grows(s, s') && s'.replies == s.replies
    requires s'.inbox == s.inbox && s'.watching == s.watching && s'.reports == s.reports
    ensures InboxOk(s')
    ensures forall r :: r in s.requests ==> RequestOk(s', r, s.requests[r])
    ensures s.job.Some? ==> s.handling && JobOk(s', s.job.value)
    ensures forall q :: q in s.orders.acked ==> AckOk(s', q)
  {
    FactsPersist(s, s');
    forall r | r in s.requests ensures RequestOk(s', r, s.requests[r]) {
      assert RequestOk(s, r, s.requests[r]);
    }
    forall q | q in s.orders.acked ensures AckOk(s', q) {
      assert AckOk(s, q);
    }
  }

  /** The stream as it was, or with one new message `m` at its end. */
  ghost predicate Stores(s: State, s': State, m: Message) {
    && s'.stream.first == s.stream.first && s.issued <= s'.issued && s.life <= s'.life
    && (s'.stream == s.stream ||
        (&& |s'.stream.log| == |s.stream.log| + 1 && s'.stream.log[..|s.stream.log|] == s.stream.log
         && s'.stream.log[|s.stream.log|].data == m
         && m.eventId !in s.issued && m.eventId in s'.issued
         && (m.OrderCreated? && m.reader.Some? ==> m.reader.value <= s'.life)
         && (forall k :: k in s'.stream.dedup ==>
               || (k in s.stream.dedup && s'.stream.dedup[k] == s.stream.dedup[k])
               || (s'.stream.dedup[k] == |s.stream.log| && !m.OrderPersisted?))))
  }

  lemma StoredAt(s: State, s': State, m: Message, q: nat)
    requires Stores(s, s', m) && q < |s.stream.log|
    ensures q < |s'.stream.log| && s'.stream.log[q] == s.stream.log[q]
  {
    assert s'.stream == s.stream || s'.stream.log[..|s.stream.log|][q] == s'.stream.log[q];
  }

  lemma StoringKeepsStream(s: State, s': State, m: Message)
    requires StreamOk(s) && Stores(s, s', m)
    ensures StreamOk(s') && s.stream.log <= s'.stream.log
  {
    if s'.stream != s.stream {
      forall q: nat | q < |s.stream.log| ensures s'.stream.log[q] == s.stream.log[q] {
        StoredAt(s, s', m, q);
      }
    }
  }

  lemma PublishKeepsStream(s: State, window: nat, a: Action)
    requires a.Publish? && StreamOk(s) && DoPublish(s, window, a).Some?
    ensures StreamOk(DoPublish(s, window, a).value) && Grows(s, DoPublish(s, window, a).value)
  {
    StoringKeepsStream(s, DoPublish(s, window, a).value, OrderCreated(a.id, a.body, a.reader));
  }

  lemma PublishKeepsResults(s: State, window: nat, a: Action)
    requires a.Publish? && ResultsOk(s) && DoPublish(s, window, a).Some?
    ensures ResultsOk(DoPublish(s, window, a).value)
  {
    var s' := DoPublish(s, window, a).value;
    forall q | 0 <= q < |s'.stream.log| && s'.stream.log[q].data.OrderPersisted?
      ensures q < |s.stream.log| && s'.stream.log[q] == s.stream.log[q]
    {
    }
  }

  lemma PublishedIsStored(s: State, window: nat, a: Action)
    requires a.Publish? && Inv(s) && DoPublish(s, window, a).Some?
    ensures var s' := DoPublish(s, window, a).value;
            RequestOk(s', a.r, s'.requests[a.r]) && !s'.requests[a.r].Waiting?
  {
    var call := Call(a.now, ORDER_CREATED, a.key, OrderCreated(a.id, a.body, a.reader));
    var sent := Append(s.stream, window, call);
    assert !sent.0.log[sent.1.seqNo].data.OrderPersisted?;
  }

  lemma PublishKeepsInv(s: State, window: nat, a: Action)
    requires a.Publish? && Inv(s) && DoPublish(s, window, a).Some?
    ensures Inv(DoPublish(s, window, a).value)
  {
    var s' := DoPublish(s, window, a).value;
    PublishKeepsStream(s, window, a);
    PublishKeepsResults(s, window, a);
    PublishedIsStored(s, window, a);
    FactsPersist(s, s');
    FrameOfGrowth(s, s');
  }

  lemma OtherKeepsStream(s: State, window: nat, a: Action)
    requires a.PublishOther? && StreamOk(s) && DoPublishOther(s, window, a).Some?
    ensures StreamOk(DoPublishOther(s, window, a).value) && Grows(s, DoPublishOther(s, window, a).value)
  {
    StoringKeepsStream(s, DoPublishOther(s, window, a).value, OtherEvent(a.id));
  }

  lemma OtherKeepsInv(s: State, window: nat, a: Action)
    requires a.PublishOther? && Inv(s) && DoPublishOther(s, window, a).Some?
    ensures Inv(DoPublishOther(s, window, a).value)
  {
    var s' := DoPublishOther(s, window, a).value;
    OtherKeepsStream(s, window, a);
    forall q | 0 <= q < |s'.stream.log| && s'.stream.log[q].data.OrderPersisted?
      ensures q < |s.stream.log| && s'.stream.log[q] == s.stream.log[q]
    {
    }
    FactsPersist(s, s');
    FrameOfGrowth(s, s');
  }

  /** Requests and the watcher work on requests, replies and the watcher's own state. */
  lemma FrameOfReplies(s: State, s': State)
    requires Inv(s)
    requires s' == s.(requests := s'.requests, replies := s'.replies, watching := s'.watching, inbox := s'.inbox,
                      reports := s'.reports)
    ensures StreamOk(s') && CommitsOk(s') && ResultsOk(s') && HandlerOk(s') && AcksOk(s')
  {
    forall q | q in s'.orders.acked ensures AckOk(s', q) {
      assert AckOk(s, q);
    }
  }

  lemma RegisterKeepsInv(s: State, r: nat)
    requires Inv(s) && DoRegister(s, r).Some?
    ensures Inv(DoRegister(s, r).value)
  {
    var s' := DoRegister(s, r).value;
    FrameOfReplies(s, s');
    RegisterKeepsRequests(s, r);
    RegisterKeepsReplies(s, r);
  }

  lemma RegisterKeepsRequests(s: State, r: nat)
    requires RequestsOk(s) && DoRegister(s, r).Some?
    ensures RequestsOk(DoRegister(s, r).value)
  {
    var s' := DoRegister(s, r).value;
    assert RequestOk(s, r, s.requests[r]);
    forall k | k in s'.requests ensures RequestOk(s', k, s'.requests[k]) {
      if k != r {
        assert RequestOk(s, k, s.requests[k]);
      }
    }
  }

  lemma RegisterKeepsReplies(s: State, r: nat)
    requires RepliesOk(s) && DoRegister(s, r).Some?
    ensures RepliesOk(DoRegister(s, r).value)
  {
  }

  lemma TimerKeepsInv(s: State, r: nat)
    requires Inv(s) && DoTimer(s, r).Some?
    ensures Inv(DoTimer(s, r).value)
  {
    FrameOfReplies(s, DoTimer(s, r).value);
    TimerKeepsRequests(s, r);
    TimerKeepsReplies(s, r);
  }

  lemma TimerKeepsRequests(s: State, r: nat)
    requires RequestsOk(s) && DoTimer(s, r).Some?
    ensures RequestsOk(DoTimer(s, r).value)
  {
    var s' := DoTimer(s, r).value;
    assert RequestOk(s, r, s.requests[r]);
    forall k | k in s'.requests ensures RequestOk(s', k, s'.requests[k]) {
      assert RequestOk(s, k, s.requests[k]);
    }
  }

  lemma TimerKeepsReplies(s: State, r: nat)
    requires RepliesOk(s) && DoTimer(s, r).Some?
    ensures RepliesOk(DoTimer(s, r).value)
  {
  }

  lemma ResumeKeepsInv(s: State, r: nat)
    requires Inv(s) && DoResume(s, r).Some?
    ensures Inv(DoResume(s, r).value)
  {
    var s' := DoResume(s, r).value;
    FrameOfReplies(s, s');
    forall k | k in s'.requests ensures RequestOk(s', k, s'.requests[k]) {
      assert RequestOk(s, k, s.requests[k]);
    }
    ResumeKeepsReplies(s, r);
  }

  lemma ResumeKeepsReplies(s: State, r: nat)
    requires RepliesOk(s) && RequestsOk(s) && DoResume(s, r).Some?
    ensures RepliesOk(DoResume(s, r).value)
  {
    assert RequestOk(s, r, s.requests[r]);
  }

  /** A taken batch is genuine, was deliverable, and only adds to the record. */
  lemma {:induction false} TakenIsGenuine(s: State, batch: seq<nat>)
    requires Taken(s, batch).Some?
    ensures var (taken, c) := Taken(s, batch).value;
            && |taken| == |batch| && c.acked == s.reports.acked
            && (forall i :: 0 <= i < |taken| ==>
                  Genuine(s.stream.log, taken[i]) && taken[i].seqNo == batch[i] && Fetchable(s, s.reports, batch[i]))
            && (forall q :: q in c.deliveries ==> q in s.reports.deliveries || q < |s.stream.log|)
            && (forall q :: Count(c, q) >= Count(s.reports, q))
  {
    if batch != [] {
      TakenIsGenuine(s, batch[..|batch| - 1]);
    }
  }

  lemma WatcherKeepsInbox(s: State, window: nat, a: Action)
    requires InboxOk(s) && (a.WatcherFetch? || a.WatcherMisses? || a.WatcherResolve? || a.WatcherDies?)
    requires Step(s, window, a).Some?
    ensures InboxOk(Step(s, window, a).value)
  {
    match a {
      case WatcherFetch(batch) => TakenIsGenuine(s, batch);
      case WatcherResolve(_) =>
        assert Genuine(s.stream.log, s.inbox[0]);
        assert forall i :: 0 <= i < |s.inbox[1..]| ==> s.inbox[1..][i] == s.inbox[i + 1];
      case _ =>
    }
  }

  lemma WatcherLeaves(s: State, window: nat, a: Action)
    requires (a.WatcherFetch? || a.WatcherMisses? || a.WatcherResolve? || a.WatcherDies?) && Step(s, window, a).Some?
    ensures var s' := Step(s, window, a).value;
            && s' == s.(replies := s'.replies, watching := s'.watching, inbox := s'.inbox, reports := s'.reports)
            && (a.WatcherResolve? ==> s.inbox != [] && s'.replies == Resolve(s.replies, s.inbox[0]))
            && (!a.WatcherResolve? ==> s'.replies == s.replies)
  {
  }

  lemma WatcherKeepsInv(s: State, window: nat, a: Action)
    requires Inv(s) && (a.WatcherFetch? || a.WatcherMisses? || a.WatcherResolve? || a.WatcherDies?)
    requires Step(s, window, a).Some?
    ensures Inv(Step(s, window, a).value)
  {
    var s' := Step(s, window, a).value;
    WatcherLeaves(s, window, a);
    FrameOfReplies(s, s');
    WatcherKeepsInbox(s, window, a);
    WatcherKeepsRequests(s, s', if a.WatcherResolve? then Some(s.inbox[0]) else None);
  }

  lemma WatcherKeepsRequests(s: State, s': State, consumed: Option<Reply>)
    requires RepliesOk(s) && RequestsOk(s) && s'.requests == s.requests && s'.stream == s.stream
    requires s'.replies == match consumed case None => s.replies case Some(reply) => Resolve(s.replies, reply)
    requires consumed.Some? ==> Genuine(s.stream.log, consumed.value)
    ensures RepliesOk(s') && RequestsOk(s')
  {
    if consumed.Some? {
      ResolveKeepsReplies(s, consumed.value);
      var resolved := s.(replies := s'.replies);
      forall k | k in s'.requests ensures RequestOk(s', k, s'.requests[k]) {
        assert RequestOk(resolved, k, resolved.requests[k]);
      }
    } else {
      forall k | k in s'.requests ensures RequestOk(s', k, s'.requests[k]) {
        assert RequestOk(s, k, s.requests[k]);
      }
    }
  }

  lemma ResolveKeepsReplies(s: State, reply: Reply)
    requires RepliesOk(s) && RequestsOk(s) && Genuine(s.stream.log, reply)
    ensures RepliesOk(s.(replies := Resolve(s.replies, reply)))
    ensures RequestsOk(s.(replies := Resolve(s.replies, reply)))
  {
    var s' := s.(replies := Resolve(s.replies, reply));
    forall k | k in s'.requests ensures RequestOk(s', k, s'.requests[k]) {
      assert RequestOk(s, k, s.requests[k]);
    }
  }

  lemma CommitKeepsOrder(s: State, s': State, c: Commit)
    requires CommitsOk(s) && CreatedAs(s.stream.log, c.eventId, c.order)
    requires s'.stream == s.stream && s'.committed == s.committed + [c] && s'.table == Upsert(s.table, c.order)
    ensures CommitsOk(s')
  {
    assert OrdersOf(s'.committed)[..|s.committed|] == OrdersOf(s.committed);
  }

  /** What an upsert does to the database: nothing, or it commits the order. */
  lemma UpsertCommits(s: State, outcome: Outcome, raised: bool)
    requires DoHandlerUpsert(s, outcome, raised).Some?
    ensures var s', created := DoHandlerUpsert(s, outcome, raised).value, s.stream.log[s.job.value.seqNo].data;
            s'.stream == s.stream &&
            ((s'.table == s.table && s'.committed == s.committed) ||
             (DecodeOrderCreated(created.body).Success? &&
              var order := DecodeOrderCreated(created.body).value;
              s'.table == Upsert(s.table, order) && s'.committed == s.committed + [Commit(created.eventId, order)]))
  {
  }

  lemma UpsertKeepsCommits(s: State, outcome: Outcome, raised: bool)
    requires CommitsOk(s) && DoHandlerUpsert(s, outcome, raised).Some?
    ensures CommitsOk(DoHandlerUpsert(s, outcome, raised).value) && Grows(s, DoHandlerUpsert(s, outcome, raised).value)
  {
    var s', created := DoHandlerUpsert(s, outcome, raised).value, s.stream.log[s.job.value.seqNo].data;
    UpsertCommits(s, outcome, raised);
    if DecodeOrderCreated(created.body).Success? {
      var order := DecodeOrderCreated(created.body).value;
      assert CarriesOrder(created, created.eventId, order);
      if s'.committed == s.committed + [Commit(created.eventId, order)] && s'.table == Upsert(s.table, order) {
        CommitKeepsOrder(s, s', Commit(created.eventId, order));
      }
    }
  }

  /** What an upsert leaves alone. */
  lemma UpsertLeaves(s: State, outcome: Outcome, raised: bool)
    requires DoHandlerUpsert(s, outcome, raised).Some?
    ensures var s' := DoHandlerUpsert(s, outcome, raised).value;
            s' == s.(handling := s'.handling, job := s'.job, table := s'.table, committed := s'.committed,
                     orders := s'.orders)
  {
  }

  lemma UpsertKeepsInv(s: State, outcome: Outcome, raised: bool)
    requires Inv(s) && DoHandlerUpsert(s, outcome, raised).Some?
    ensures Inv(DoHandlerUpsert(s, outcome, raised).value)
  {
    var s' := DoHandlerUpsert(s, outcome, raised).value;
    UpsertLeaves(s, outcome, raised);
    UpsertKeepsCommits(s, outcome, raised);
    UpsertKeepsHandler(s, outcome, raised);
    RestSurvivesGrowth(s, s');
  }

  /** The parts of the invariant that a handler step cannot touch. */
  lemma RestSurvivesGrowth(s: State, s': State)
    requires Inv(s) && Grows(s, s')
    requires s' == s.(handling := s'.handling, life := s'.life, job := s'.job, table := s'.table,
                      committed := s'.committed, orders := s'.orders)
    requires s.life <= s'.life
    ensures StreamOk(s') && ResultsOk(s') && InboxOk(s') && RepliesOk(s') && RequestsOk(s')
  {
    FactsPersist(s, s');
    FrameOfGrowth(s, s');
  }

  lemma UpsertKeepsHandler(s: State, outcome: Outcome, raised: bool)
    requires Inv(s) && DoHandlerUpsert(s, outcome, raised).Some?
    requires Grows(s, DoHandlerUpsert(s, outcome, raised).value)
    ensures HandlerOk(DoHandlerUpsert(s, outcome, raised).value) && AcksOk(DoHandlerUpsert(s, outcome, raised).value)
  {
    var s' := DoHandlerUpsert(s, outcome, raised).value;
    UpsertLeaves(s, outcome, raised);
    FrameOfGrowth(s, s');
    forall q | q in s'.orders.acked ensures AckOk(s', q) {
    }
  }

  /** The report a publish of the handler is about. */
  function ReportOf(s: State, a: Action): (m: Message)
    requires a.HandlerPublish? && s.job.Some? && s.job.value.phase.Upserted? && s.job.value.seqNo < |s.stream.log|
  {
    var job := s.job.value;
    OrderPersisted(a.id, Some(s.stream.log[job.seqNo].data.eventId), job.phase.order.orderId, a.readable)
  }

  /** The handler's publish, by what it changes. */
  ghost predicate Reporting(s: State, s': State, a: Action) {
    && a.HandlerPublish? && s.job.Some? && s.job.value.phase.Upserted? && s.job.value.seqNo < |s.stream.log|
    && s' == s.(stream := s'.stream, issued := s'.issued, handling := s'.handling, job := s'.job)
    && Stores(s, s', ReportOf(s, a)) && (s'.stream == s.stream <==> a.outcome.Failed?)
    && (if a.outcome.Done?
        then s'.handling == s.handling && s'.job == Some(Job(s.job.value.seqNo, Reported(s.job.value.phase.order)))
        else !s'.handling && s'.job.None?)
  }

  lemma PublishIsReporting(s: State, window: nat, a: Action)
    requires a.HandlerPublish? && DoHandlerPublish(s, window, a).Some?
    ensures Reporting(s, DoHandlerPublish(s, window, a).value, a)
  {
    var s' := DoHandlerPublish(s, window, a).value;
    assert |s'.stream.log| == |s.stream.log| + 1 ==> s'.stream != s.stream;
  }

  lemma ReportIsPersisted(s: State, s': State, a: Action)
    requires Reporting(s, s', a) && !a.outcome.Failed?
    ensures Persisted(s'.stream.log, s.stream.log[s.job.value.seqNo].data.eventId, s.job.value.phase.order.orderId)
  {
    assert IsResult(s'.stream.log[|s.stream.log|].data, s.stream.log[s.job.value.seqNo].data.eventId,
                    s.job.value.phase.order.orderId);
  }

  lemma ReportKeepsResults(s: State, s': State, a: Action)
    requires HandlerOk(s) && ResultsOk(s) && Reporting(s, s', a)
    ensures ResultsOk(s')
  {
    var created, order := s.stream.log[s.job.value.seqNo].data, s.job.value.phase.order;
    assert Backed(s.committed, created.eventId, order.orderId) by {
      var i :| 0 <= i < |s.committed| && s.committed[i] == Commit(created.eventId, order);
    }
    forall q: nat | q < |s'.stream.log| && s'.stream.log[q].data.OrderPersisted?
      ensures s'.stream.log[q].data.correlationId.Some?
      ensures Backed(s'.committed, s'.stream.log[q].data.correlationId.value, s'.stream.log[q].data.orderId)
    {
      if q < |s.stream.log| {
        StoredAt(s, s', ReportOf(s, a), q);
      }
    }
  }

  lemma ReportKeepsInv(s: State, window: nat, a: Action)
    requires a.HandlerPublish? && Inv(s) && DoHandlerPublish(s, window, a).Some?
    ensures Inv(DoHandlerPublish(s, window, a).value)
  {
    PublishIsReporting(s, window, a);
    ReportingKeepsInv(s, DoHandlerPublish(s, window, a).value, a);
  }

  lemma ReportingKeepsInv(s: State, s': State, a: Action)
    requires Inv(s) && Reporting(s, s', a)
    ensures Inv(s')
  {
    StoringKeepsStream(s, s', ReportOf(s, a));
    ReportKeepsResults(s, s', a);
    FactsPersist(s, s');
    FrameOfGrowth(s, s');
    if !a.outcome.Failed? {
      ReportIsPersisted(s, s', a);
    }
  }

  /** Steps of the handler that leave stream, table and commits alone. */
  predicate IsQuiet(a: Action) {
    a.HandlerFetch? || a.HandlerMisses? || a.HandlerAck? || a.HandlerDies? || a.HandlerStarts?
  }

  lemma QuietLeaves(s: State, window: nat, a: Action)
    requires IsQuiet(a) && Step(s, window, a).Some?
    ensures var s' := Step(s, window, a).value;
            && s' == s.(handling := s'.handling, life := s'.life, job := s'.job, orders := s'.orders)
            && s.life <= s'.life
  {
  }

  lemma AckKeepsHandler(s: State, reached: bool, raised: bool)
    requires Inv(s) && DoHandlerAck(s, reached, raised).Some?
    ensures HandlerOk(DoHandlerAck(s, reached, raised).value) && AcksOk(DoHandlerAck(s, reached, raised).value)
  {
    var s' := DoHandlerAck(s, reached, raised).value;
    var q, o := s.job.value.seqNo, s.job.value.phase.order;
    assert Commit(s.stream.log[q].data.eventId, o) in s.committed;
    forall p | p in s'.orders.acked ensures AckOk(s', p) {
      if p in s.orders.acked {
        assert AckOk(s, p);
      }
    }
  }

  lemma QuietKeepsHandler(s: State, window: nat, a: Action)
    requires Inv(s) && IsQuiet(a) && Step(s, window, a).Some?
    ensures HandlerOk(Step(s, window, a).value) && AcksOk(Step(s, window, a).value)
  {
    var s' := Step(s, window, a).value;
    if a.HandlerAck? {
      AckKeepsHandler(s, a.reached, a.raised);
    } else {
      QuietLeaves(s, window, a);
      forall q | q in s'.orders.acked ensures AckOk(s', q) {
        assert AckOk(s, q);
      }
    }
  }

  lemma QuietKeepsInv(s: State, window: nat, a: Action)
    requires Inv(s) && IsQuiet(a) && Step(s, window, a).Some?
    ensures Inv(Step(s, window, a).value)
  {
    QuietLeaves(s, window, a);
    QuietKeepsHandler(s, window, a);
    RestSurvivesGrowth(s, Step(s, window, a).value);
  }

  lemma StepKeepsInv(s: State, window: nat, a: Action)
    requires Inv(s) && Step(s, window, a).Some?
    ensures Inv(Step(s, window, a).value)
  {
    if IsQuiet(a) {
      QuietKeepsInv(s, window, a);
    } else {
      match a {
        case Publish(_, _, _, _, _, _, _, _) => PublishKeepsInv(s, window, a);
        case PublishOther(_, _, _, _) => OtherKeepsInv(s, window, a);
        case Register(r) => RegisterKeepsInv(s, r);
        case Timer(r) => TimerKeepsInv(s, r);
        case Resume(r) => ResumeKeepsInv(s, r);
        case HandlerUpsert(outcome, raised) => UpsertKeepsInv(s, outcome, raised);
        case HandlerPublish(_, _, _, _) => ReportKeepsInv(s, window, a);
        case WatcherFetch(_) => WatcherKeepsInv(s, window, a);
        case WatcherMisses(_) => WatcherKeepsInv(s, window, a);
        case WatcherResolve(_) => WatcherKeepsInv(s, window, a);
        case WatcherDies => WatcherKeepsInv(s, window, a);
      }
    }
  }

  lemma {:induction false} RunKeepsInv(s: State, window: nat, actions: seq<Action>)
    requires Inv(s) && Exec(s, window, actions).Some?
    ensures Inv(Exec(s, window, actions).value)
  {
    if actions != [] {
      RunKeepsInv(s, window, actions[..|actions| - 1]);
      StepKeepsInv(Exec(s, window, actions[..|actions| - 1]).value, window, actions[|actions| - 1]);
    }
  }

  lemma InitIsOk()
    ensures Inv(Init())
  {
    assert OrdersOf([]) == [];
  }

  // ---- Consequences for whole runs ----------------------------------------

  /** What an OrderCreated event of this id says, in state `s`. */
  ghost predicate OnlyOrderOf(s: State, id: string, order: Order) {
    && CreatedAs(s.stream.log, id, order)
    && (forall q :: 0 <= q < |s.stream.log| && s.stream.log[q].data.eventId == id ==>
          CarriesOrder(s.stream.log[q].data, id, order))
  }

  lemma AnswerIsBacked(s: State, id: string, reply: Reply)
    requires Inv(s) && Genuine(s.stream.log, reply) && reply.correlationId == Some(id)
    ensures exists order ::
              Commit(id, order) in s.committed && OnlyOrderOf(s, id, order) && order.orderId == reply.orderId
  {
    assert Backed(s.committed, id, reply.orderId);
    var i :| 0 <= i < |s.committed| && s.committed[i].eventId == id && s.committed[i].order.orderId == reply.orderId;
    var order := s.committed[i].order;
    assert CreatedAs(s.stream.log, id, order);
    var q :| 0 <= q < |s.stream.log| && CarriesOrder(s.stream.log[q].data, id, order);
    assert Commit(id, order) in s.committed && OnlyOrderOf(s, id, order);
  }

  /** Cross-adapter safety. In every run, at the moment a request is answered 200,
      an upsert of exactly the order stored under its event id has already been
      committed, and that is the order the reply names. */
  lemma AnsweredMeansCommitted(window: nat, actions: seq<Action>, r: nat, id: string, reply: Reply)
    requires Exec(Init(), window, actions).Some?
    requires Step(Exec(Init(), window, actions).value, window, Resume(r)).Some?
    requires Step(Exec(Init(), window, actions).value, window, Resume(r)).value.requests[r]
             == Answered(id, Ok200(reply))
    ensures var s := Exec(Init(), window, actions).value;
            && reply.correlationId == Some(id)
            && exists order ::
                 Commit(id, order) in s.committed && OnlyOrderOf(s, id, order) && order.orderId == reply.orderId
  {
    InitIsOk();
    RunKeepsInv(Init(), window, actions);
    var s := Exec(Init(), window, actions).value;
    assert RequestOk(s, r, s.requests[r]);
    AnswerIsBacked(s, id, reply);
  }

  /** The same for every answer a run has given so far, and the reply is one to the
      request's own event; no step but Resume gives a 200. */
  lemma EveryAnswerIsBacked(window: nat, actions: seq<Action>, r: nat, id: string, reply: Reply)
    requires Exec(Init(), window, actions).Some?
    requires r in Exec(Init(), window, actions).value.requests
    requires Exec(Init(), window, actions).value.requests[r] == Answered(id, Ok200(reply))
    ensures var s := Exec(Init(), window, actions).value;
            && reply.correlationId == Some(id)
            && exists order ::
                 Commit(id, order) in s.committed && OnlyOrderOf(s, id, order) && order.orderId == reply.orderId
  {
    InitIsOk();
    RunKeepsInv(Init(), window, actions);
    var s := Exec(Init(), window, actions).value;
    assert RequestOk(s, r, s.requests[r]);
    AnswerIsBacked(s, id, reply);
  }

  /** What the write handler and the watcher leave alone. */
  lemma WorkersLeaveRequests(s: State, window: nat, a: Action)
    requires Step(s, window, a).Some? && !a.Publish? && !a.Register? && !a.Timer? && !a.Resume?
    ensures Step(s, window, a).value.requests == s.requests
  {
    match a {
      case HandlerUpsert(outcome, raised) => UpsertLeaves(s, outcome, raised);
      case HandlerPublish(_, _, _, _) =>
      case WatcherFetch(_) =>
      case _ =>
    }
  }

  lemma OnlyResumeAnswersOk(s: State, window: nat, a: Action, r: nat)
    requires Step(s, window, a).Some?
    requires r in Step(s, window, a).value.requests
    requires Step(s, window, a).value.requests[r].Answered? && Step(s, window, a).value.requests[r].status.Ok200?
    ensures a == Resume(r) || (r in s.requests && s.requests[r] == Step(s, window, a).value.requests[r])
  {
    if !a.Publish? && !a.Register? && !a.Timer? && !a.Resume? {
      WorkersLeaveRequests(s, window, a);
    } else if a.Publish? {
      assert DoPublish(s, window, a).value.requests == s.requests[a.r := DoPublish(s, window, a).value.requests[a.r]];
    }
  }

  /** In every reachable state each entry of the correlation map belongs to a request
      still in its wait, under that request's own id, duplicate ids included; so the
      map is empty whenever nobody waits. */
  lemma PendingMeansWaiting(window: nat, actions: seq<Action>)
    requires Exec(Init(), window, actions).Some?
    ensures var s := Exec(Init(), window, actions).value;
            && (forall id :: id in s.replies.pending ==>
                  exists r :: r in s.requests && s.requests[r].Waiting?
                    && s.requests[r].eventId == id && s.requests[r].future == s.replies.pending[id])
            && ((forall r :: r in s.requests ==> !s.requests[r].Waiting?) ==> s.replies.pending == map[])
  {
    InitIsOk();
    RunKeepsInv(Init(), window, actions);
    var s := Exec(Init(), window, actions).value;
    forall id | id in s.replies.pending
      ensures exists r :: r in s.requests && s.requests[r].Waiting?
                && s.requests[r].eventId == id && s.requests[r].future == s.replies.pending[id]
    {
      var r := s.replies.futures[s.replies.pending[id]].owner;
      assert RequestOk(s, r, s.requests[r]);
    }
  }

  /** A future that is done keeps its state for the rest of any run. */
  lemma {:induction false} DoneStaysDone(s: State, window: nat, actions: seq<Action>, f: nat)
    requires Exec(s, window, actions).Some?
    requires f < |s.replies.futures| && !s.replies.futures[f].state.Pending?
    ensures f < |Exec(s, window, actions).value.replies.futures|
    ensures Exec(s, window, actions).value.replies.futures[f] == s.replies.futures[f]
  {
    if actions != [] {
      DoneStaysDone(s, window, actions[..|actions| - 1], f);
      StepKeepsDone(Exec(s, window, actions[..|actions| - 1]).value, window, actions[|actions| - 1], f);
    }
  }

  lemma StepKeepsDone(s: State, window: nat, a: Action, f: nat)
    requires Step(s, window, a).Some? && f < |s.replies.futures| && !s.replies.futures[f].state.Pending?
    ensures f < |Step(s, window, a).value.replies.futures|
    ensures Step(s, window, a).value.replies.futures[f] == s.replies.futures[f]
  {
    if !TouchesReplies(a) {
      OtherStepsLeaveReplies(s, window, a);
    }
  }

  predicate TouchesReplies(a: Action) {
    a.Register? || a.Timer? || a.Resume? || a.WatcherResolve?
  }

  lemma OtherStepsLeaveReplies(s: State, window: nat, a: Action)
    requires Step(s, window, a).Some? && !TouchesReplies(a)
    ensures Step(s, window, a).value.replies == s.replies
    ensures forall r :: r in s.requests ==>
              r in Step(s, window, a).value.requests && Step(s, window, a).value.requests[r] == s.requests[r]
  {
    match a {
      case HandlerUpsert(outcome, raised) => UpsertLeaves(s, outcome, raised);
      case HandlerPublish(_, _, _, _) =>
      case Publish(_, _, _, _, _, _, _, _) =>
      case _ =>
    }
  }

  /** Ack discipline over whole runs: an acknowledged OrderCreated was malformed, or
      its order is committed and reported under its event id. */
  lemma AckedMeansHandled(window: nat, actions: seq<Action>, q: nat)
    requires Exec(Init(), window, actions).Some? && q in Exec(Init(), window, actions).value.orders.acked
    ensures AckOk(Exec(Init(), window, actions).value, q)
  {
    InitIsOk();
    RunKeepsInv(Init(), window, actions);
  }

  /** The orders table is what the committed upserts leave, each of an order some
      stored event carries: a row is always the last commit for its id. */
  lemma TableIsLastCommits(window: nat, actions: seq<Action>, orderId: string)
    requires Exec(Init(), window, actions).Some?
    ensures var s := Exec(Init(), window, actions).value;
            && (orderId in s.table <==> exists i: nat :: LastFor(OrdersOf(s.committed), orderId, i))
            && (forall i: nat :: LastFor(OrdersOf(s.committed), orderId, i) ==>
                  CreatedAs(s.stream.log, s.committed[i].eventId, s.committed[i].order)
                  && s.table[orderId] == Row(s.committed[i].order.item, s.committed[i].order.quantity))
  {
    InitIsOk();
    RunKeepsInv(Init(), window, actions);
    RowIsLastUpsert(OrdersOf(Exec(Init(), window, actions).value.committed), orderId);
  }
}
