/** The database write handler as it runs
    (adapters/db_adapter_mysql/db_adapter_mysql/write_handler.py), and its place
    among the steps of the order path. */
module OrderWriter {
  import opened Basics
  import opened Batches
  import opened OrderPayloads
  import opened OrderSystem

  /** One delivery of an OrderCreated, and how the handler's calls go: the transaction
      (`caught` if an exception from it is the driver's own, which the handler
      catches), the publish, and the ack or nak. */
  datatype Delivery = Delivery(
    eventId: string,
    body: Body,
    database: Outcome,
    caught: bool,
    publish: Outcome,
    settle: Outcome)

  datatype Effect =
    | Persisted(correlationId: string, orderId: string)
    | Ack(eventId: string)
    | Nak(eventId: string)

  /** The table, and every upsert committed to it, in order. */
  datatype Database = Database(table: Table, committed: seq<Commit>)

  function Upserting(db: Database, d: Delivery, order: Order): (db': Database) {
    if d.database.Failed? then db
    else Database(Upsert(db.table, order), db.committed + [Commit(d.eventId, order)])
  }

  function Settling(d: Delivery, e: Effect): (effects: seq<Effect>) {
    if d.settle.Failed? then [] else [e]
  }

  /** What one handling does on the bus. */
  function EffectsOf(d: Delivery): (effects: seq<Effect>) {
    match DecodeOrderCreated(d.body)
    case Failure(Uncaught) => []
    case Failure(MalformedPayload) => Settling(d, Ack(d.eventId))
    case Success(order) =>
      if !d.database.Done? then (if d.caught then Settling(d, Nak(d.eventId)) else [])
      else
        match d.publish
        case Done => [Persisted(d.eventId, order.orderId)] + Settling(d, Ack(d.eventId))
        case DoneButFailed => [Persisted(d.eventId, order.orderId)]
        case Failed => []
  }

  /** The handling gets as far as its ack or nak. */
  predicate GetsToSettle(d: Delivery) {
    match DecodeOrderCreated(d.body)
    case Failure(e) => e == MalformedPayload
    case Success(_) => if d.database.Done? then d.publish.Done? else d.caught
  }

  /** An exception gets out of the handling. */
  predicate Raises(d: Delivery) {
    !GetsToSettle(d) || !d.settle.Done?
  }

  /** `_handle` */
  function Handled(db: Database, d: Delivery): (h: Handling<Database, Effect>) {
    var db' := match DecodeOrderCreated(d.body)
               case Failure(_) => db
               case Success(order) => Upserting(db, d, order);
    Handling(db', EffectsOf(d), Raises(d))
  }

  class WriteCommandHandler {
    var table: Table
    var committed: seq<Commit>
    var effects: seq<Effect>

    function View(): (db: Database)
      reads this
    {
      Database(table, committed)
    }

    constructor ()
      ensures View() == Database(map[], []) && effects == []
    {
      table, committed, effects := map[], [], [];
    }

    /** Ack or nak. */
    method Settle(d: Delivery, e: Effect) returns (raised: bool)
      modifies this`effects
      ensures effects == old(effects) + Settling(d, e) && raised == !d.settle.Done?
    {
      if !d.settle.Failed? {
        effects := effects + [e];
      }
      raised := !d.settle.Done?;
    }

    method Handle(d: Delivery) returns (raised: bool)
      modifies this
      ensures Handling(View(), EffectsOf(d), raised) == Handled(old(View()), d)
      ensures effects == old(effects) + EffectsOf(d)
    {
      var request := DecodeOrderCreated(d.body);
      if request.Failure? {
        if request.error == Uncaught {
          return true;
        }
        raised := Settle(d, Ack(d.eventId));
        return;
      }
      if !d.database.Failed? {
        table := Upsert(table, request.value);
        committed := committed + [Commit(d.eventId, request.value)];
      }
      if !d.database.Done? {
        if !d.caught {
          return true;
        }
        raised := Settle(d, Nak(d.eventId));
        return;
      }
      if !d.publish.Failed? {
        effects := effects + [Persisted(d.eventId, request.value.orderId)];
      }
      if !d.publish.Done? {
        return true;
      }
      raised := Settle(d, Ack(d.eventId));
    }

    /** One handling more, after those of `before`. */
    method HandleNext(ghost start: Database, ghost before: seq<Delivery>, ghost p: Progress<Database, Effect>,
                      d: Delivery)
      returns (raised: bool, ghost p': Progress<Database, Effect>)
      requires p == Batch(Handled, start, before) && p.state == View() && !p.raised
      modifies this
      ensures p' == Batch(Handled, start, before + [d])
      ensures p'.state == View() && p'.raised == raised && p'.handled == p.handled + 1
      ensures p.effects <= p'.effects && effects == old(effects) + p'.effects[|p.effects|..]
    {
      assert (before + [d])[..|before|] == before;
      p' := Batch(Handled, start, before + [d]);
      raised := Handle(d);
    }

    /** `run_once` */
    method RunOnce(batch: seq<Delivery>) returns (handled: nat, raised: bool)
      modifies this
      ensures old(effects) <= effects
      ensures Progress(View(), effects[|old(effects)|..], handled, raised) == Batch(Handled, old(View()), batch)
    {
      ghost var before, p := [], Progress(View(), [], 0, false);
      handled, raised := 0, false;
      while handled < |batch| && !raised
        invariant 0 <= handled <= |batch| && before == batch[..handled]
        invariant p == Batch(Handled, old(View()), before)
        invariant p.state == View() && p.handled == handled && p.raised == raised
        invariant effects == old(effects) + p.effects
      {
        raised, p := HandleNext(old(View()), before, p, batch[handled]);
        OneLonger(batch, handled);
        handled := handled + 1;
        before := batch[..handled];
      }
      NothingMore(Handled, old(View()), batch, handled);
    }
  }

  // ---- Ack discipline -----------------------------------------------------

  /** Acks and naks among `effects`. */
  function Settlements(effects: seq<Effect>): (n: nat) {
    if effects == [] then 0
    else Settlements(effects[..|effects| - 1]) + if effects[|effects| - 1].Persisted? then 0 else 1
  }

  lemma {:induction false} SettlementsAdd(a: seq<Effect>, b: seq<Effect>)
    ensures Settlements(a + b) == Settlements(a) + Settlements(b)
  {
    if b == [] {
      assert a + b == a;
    } else {
      assert (a + b)[..|a + b| - 1] == a + b[..|b| - 1];
      SettlementsAdd(a, b[..|b| - 1]);
    }
  }

  function Raised(run: seq<Delivery>): (n: nat) {
    if run == [] then 0 else Raised(run[..|run| - 1]) + if Raises(run[|run| - 1]) then 1 else 0
  }

  /** The ack or nak took effect and its call raised all the same. */
  predicate SettledAndRaised(d: Delivery) {
    GetsToSettle(d) && d.settle.DoneButFailed?
  }

  function LostAnswers(run: seq<Delivery>): (n: nat) {
    if run == [] then 0 else LostAnswers(run[..|run| - 1]) + if SettledAndRaised(run[|run| - 1]) then 1 else 0
  }

  /** Each invocation that returns normally settles exactly once; one that raises not at
      all, unless it was its ack or nak that raised after taking effect. */
  lemma {:induction false} EachSettlesOnce(db: Database, run: seq<Delivery>)
    ensures Settlements(Effects(Handled, db, run)) == |run| - Raised(run) + LostAnswers(run)
  {
    if run != [] {
      var front, d := run[..|run| - 1], run[|run| - 1];
      EachSettlesOnce(db, front);
      SettlementsAdd(Effects(Handled, db, front), EffectsOf(d));
      OneSettlement(d);
    }
  }

  lemma OneSettlement(d: Delivery)
    ensures Settlements(EffectsOf(d)) == if !Raises(d) || SettledAndRaised(d) then 1 else 0
  {
    var own := EffectsOf(d);
    if own != [] {
      assert Settlements([own[|own| - 1]]) == if own[|own| - 1].Persisted? then 0 else 1;
    }
    if |own| == 2 {
      SettlementsAdd([own[0]], [own[1]]);
      assert own == [own[0]] + [own[1]];
    }
  }

  /** A body that is no Unicode text or nested too deep is neither acked nor refused: the
      exception leaves the handler, on every delivery. */
  lemma UnreadableIsNeverSettled(db: Database, d: Delivery)
    requires d.body == Unreadable || d.body == TooDeep
    ensures Handled(db, d) == Handling(db, [], true)
  {
  }

  /** A body that is readable and spells no order changes nothing and is acked, if the ack
      reaches the server; nothing but the ack can raise. */
  lemma NoOrderIsAcked(db: Database, d: Delivery)
    requires !d.body.Unreadable? && !d.body.TooDeep? && forall o :: !Spells(d.body, o)
    ensures Handled(db, d) == Handling(db, if d.settle.Failed? then [] else [Ack(d.eventId)], !d.settle.Done?)
  {
    FailsIff(d.body);
  }

  /** A body that spells the order `o`: unless the transaction takes no effect the order is
      upserted and committed under the event's id. If the transaction answers, it is
      reported, and acked if the publish answers; a driver's error is refused, and every
      other exception gets out. */
  lemma AnOrderIsHandled(db: Database, d: Delivery, o: Order)
    requires Spells(d.body, o)
    ensures Handled(db, d).state ==
              if d.database.Failed? then db
              else Database(db.table[o.orderId := Row(o.item, o.quantity)], db.committed + [Commit(d.eventId, o)])
    ensures d.database.Done? && d.publish.Done? ==>
              && Handled(db, d).effects
                 == [Persisted(d.eventId, o.orderId)] + (if d.settle.Failed? then [] else [Ack(d.eventId)])
              && (Handled(db, d).raised <==> !d.settle.Done?)
    ensures d.database.Done? && !d.publish.Done? ==>
              && Handled(db, d).effects == (if d.publish.Failed? then [] else [Persisted(d.eventId, o.orderId)])
              && Handled(db, d).raised
    ensures !d.database.Done? && d.caught ==>
              && Handled(db, d).effects == (if d.settle.Failed? then [] else [Nak(d.eventId)])
              && (Handled(db, d).raised <==> !d.settle.Done?)
    ensures !d.database.Done? && !d.caught ==> Handled(db, d).effects == [] && Handled(db, d).raised
  {
    DecodesIff(d.body, o);
  }

  /** The ack at place `k` is that of delivery `i`: malformed, or right after the report
      of its order, whose upsert is committed. */
  ghost predicate JustifiedBy(effects: seq<Effect>, committed: seq<Commit>, run: seq<Delivery>, k: nat, i: nat) {
    && i < |run| && k < |effects| && effects[k] == Ack(run[i].eventId)
    && match DecodeOrderCreated(run[i].body)
       case Failure(e) => e == MalformedPayload
       case Success(order) =>
         k > 0 && effects[k - 1] == Persisted(run[i].eventId, order.orderId)
         && Commit(run[i].eventId, order) in committed
  }

  /** Over all redeliveries, database errors and publish failures. */
  lemma {:induction false} EveryAckIsJustified(db: Database, run: seq<Delivery>, k: nat) returns (i: nat)
    requires k < |Effects(Handled, db, run)| && Effects(Handled, db, run)[k].Ack?
    ensures JustifiedBy(Effects(Handled, db, run), Run(Handled, db, run).committed, run, k, i)
  {
    var front, d := run[..|run| - 1], run[|run| - 1];
    if k < |Effects(Handled, db, front)| {
      i := EveryAckIsJustified(db, front, k);
    } else {
      i := |front|;
    }
  }

  // ---- Its place in the step system ---------------------------------------

  /** An uninterrupted invocation for the message at `q`, as steps; `id` and `now` are
      those of its publish, `readable` whether that is sealed for the service. */
  function StepsOf(d: Delivery, q: nat, id: string, now: nat, readable: bool): (actions: seq<Action>) {
    [HandlerFetch(q), UpsertOf(d)]
    + (if DecodeOrderCreated(d.body).Failure? || !d.database.Done? then []
       else [HandlerPublish(id, now, readable, d.publish)]
            + if d.publish.Done? then [HandlerAck(!d.settle.Failed?, !d.settle.Done?)] else [])
  }

  /** The step that decodes; for a malformed payload its remote call is the ack. */
  function UpsertOf(d: Delivery): (a: Action) {
    match DecodeOrderCreated(d.body)
    case Failure(_) => HandlerUpsert(d.settle, !d.settle.Done?)
    case Success(_) => HandlerUpsert(d.database, !d.caught || !d.settle.Done?)
  }

  /** Message `q` of the stream is what `d` delivers to the idle handler, and `id` is
      unused. */
  predicate Delivers(s: State, d: Delivery, q: nat, id: string) {
    && s.job.None? && Readable(s, q) && Deliverable(s.orders, q) && id !in s.issued
    && s.stream.log[q].data.eventId == d.eventId && s.stream.log[q].data.body == d.body
  }

  function DatabaseOf(s: State): (db: Database) {
    Database(s.table, s.committed)
  }

  /** The handler's consumer after delivery `d` of message `q`. */
  function RecordAfter(s: State, d: Delivery, q: nat): (c: Consumer) {
    Acked(Delivered(s.orders, q), q, Ack(d.eventId) in EffectsOf(d))
  }

  /** What the steps of a handling leave of `s`: the handler's state, the consumer's record
      and the message appended, if any, are given. */
  predicate Leaves(s: State, s': State, handling: bool, job: Option<Job>, db: Database, orders: Consumer,
                   report: Option<Message>)
  {
    && s'.handling == handling && s'.job == job && s'.life == s.life
    && s'.table == db.table && s'.committed == db.committed && s'.orders == orders
    && s'.requests == s.requests && s'.replies == s.replies
    && s'.watching == s.watching && s'.inbox == s.inbox && s'.reports == s.reports
    && (match report
        case None => s'.stream == s.stream
        case Some(m) => s.stream.log <= s'.stream.log && |s'.stream.log| == |s.stream.log| + 1
                        && s'.stream.log[|s.stream.log|].data == m)
  }

  /** The report a handling publishes, in an envelope with id `id`. */
  function ReportOf(d: Delivery, id: string, readable: bool): (m: Option<Message>) {
    var own := EffectsOf(d);
    if own == [] || !own[0].Persisted? then None
    else Some(OrderPersisted(id, Some(own[0].correlationId), own[0].orderId, readable))
  }

  /** The two agree: the steps change the table and the commits as the handler does, record
      the message as acked exactly if the handler acks it, append exactly the report the
      handler publishes, and leave the invocation over, and the process with it exactly if
      an exception gets out. */
  lemma HandlingIsSteps(s: State, window: nat, d: Delivery, q: nat, id: string, now: nat, readable: bool)
    requires Delivers(s, d, q, id)
    ensures Exec(s, window, StepsOf(d, q, id, now, readable)).Some?
    ensures Leaves(s, Exec(s, window, StepsOf(d, q, id, now, readable)).value, !Raises(d), None,
                   Handled(DatabaseOf(s), d).state, RecordAfter(s, d, q), ReportOf(d, id, readable))
  {
    UpsertSteps(s, window, d, q, id);
    if DecodeOrderCreated(d.body).Success? && d.database.Done? {
      ReportSteps(s, window, d, q, id, now, readable);
    } else {
      assert StepsOf(d, q, id, now, readable) == [HandlerFetch(q), UpsertOf(d)];
      UpsertEnds(s, d, q);
    }
  }

  /** The state after the upsert. */
  function AfterUpsert(s: State, d: Delivery, q: nat): (s': State) {
    match DecodeOrderCreated(d.body)
    case Failure(_) => Ended(s.(orders := RecordAfter(s, d, q)), Raises(d))
    case Success(order) =>
      var db := Upserting(DatabaseOf(s), d, order);
      var s1 := s.(table := db.table, committed := db.committed, orders := Delivered(s.orders, q));
      if d.database.Done? then s1.(job := Some(Job(q, Upserted(order)))) else Ended(s1, Raises(d))
  }

  lemma UpsertEnds(s: State, d: Delivery, q: nat)
    requires s.handling && !(DecodeOrderCreated(d.body).Success? && d.database.Done?)
    ensures Leaves(s, AfterUpsert(s, d, q), !Raises(d), None, Handled(DatabaseOf(s), d).state, RecordAfter(s, d, q),
                   None)
    ensures forall id, readable :: ReportOf(d, id, readable) == None
  {
  }

  lemma UpsertSteps(s: State, window: nat, d: Delivery, q: nat, id: string)
    requires Delivers(s, d, q, id)
    ensures Exec(s, window, [HandlerFetch(q), UpsertOf(d)]) == Some(AfterUpsert(s, d, q))
  {
    var fetched := DoHandlerFetch(s, q).value;
    ExecOne(s, window, HandlerFetch(q));
    ExecLast(s, window, [HandlerFetch(q)], UpsertOf(d));
    assert [HandlerFetch(q)] + [UpsertOf(d)] == [HandlerFetch(q), UpsertOf(d)];
    UpsertStep(s, d, q, id);
  }

  lemma UpsertStep(s: State, d: Delivery, q: nat, id: string)
    requires Delivers(s, d, q, id)
    ensures DoHandlerUpsert(DoHandlerFetch(s, q).value, UpsertOf(d).outcome, UpsertOf(d).raised)
            == Some(AfterUpsert(s, d, q))
  {
  }

  lemma ReportSteps(s: State, window: nat, d: Delivery, q: nat, id: string, now: nat, readable: bool)
    requires Delivers(s, d, q, id) && DecodeOrderCreated(d.body).Success? && d.database.Done?
    ensures Exec(s, window, StepsOf(d, q, id, now, readable)).Some?
    ensures Leaves(s, Exec(s, window, StepsOf(d, q, id, now, readable)).value, !Raises(d), None,
                   Handled(DatabaseOf(s), d).state, RecordAfter(s, d, q), ReportOf(d, id, readable))
  {
    var two, publish := [HandlerFetch(q), UpsertOf(d)], HandlerPublish(id, now, readable, d.publish);
    UpsertSteps(s, window, d, q, id);
    ExecLast(s, window, two, publish);
    PublishStep(s, window, d, q, id, now, readable);
    var published := DoHandlerPublish(AfterUpsert(s, d, q), window, publish).value;
    if d.publish.Done? {
      var ack := HandlerAck(!d.settle.Failed?, !d.settle.Done?);
      var s' := AckSteps(s, published, window, d, q, id, readable, two + [publish], ack);
      assert StepsOf(d, q, id, now, readable) == two + [publish] + [ack];
    } else {
      assert StepsOf(d, q, id, now, readable) == two + [publish];
    }
  }

  lemma PublishStep(s: State, window: nat, d: Delivery, q: nat, id: string, now: nat, readable: bool)
    requires Delivers(s, d, q, id) && DecodeOrderCreated(d.body).Success? && d.database.Done?
    ensures DoHandlerPublish(AfterUpsert(s, d, q), window, HandlerPublish(id, now, readable, d.publish)).Some?
    ensures var publish := HandlerPublish(id, now, readable, d.publish);
            var s' := DoHandlerPublish(AfterUpsert(s, d, q), window, publish).value;
            var job := if d.publish.Done? then Some(Job(q, Reported(DecodeOrderCreated(d.body).value))) else None;
            Leaves(s, s', d.publish.Done?, job, Handled(DatabaseOf(s), d).state, Delivered(s.orders, q),
                   ReportOf(d, id, readable))
  {
  }

  lemma AckSteps(s: State, published: State, window: nat, d: Delivery, q: nat, id: string, readable: bool,
                 actions: seq<Action>, ack: Action)
    returns (s': State)
    requires Exec(s, window, actions) == Some(published)
    requires ack == HandlerAck(!d.settle.Failed?, !d.settle.Done?)
    requires DecodeOrderCreated(d.body).Success? && d.database.Done? && d.publish.Done?
    requires Leaves(s, published, true, Some(Job(q, Reported(DecodeOrderCreated(d.body).value))),
                    Handled(DatabaseOf(s), d).state, Delivered(s.orders, q), ReportOf(d, id, readable))
    ensures Exec(s, window, actions + [ack]) == Some(s')
    ensures Leaves(s, s', !Raises(d), None, Handled(DatabaseOf(s), d).state, RecordAfter(s, d, q),
                   ReportOf(d, id, readable))
  {
    AckStep(s, published, d, q, id, readable);
    s' := DoHandlerAck(published, ack.reached, ack.raised).value;
    AckIsStep(s, published, s', window, actions, ack);
  }

  lemma AckIsStep(s: State, published: State, s': State, window: nat, actions: seq<Action>, ack: Action)
    requires Exec(s, window, actions) == Some(published) && ack.HandlerAck?
    requires DoHandlerAck(published, ack.reached, ack.raised) == Some(s')
    ensures Exec(s, window, actions + [ack]) == Some(s')
  {
    ExecLast(s, window, actions, ack);
  }

  lemma AckStep(s: State, published: State, d: Delivery, q: nat, id: string, readable: bool)
    requires DecodeOrderCreated(d.body).Success? && d.database.Done? && d.publish.Done?
    requires Leaves(s, published, true, Some(Job(q, Reported(DecodeOrderCreated(d.body).value))),
                    Handled(DatabaseOf(s), d).state, Delivered(s.orders, q), ReportOf(d, id, readable))
    ensures DoHandlerAck(published, !d.settle.Failed?, !d.settle.Done?).Some?
    ensures Leaves(s, DoHandlerAck(published, !d.settle.Failed?, !d.settle.Done?).value, !Raises(d), None,
                   Handled(DatabaseOf(s), d).state, RecordAfter(s, d, q), ReportOf(d, id, readable))
  {
  }
}
