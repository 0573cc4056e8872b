/** Orders as they travel and as they are stored
    (adapters/db_adapter_mysql/db_adapter_mysql/payloads.py). */
module OrderPayloads {
  import opened Basics

  datatype JsonValue = Text(text: string) | Number(n: int) | Boolean(b: bool) | OtherJson

  /** A request body: bytes `json.loads` refuses with its own error, bytes it refuses
      with another ValueError (no Unicode text, or an integer with too many digits),
      nesting too deep for it, JSON but not an object, or an object. */
  datatype Body = NotJson | Unreadable | TooDeep | NotAnObject | Object(fields: map<string, JsonValue>)

  datatype Order = Order(orderId: string, item: string, quantity: int)

  /** The decoder's own error, or an exception it does not catch. */
  datatype PayloadError = MalformedPayload | Uncaught

  /** `decode_order_created`. A boolean is no quantity, although Python counts it
      among the integers. */
  function DecodeOrderCreated(body: Body): (r: Result<Order, PayloadError>) {
    if body.Unreadable? || body.TooDeep? then Failure(Uncaught)
    else if !body.Object? || "orderId" !in body.fields || "item" !in body.fields then Failure(MalformedPayload)
    else
      var orderId, item := body.fields["orderId"], body.fields["item"];
      var quantity := if "quantity" in body.fields then body.fields["quantity"] else Number(1);
      if !orderId.Text? || orderId.text == "" then Failure(MalformedPayload)
      else if !item.Text? || item.text == "" then Failure(MalformedPayload)
      else if !quantity.Number? || quantity.n < 1 then Failure(MalformedPayload)
      else Success(Order(orderId.text, item.text, quantity.n))
  }

  /** The body is an object that spells out the order `o`, a valid one; only the quantity
      may be left out, for one. */
  predicate Spells(body: Body, o: Order) {
    && body.Object? && ValidOrder(o)
    && "orderId" in body.fields && body.fields["orderId"] == Text(o.orderId)
    && "item" in body.fields && body.fields["item"] == Text(o.item)
    && (if "quantity" in body.fields then body.fields["quantity"] == Number(o.quantity) else o.quantity == 1)
  }

  /** Exactly the bodies that spell an order decode to it. */
  lemma DecodesIff(body: Body, o: Order)
    ensures DecodeOrderCreated(body) == Success(o) <==> Spells(body, o)
  {
  }

  /** The decoder lets an exception through exactly for bytes that are no Unicode text and
      for nesting too deep; everything else that spells no order is malformed. */
  lemma FailsIff(body: Body)
    ensures DecodeOrderCreated(body) == Failure(Uncaught) <==> body.Unreadable? || body.TooDeep?
    ensures DecodeOrderCreated(body) == Failure(MalformedPayload)
       <==> !body.Unreadable? && !body.TooDeep? && forall o :: !Spells(body, o)
  {
    forall o ensures DecodeOrderCreated(body) == Success(o) <==> Spells(body, o) {
      DecodesIff(body, o);
    }
    if DecodeOrderCreated(body).Success? {
      assert Spells(body, DecodeOrderCreated(body).value);
    }
  }

  predicate ValidOrder(o: Order) {
    o.orderId != "" && o.item != "" && o.quantity >= 1
  }

  /** The body a well-behaved caller sends. */
  function EncodeOrder(o: Order): (body: Body) {
    Object(map["orderId" := Text(o.orderId), "item" := Text(o.item), "quantity" := Number(o.quantity)])
  }

  /** Exactly the valid orders can be written down, and reading gives them back;
      nothing that decodes is invalid. */
  lemma DecodeInvertsEncode(o: Order, body: Body)
    ensures DecodeOrderCreated(EncodeOrder(o)) == Success(o) <==> ValidOrder(o)
    ensures DecodeOrderCreated(body).Success? ==> ValidOrder(DecodeOrderCreated(body).value)
  {
    var fields := EncodeOrder(o).fields;
    assert fields["orderId"] == Text(o.orderId) && fields["item"] == Text(o.item);
    assert fields["quantity"] == Number(o.quantity);
  }

  // ---- The orders table ---------------------------------------------------

  datatype Row = Row(item: string, quantity: int)

  type Table = map<string, Row>

  /** INSERT ... ON DUPLICATE KEY UPDATE */
  function Upsert(t: Table, o: Order): (r: Table) {
    t[o.orderId := Row(o.item, o.quantity)]
  }

  function UpsertAll(orders: seq<Order>): (t: Table) {
    if orders == [] then map[] else Upsert(UpsertAll(orders[..|orders| - 1]), orders[|orders| - 1])
  }

  /** Order `i` is the last one executed for its id. */
  ghost predicate LastFor(orders: seq<Order>, orderId: string, i: nat) {
    && i < |orders| && orders[i].orderId == orderId
    && (forall j :: i < j < |orders| ==> orders[j].orderId != orderId)
  }

  /** Whatever was redelivered, each row is the last executed upsert for its id. */
  lemma {:induction false} RowIsLastUpsert(orders: seq<Order>, orderId: string)
    ensures orderId in UpsertAll(orders) <==> exists i: nat :: LastFor(orders, orderId, i)
    ensures forall i: nat :: LastFor(orders, orderId, i) ==>
              UpsertAll(orders)[orderId] == Row(orders[i].item, orders[i].quantity)
  {
    if orders != [] {
      var n := |orders| - 1;
      var front := orders[..n];
      RowIsLastUpsert(front, orderId);
      if orders[n].orderId == orderId {
        assert LastFor(orders, orderId, n);
      } else {
        forall i: nat ensures LastFor(orders, orderId, i) <==> LastFor(front, orderId, i) {
          assert forall j :: 0 <= j < n ==> front[j] == orders[j];
        }
      }
    }
  }
}

/** Redelivery and the final table. */
module Redelivery {
  import opened Basics
  import opened OrderPayloads

  /** An OrderCreated event; redelivery repeats it whole. */
  datatype OrderEvent = OrderEvent(eventId: string, order: Order)

  function Orders(events: seq<OrderEvent>): (o: seq<Order>)
    ensures |o| == |events| && forall i :: 0 <= i < |o| ==> o[i] == events[i].order
  {
    seq(|events|, i requires 0 <= i < |events| => events[i].order)
  }

  /** The deliveries for one order id. */
  function For(events: seq<OrderEvent>, orderId: string): (r: seq<OrderEvent>) {
    if events == [] then []
    else if events[|events| - 1].order.orderId == orderId then
      For(events[..|events| - 1], orderId) + [events[|events| - 1]]
    else For(events[..|events| - 1], orderId)
  }

  /** Immediate repeats removed. */
  function Unstuttered(events: seq<OrderEvent>): (r: seq<OrderEvent>)
    ensures events != [] ==> r != [] && r[|r| - 1] == events[|events| - 1]
    ensures events == [] ==> r == []
  {
    if |events| <= 1 then events
    else if events[|events| - 1] == events[|events| - 2] then Unstuttered(events[..|events| - 1])
    else Unstuttered(events[..|events| - 1]) + [events[|events| - 1]]
  }

  /** Each order id's deliveries only stutter its own exactly-once sequence. */
  ghost predicate OnlyStutters(delivered: seq<OrderEvent>, once: seq<OrderEvent>) {
    forall id :: Unstuttered(For(delivered, id)) == Unstuttered(For(once, id))
  }

  /** The contents of the last delivery for an order id. */
  function LastDelivered(events: seq<OrderEvent>, id: string): (r: Option<Row>) {
    var mine := For(events, id);
    if mine == [] then None else Some(Row(mine[|mine| - 1].order.item, mine[|mine| - 1].order.quantity))
  }

  lemma {:induction false} RowIsLastDelivery(events: seq<OrderEvent>, id: string)
    ensures id in UpsertAll(Orders(events)) <==> LastDelivered(events, id).Some?
    ensures id in UpsertAll(Orders(events)) ==> LastDelivered(events, id) == Some(UpsertAll(Orders(events))[id])
  {
    if events != [] {
      RowIsLastDelivery(events[..|events| - 1], id);
      assert Orders(events)[..|events| - 1] == Orders(events[..|events| - 1]);
    }
  }

  /** Two delivery histories leave the same table exactly when, for each order id,
      they end with the same contents. */
  lemma SameTableIff(a: seq<OrderEvent>, b: seq<OrderEvent>)
    ensures UpsertAll(Orders(a)) == UpsertAll(Orders(b)) <==> forall id :: LastDelivered(a, id) == LastDelivered(b, id)
  {
    var mine, theirs := UpsertAll(Orders(a)), UpsertAll(Orders(b));
    forall id
      ensures id in mine <==> LastDelivered(a, id).Some?
      ensures id in mine ==> LastDelivered(a, id) == Some(mine[id])
      ensures id in theirs <==> LastDelivered(b, id).Some?
      ensures id in theirs ==> LastDelivered(b, id) == Some(theirs[id])
    {
      RowIsLastDelivery(a, id);
      RowIsLastDelivery(b, id);
    }
    if forall id :: LastDelivered(a, id) == LastDelivered(b, id) {
      forall id ensures id in mine <==> id in theirs {
        assert LastDelivered(a, id) == LastDelivered(b, id);
      }
      forall id | id in mine ensures mine[id] == theirs[id] {
        assert LastDelivered(a, id) == LastDelivered(b, id);
      }
      assert mine == theirs;
    }
  }

  /** Redelivery converges: if nothing is redelivered after a newer event for the
      same order, the table ends as if everything had been delivered once. */
  lemma StutteringConverges(delivered: seq<OrderEvent>, once: seq<OrderEvent>)
    requires OnlyStutters(delivered, once)
    ensures UpsertAll(Orders(delivered)) == UpsertAll(Orders(once))
  {
    forall id ensures LastDelivered(delivered, id) == LastDelivered(once, id) {
      assert Unstuttered(For(delivered, id)) == Unstuttered(For(once, id));
    }
    SameTableIff(delivered, once);
  }

  /** A late redelivery of the older of two updates does not converge. */
  lemma LateRedeliveryUndoesAnUpdate()
    ensures var older := OrderEvent("e1", Order("a", "pen", 1));
            var newer := OrderEvent("e2", Order("a", "pen", 2));
            UpsertAll(Orders([older, newer, older])) != UpsertAll(Orders([older, newer]))
  {
    var older := OrderEvent("e1", Order("a", "pen", 1));
    var newer := OrderEvent("e2", Order("a", "pen", 2));
    assert [older, newer, older][..2] == [older, newer];
    assert LastDelivered([older, newer, older], "a") == Some(Row("pen", 1));
    assert LastDelivered([older, newer], "a") == Some(Row("pen", 2));
    SameTableIff([older, newer, older], [older, newer]);
  }
}
