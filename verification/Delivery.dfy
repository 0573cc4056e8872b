/** Redelivery of one message to one durable consumer
    (libs/jetcore/jetcore/bus_client.py): explicit acks, at most
    MAX_DELIVER_ATTEMPTS deliveries, and one backoff schedule for refusals and
    for silence. */
module Delivery {
  import opened Basics

  const MAX_DELIVER_ATTEMPTS := 5
  const REDELIVERY_BACKOFF_SECONDS: seq<real> := [2.0, 5.0, 15.0, 30.0, 60.0]

  /** The schedule's entry after delivery number `numDelivered`. */
  function Backoff(numDelivered: nat): (delay: real)
    requires numDelivered >= 1
  {
    var last := |REDELIVERY_BACKOFF_SECONDS| - 1;
    REDELIVERY_BACKOFF_SECONDS[if numDelivered - 1 < last then numDelivered - 1 else last]
  }

  datatype Settlement = Accepted | Refused(delay: real)

  /** `ReceivedEvent`, as far as settling goes. The server counts deliveries from
      one. */
  class ReceivedEvent {
    const numDelivered: nat
    var settlements: seq<Settlement>

    constructor (numDelivered: nat)
      requires numDelivered >= 1
      ensures this.numDelivered == numDelivered && settlements == []
    {
      this.numDelivered := numDelivered;
      settlements := [];
    }

    method Ack()
      modifies this
      ensures settlements == old(settlements) + [Accepted]
    {
      settlements := settlements + [Accepted];
    }

    /** A refusal asks for redelivery after the schedule's own delay. */
    method Nak()
      requires numDelivered >= 1
      modifies this
      ensures settlements == old(settlements) + [Refused(Backoff(numDelivered))]
    {
      var index := numDelivered - 1;
      if index > |REDELIVERY_BACKOFF_SECONDS| - 1 {
        index := |REDELIVERY_BACKOFF_SECONDS| - 1;
      }
      settlements := settlements + [Refused(REDELIVERY_BACKOFF_SECONDS[index])];
    }
  }

  /** The delay for each delivery count. */
  lemma BackoffIs(n: nat)
    requires n >= 1
    ensures Backoff(n) ==
              if n == 1 then 2.0 else if n == 2 then 5.0 else if n == 3 then 15.0 else if n == 4 then 30.0 else 60.0
  {
    var s := REDELIVERY_BACKOFF_SECONDS;
    assert s[0] == 2.0 && s[1] == 5.0 && s[2] == 15.0 && s[3] == 30.0 && s[4] == 60.0;
  }

  /** Delays never decrease, whatever the delivery counts. */
  lemma BackoffNeverDecreases(m: nat, n: nat)
    requires 1 <= m <= n
    ensures 2.0 <= Backoff(m) <= Backoff(n) <= 60.0
  {
    var s := REDELIVERY_BACKOFF_SECONDS;
    assert s[0] <= s[1] <= s[2] <= s[3] <= s[4];
    assert m - 1 <= 4 ==> Backoff(m) == s[m - 1];
    assert n - 1 <= 4 ==> Backoff(n) == s[n - 1];
  }

  // ---- The server's record of the message ---------------------------------

  datatype Status = Waiting(notBefore: real) | Outstanding | Acked | Exhausted

  /** `times` are the moments of the deliveries so far. */
  datatype Message = Message(times: seq<real>, status: Status)

  datatype Happening = Deliver(at: real) | Ack | Nak(at: real) | Expire(at: real)

  const PUBLISHED := Message([], Waiting(0.0))

  function AfterFailure(m: Message, notBefore: real): (r: Message) {
    m.(status := if |m.times| >= MAX_DELIVER_ATTEMPTS then Exhausted else Waiting(notBefore))
  }

  /** One thing that happens to the message, if it can. */
  function Step(m: Message, h: Happening): (r: Option<Message>) {
    match (m.status, h)
    case (Waiting(t), Deliver(at)) => if at >= t then Some(Message(m.times + [at], Outstanding)) else None
    case (Outstanding, Ack) => Some(m.(status := Acked))
    case (Outstanding, Nak(at)) =>
      if m.times == [] || at < m.times[|m.times| - 1] then None
      else Some(AfterFailure(m, at + Backoff(|m.times|)))
    case (Outstanding, Expire(at)) =>
      if m.times == [] || at < m.times[|m.times| - 1] + Backoff(|m.times|) then None
      else Some(AfterFailure(m, at))
    case _ => None
  }

  function Run(run: seq<Happening>): (r: Option<Message>) {
    if run == [] then Some(PUBLISHED)
    else
      match Run(run[..|run| - 1])
      case None => None
      case Some(m) => Step(m, run[|run| - 1])
  }

  predicate Settled(m: Message) {
    m.status.Acked? || m.status.Exhausted?
  }

  ghost predicate Valid(m: Message) {
    && |m.times| <= MAX_DELIVER_ATTEMPTS
    && (m.status.Waiting? ==> |m.times| < MAX_DELIVER_ATTEMPTS)
    && (!m.status.Waiting? ==> |m.times| >= 1)
    && (m.status.Exhausted? ==> |m.times| == MAX_DELIVER_ATTEMPTS)
    && (m.status.Waiting? && m.times != [] ==> m.status.notBefore >= m.times[|m.times| - 1] + Backoff(|m.times|))
    && (forall i :: 0 <= i < |m.times| - 1 ==> m.times[i + 1] - m.times[i] >= Backoff(i + 1))
  }

  /** How many more things can happen to it. */
  function Remaining(m: Message): (r: int) {
    if Settled(m) then 0 else 2 * (MAX_DELIVER_ATTEMPTS - |m.times|) + if m.status.Outstanding? then 1 else 0
  }

  lemma StepKeepsValid(m: Message, h: Happening)
    requires Valid(m) && Step(m, h).Some?
    ensures Valid(Step(m, h).value)
    ensures 0 <= Remaining(Step(m, h).value) < Remaining(m)
    ensures m.times <= Step(m, h).value.times
  {
  }

  /** Whatever mix of refusals and silence: at most five deliveries, at most ten
      happenings in all, each delivery at least its backoff after the one before. */
  lemma {:induction false} DeliveryIsBounded(run: seq<Happening>)
    requires Run(run).Some?
    ensures Valid(Run(run).value)
    ensures |Run(run).value.times| <= MAX_DELIVER_ATTEMPTS
    ensures |run| <= 2 * MAX_DELIVER_ATTEMPTS - Remaining(Run(run).value)
  {
    if run != [] {
      DeliveryIsBounded(run[..|run| - 1]);
      StepKeepsValid(Run(run[..|run| - 1]).value, run[|run| - 1]);
    }
  }

  /** A run can be continued exactly until the message is acked or exhausted, and
      it is exhausted only after the fifth delivery. */
  lemma StopsOnlyWhenSettled(run: seq<Happening>)
    requires Run(run).Some?
    ensures (forall h :: Run(run + [h]).None?) <==> Settled(Run(run).value)
    ensures Run(run).value.status.Exhausted? ==> |Run(run).value.times| == MAX_DELIVER_ATTEMPTS
  {
    DeliveryIsBounded(run);
    var m := Run(run).value;
    match m.status {
      case Waiting(t) => OneMore(run, Deliver(t));
      case Outstanding => OneMore(run, Ack);
      case _ =>
        forall h ensures Run(run + [h]).None? {
          OneMore(run, h);
        }
    }
  }

  lemma OneMore(run: seq<Happening>, h: Happening)
    requires Run(run).Some?
    ensures Run(run + [h]) == Step(Run(run).value, h)
  {
    var longer := run + [h];
    assert longer[..|longer| - 1] == run;
  }

  /** When a delivery that failed can be repeated: after a refusal exactly from the
      schedule's delay after it, after silence exactly from the schedule's delay after the
      delivery itself; after the fifth delivery never. */
  lemma RedeliveryIff(m: Message, at: real, t: real)
    requires Valid(m) && m.status.Outstanding?
    ensures var n := |m.times|;
            var refused, silent := Step(m, Nak(at)), Step(m, Expire(at));
            && (refused.Some? <==> at >= m.times[n - 1])
            && (silent.Some? <==> at >= m.times[n - 1] + Backoff(n))
            && (refused.Some? ==>
                  (Step(refused.value, Deliver(t)).Some? <==> n < MAX_DELIVER_ATTEMPTS && t >= at + Backoff(n)))
            && (silent.Some? ==> (Step(silent.value, Deliver(t)).Some? <==> n < MAX_DELIVER_ATTEMPTS && t >= at))
  {
  }

  /** The sum of the schedule from delivery `i` to delivery `j`. */
  function TotalBackoff(i: nat, j: nat): (t: real)
    requires i <= j
    decreases j - i
  {
    if i == j then 0.0 else TotalBackoff(i, j - 1) + Backoff(j)
  }

  lemma {:induction false} Spacing(m: Message, i: nat, j: nat)
    requires Valid(m) && i <= j < |m.times|
    ensures m.times[j] - m.times[i] >= TotalBackoff(i, j)
    decreases j - i
  {
    if i < j {
      Spacing(m, i, j - 1);
      assert m.times[j - 1 + 1] - m.times[j - 1] >= Backoff(j);
    }
  }

  /** The fifth delivery comes at least 52 seconds after the first. */
  lemma FifthDelivery(run: seq<Happening>)
    requires Run(run).Some? && |Run(run).value.times| == 5
    ensures Run(run).value.times[4] - Run(run).value.times[0] >= 52.0
  {
    DeliveryIsBounded(run);
    Spacing(Run(run).value, 0, 4);
    assert TotalBackoff(0, 1) == 2.0;
    assert TotalBackoff(0, 2) == 7.0;
    assert TotalBackoff(0, 3) == 22.0;
    assert TotalBackoff(0, 4) == 52.0;
  }
}
