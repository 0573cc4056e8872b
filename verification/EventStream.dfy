/** A JetStream stream as the bus uses it: an append-only log, a duplicate window
    keyed by `Nats-Msg-Id` for the whole stream, and retention from the head. */
module EventStream {
  import opened Basics

  datatype Stored<D> = Stored(subject: string, msgId: Option<string>, time: nat, data: D)

  /** `PubAck`: where the message is, and whether it was there already. */
  datatype PubAck = PubAck(seqNo: nat, duplicate: bool)

  /** `log[first..]` is still retained; `dedup` holds, per message id, the place
      of the message stored for it last. */
  datatype Stream<D> = Stream(log: seq<Stored<D>>, first: nat, dedup: map<string, nat>)

  datatype Call<D> = Call(now: nat, subject: string, msgId: Option<string>, data: D)

  function Empty<D>(): (s: Stream<D>) {
    Stream([], 0, map[])
  }

  predicate IsDuplicate<D>(s: Stream<D>, window: nat, c: Call<D>) {
    && c.msgId.Some?
    && c.msgId.value in s.dedup
    && s.dedup[c.msgId.value] < |s.log|
    && c.now - s.log[s.dedup[c.msgId.value]].time < window
  }

  /** One publish, as the server performs it. */
  function Append<D>(s: Stream<D>, window: nat, c: Call<D>): (r: (Stream<D>, PubAck)) {
    if IsDuplicate(s, window, c) then (s, PubAck(s.dedup[c.msgId.value], true))
    else
      var dedup := if c.msgId.Some? then s.dedup[c.msgId.value := |s.log|] else s.dedup;
      (s.(log := s.log + [Stored(c.subject, c.msgId, c.now, c.data)], dedup := dedup), PubAck(|s.log|, false))
  }

  /** `get_msg`: nothing once retention has dropped the message. */
  function GetMsg<D>(s: Stream<D>, seqNo: nat): (r: Option<D>) {
    if s.first <= seqNo < |s.log| then Some(s.log[seqNo].data) else None
  }

  /** What the server maintains. */
  ghost predicate Valid<D>(s: Stream<D>, window: nat) {
    InOrder(s) && Indexed(s) && Spaced(s, window)
  }

  ghost predicate InOrder<D>(s: Stream<D>) {
    forall i, j :: 0 <= i < j < |s.log| ==> s.log[i].time <= s.log[j].time
  }

  /** The dedup table knows the latest message of every id. */
  ghost predicate Indexed<D>(s: Stream<D>) {
    && (forall m :: m in s.dedup ==> s.dedup[m] < |s.log| && s.log[s.dedup[m]].msgId == Some(m))
    && (forall i :: 0 <= i < |s.log| && s.log[i].msgId.Some? ==>
          s.log[i].msgId.value in s.dedup && i <= s.dedup[s.log[i].msgId.value])
  }

  /** Messages under one id lie a window apart. */
  ghost predicate Spaced<D>(s: Stream<D>, window: nat) {
    forall i, j :: 0 <= i < j < |s.log| && s.log[i].msgId.Some? && s.log[i].msgId == s.log[j].msgId ==>
      s.log[j].time - s.log[i].time >= window
  }

  /** No message is newer than `now`. */
  ghost predicate NotBefore<D>(s: Stream<D>, now: nat) {
    forall i :: 0 <= i < |s.log| ==> s.log[i].time <= now
  }

  lemma AppendKeepsValid<D>(s: Stream<D>, window: nat, c: Call<D>)
    requires Valid(s, window) && NotBefore(s, c.now)
    ensures Valid(Append(s, window, c).0, window) && NotBefore(Append(s, window, c).0, c.now)
    ensures s.log <= Append(s, window, c).0.log
  {
    AppendKeepsOrder(s, window, c);
    AppendKeepsIndex(s, window, c);
    AppendKeepsSpacing(s, window, c);
  }

  lemma AppendKeepsOrder<D>(s: Stream<D>, window: nat, c: Call<D>)
    requires InOrder(s) && NotBefore(s, c.now)
    ensures InOrder(Append(s, window, c).0) && NotBefore(Append(s, window, c).0, c.now)
  {
  }

  lemma AppendKeepsIndex<D>(s: Stream<D>, window: nat, c: Call<D>)
    requires Indexed(s)
    ensures Indexed(Append(s, window, c).0)
  {
  }

  lemma AppendKeepsSpacing<D>(s: Stream<D>, window: nat, c: Call<D>)
    requires Valid(s, window)
    ensures Spaced(Append(s, window, c).0, window)
  {
    if !IsDuplicate(s, window, c) && c.msgId.Some? {
      var m := c.msgId.value;
      forall i | 0 <= i < |s.log| && s.log[i].msgId == Some(m)
        ensures c.now - s.log[i].time >= window
      {
        assert s.log[i].time <= s.log[s.dedup[m]].time;
      }
    }
  }

  /** Message `i` is the latest stored under the id `m`. */
  ghost predicate LatestUnder<D>(s: Stream<D>, m: string, i: nat) {
    i < |s.log| && s.log[i].msgId == Some(m) && forall j :: i < j < |s.log| ==> s.log[j].msgId != Some(m)
  }

  /** The latest message under the call's id is younger than the window. */
  ghost predicate Recent<D>(s: Stream<D>, window: nat, c: Call<D>) {
    c.msgId.Some? && exists i: nat :: LatestUnder(s, c.msgId.value, i) && c.now - s.log[i].time < window
  }

  /** A call adds its own message at the end, unless one under its id is younger than the
      window; then nothing changes, and the answer names the latest such message. */
  lemma AppendIff<D>(s: Stream<D>, window: nat, c: Call<D>)
    requires Indexed(s)
    ensures var (s', ack) := Append(s, window, c);
            if Recent(s, window, c) then s' == s && ack.duplicate && LatestUnder(s, c.msgId.value, ack.seqNo)
            else s'.log == s.log + [Stored(c.subject, c.msgId, c.now, c.data)] && s'.first == s.first
                 && ack == PubAck(|s.log|, false)
  {
    if c.msgId.Some? && c.msgId.value in s.dedup {
      assert LatestUnder(s, c.msgId.value, s.dedup[c.msgId.value]);
    }
  }

  // ---- Whole runs of publishes --------------------------------------------

  ghost predicate Chronological<D>(calls: seq<Call<D>>) {
    forall i, j :: 0 <= i < j < |calls| ==> calls[i].now <= calls[j].now
  }

  /** The stream after `calls`, starting empty. */
  function Run<D>(window: nat, calls: seq<Call<D>>): (s: Stream<D>) {
    if calls == [] then Empty() else Append(Run(window, calls[..|calls| - 1]), window, calls[|calls| - 1]).0
  }

  /** What call `i` was told. */
  function AckOf<D>(window: nat, calls: seq<Call<D>>, i: nat): (a: PubAck)
    requires i < |calls|
  {
    Append(Run(window, calls[..i]), window, calls[i]).1
  }

  lemma {:induction false} RunIsValid<D>(window: nat, calls: seq<Call<D>>)
    requires Chronological(calls)
    ensures Valid(Run(window, calls), window)
    ensures calls != [] ==> NotBefore(Run(window, calls), calls[|calls| - 1].now)
  {
    if calls != [] {
      var front, c := calls[..|calls| - 1], calls[|calls| - 1];
      RunIsValid(window, front);
      assert front != [] ==> front[|front| - 1] == calls[|calls| - 2];
      AppendKeepsValid(Run(window, front), window, c);
    }
  }

  /** A longer run only adds messages. */
  lemma {:induction false} RunGrows<D>(window: nat, calls: seq<Call<D>>, i: nat)
    requires Chronological(calls) && i <= |calls|
    ensures Run(window, calls[..i]).log <= Run(window, calls).log
  {
    if i < |calls| {
      var front := calls[..|calls| - 1];
      RunGrows(window, front, i);
      assert front[..i] == calls[..i];
    } else {
      assert calls[..i] == calls;
    }
  }

  /** Messages stored under one id lie at least a window apart, so any window
      holds at most one. */
  lemma AtMostOnePerWindow<D>(window: nat, calls: seq<Call<D>>, m: string, i: nat, j: nat)
    requires Chronological(calls)
    requires i < |Run(window, calls).log| && j < |Run(window, calls).log|
    requires Run(window, calls).log[i].msgId == Some(m) == Run(window, calls).log[j].msgId
    requires Run(window, calls).log[i].time < Run(window, calls).log[j].time + window
    requires Run(window, calls).log[j].time < Run(window, calls).log[i].time + window
    ensures i == j
  {
    RunIsValid(window, calls);
  }

  /** The message a call was answered with: stored, under the call's own id, and
      newer than `window` when the call was a duplicate. */
  lemma AckNamesAStoredMessage<D>(window: nat, calls: seq<Call<D>>, i: nat)
    requires Chronological(calls) && i < |calls|
    ensures var a := AckOf(window, calls, i); var log := Run(window, calls).log;
            && a.seqNo < |log| && log[a.seqNo].msgId == calls[i].msgId
            && (!a.duplicate ==> log[a.seqNo] == Stored(calls[i].subject, calls[i].msgId, calls[i].now, calls[i].data))
            && (a.duplicate ==> calls[i].msgId.Some? && calls[i].now - log[a.seqNo].time < window)
  {
    RunIsValid(window, calls[..i]);
    AckedIsStored(Run(window, calls[..i]), window, calls[i]);
    OneMoreCall(window, calls, i);
    RunGrows(window, calls, i + 1);
  }

  lemma OneMoreCall<D>(window: nat, calls: seq<Call<D>>, i: nat)
    requires i < |calls|
    ensures Run(window, calls[..i + 1]) == Append(Run(window, calls[..i]), window, calls[i]).0
  {
    assert calls[..i + 1][..i] == calls[..i];
  }

  lemma AckedIsStored<D>(s: Stream<D>, window: nat, c: Call<D>)
    requires Indexed(s)
    ensures var a := Append(s, window, c).1; var log := Append(s, window, c).0.log;
            && a.seqNo < |log| && log[a.seqNo].msgId == c.msgId
            && (!a.duplicate ==> log[a.seqNo] == Stored(c.subject, c.msgId, c.now, c.data))
            && (a.duplicate ==> c.msgId.Some? && c.now - log[a.seqNo].time < window)
  {
  }

  lemma {:induction false} DedupPointsAtLatest<D>(window: nat, calls: seq<Call<D>>, i: nat, m: string)
    requires Chronological(calls) && i < |calls| && calls[i].msgId == Some(m)
    ensures m in Run(window, calls).dedup && AckOf(window, calls, i).seqNo <= Run(window, calls).dedup[m]
  {
    AckNamesAStoredMessage(window, calls, i);
    RunIsValid(window, calls);
  }

  /** Two calls with one id are answered with the same message exactly when the
      later one falls inside the window of the message the earlier one was
      answered with. The window does not restart with a duplicate. */
  lemma SameIdSameMessage<D>(window: nat, calls: seq<Call<D>>, i: nat, j: nat)
    requires Chronological(calls) && i < j < |calls|
    requires calls[i].msgId.Some? && calls[i].msgId == calls[j].msgId
    ensures AckOf(window, calls, i).seqNo < |Run(window, calls).log|
    ensures AckOf(window, calls, j).seqNo == AckOf(window, calls, i).seqNo
       <==> calls[j].now - Run(window, calls).log[AckOf(window, calls, i).seqNo].time < window
  {
    var before := calls[..j];
    assert Chronological(before) && before[i] == calls[i] && before[..i] == calls[..i];
    AckNamesAStoredMessage(window, before, i);
    DedupPointsAtLatest(window, before, i, calls[i].msgId.value);
    RunIsValid(window, before);
    RunGrows(window, calls, j);
    assert before[|before| - 1].now <= calls[j].now;
    SameAnswerIff(Run(window, before), window, calls[j], AckOf(window, calls, i).seqNo);
  }

  /** A call is answered with an earlier message `a` under its id exactly when it
      falls inside the window of that message. */
  lemma SameAnswerIff<D>(s: Stream<D>, window: nat, c: Call<D>, a: nat)
    requires Valid(s, window) && NotBefore(s, c.now) && a < |s.log|
    requires c.msgId.Some? && s.log[a].msgId == c.msgId
    ensures Append(s, window, c).1.seqNo == a <==> c.now - s.log[a].time < window
  {
    var latest := s.dedup[c.msgId.value];
    assert a <= latest < |s.log|;
    assert s.log[a].time <= s.log[latest].time <= c.now;
    assert a < latest ==> s.log[latest].time - s.log[a].time >= window;
  }

  /** A call without an id is always stored, and no other call of the run is answered
      with its message. */
  lemma NoIdAlwaysAppends<D>(window: nat, calls: seq<Call<D>>, i: nat)
    requires Chronological(calls) && i < |calls| && calls[i].msgId == None
    ensures var a := AckOf(window, calls, i); var log := Run(window, calls).log;
            && !a.duplicate && a.seqNo < |log|
            && log[a.seqNo] == Stored(calls[i].subject, None, calls[i].now, calls[i].data)
    ensures forall j: nat :: j < |calls| && j != i ==> AckOf(window, calls, j).seqNo != AckOf(window, calls, i).seqNo
  {
    AckNamesAStoredMessage(window, calls, i);
    forall j: nat | j < |calls| && j != i
      ensures AckOf(window, calls, j).seqNo != AckOf(window, calls, i).seqNo
    {
      AckNamesAStoredMessage(window, calls, j);
      if j < i {
        EarlierAck(window, calls, j, i);
      } else {
        EarlierAck(window, calls, i, j);
      }
    }
  }

  /** What an earlier call was answered with is in the stream before a later one. */
  lemma EarlierAck<D>(window: nat, calls: seq<Call<D>>, i: nat, j: nat)
    requires Chronological(calls) && i < j < |calls|
    ensures AckOf(window, calls, i).seqNo < |Run(window, calls[..j]).log|
    ensures !AckOf(window, calls, j).duplicate ==> AckOf(window, calls, j).seqNo == |Run(window, calls[..j]).log|
  {
    var before := calls[..j];
    assert before[..i] == calls[..i] && before[i] == calls[i];
    AckNamesAStoredMessage(window, before, i);
  }
}
