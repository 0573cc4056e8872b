/** `BusClient` (libs/jetcore/jetcore/bus_client.py): publish seals, signs and
    appends; fetch decrypts and verifies against the identity directory. */
module BusClient {
  import opened Basics
  import opened Crypto
  import opened EventStream
  import opened PyDict
  import Nkey
  import opened DirectoryKeys
  import Registry

  // ---- The wire -----------------------------------------------------------

  /** The envelope; `to_wire` and `from_wire` are taken to be inverse. */
  datatype Event = Event(
    eventId: string,
    eventType: string,
    sourceServiceId: string,
    correlationId: Option<string>,
    signature: Option<Signature>,
    sourcePublicKey: Option<seq<Byte>>,
    recipients: seq<string>,
    ciphertext: Ciphertext)

  datatype Wire = Parsed(event: Event) | Unparsable(raw: seq<Byte>)

  /** A decrypted and verified message, as `fetch` hands it out. */
  datatype Received = Received(event: Event, payload: seq<Byte>)

  /** Values of the identity directory, by service id. */
  datatype Identity = Identity(signingPublicKey: seq<Byte>) | MalformedIdentity

  type Directory = map<string, Identity>

  datatype ProcessError = BadEnvelope | DecryptError | SignatureVerificationError | BadTrustedKey

  datatype PublishError = OriginalGone

  datatype FetchError = NoSuchConsumer

  // ---- Publishing ---------------------------------------------------------

  /** Who publishes: service id, signing key and its text form. */
  datatype Publisher = Publisher(serviceId: string, signingKey: seq<Byte>, signingPublicKey: seq<Byte>)

  /** The envelope built from a payload for the recipients of the moment. An
      empty recipient list seals nothing. */
  function Envelope(p: Publisher, eventId: string, eventType: string, correlationId: Option<string>,
                    payload: seq<Byte>, recipients: seq<string>): (e: Event)
  {
    Event(eventId, eventType, p.serviceId, correlationId,
          Some(Sign(p.signingKey, payload)), Some(p.signingPublicKey), recipients,
          if recipients == [] then Opaque([]) else EncryptFor(payload, recipients))
  }

  /** `lookup_signing_key` */
  function TrustedKey(directory: Directory, serviceId: string): (k: Option<seq<Byte>>) {
    if serviceId in directory && directory[serviceId].Identity? then Some(directory[serviceId].signingPublicKey)
    else None
  }

  /** `_process` */
  function Process(crc16: Nkey.Checksum, key: PrivateKey, directory: Directory, wire: Wire)
    : (r: Result<Received, ProcessError>)
  {
    match wire
    case Unparsable(_) => Failure(BadEnvelope)
    case Parsed(e) =>
      match Decrypt(e.ciphertext, key)
      case None => Failure(DecryptError)
      case Some(plaintext) =>
        if e.signature.None? then Failure(SignatureVerificationError)
        else
          match TrustedKey(directory, e.sourceServiceId)
          case None => Failure(SignatureVerificationError)
          case Some(trusted) =>
            match Verify(crc16, trusted, plaintext, e.signature.value)
            case Failure(_) => Failure(BadTrustedKey)
            case Success(false) => Failure(SignatureVerificationError)
            case Success(true) => Success(Received(e, plaintext))
  }

  class Client {
    const serviceId: string
    const encryptionKey: PrivateKey
    const signingKey: seq<Byte>
    const signingPublicKey: seq<Byte>
    var caches: map<string, Registry.RecipientCache>
    var consumers: set<string>

    constructor (serviceId: string, encryptionKey: PrivateKey, signingKey: seq<Byte>, signingPublicKey: seq<Byte>)
      ensures this.serviceId == serviceId && this.encryptionKey == encryptionKey
      ensures this.signingKey == signingKey && this.signingPublicKey == signingPublicKey
      ensures caches == map[] && consumers == {}
    {
      this.serviceId, this.encryptionKey := serviceId, encryptionKey;
      this.signingKey, this.signingPublicKey := signingKey, signingPublicKey;
      caches, consumers := map[], {};
    }

    function AsPublisher(): Publisher {
      Publisher(serviceId, signingKey, signingPublicKey)
    }

    /** `_cache_for`: the first use of a subject opens a watch and waits until `initial`,
        what it delivers, brings the caught-up marker; if the watch's task dies before
        that, the call waits for ever, and there is no cache. Later uses return the same
        cache. `meanwhile` is what another first use of the subject, waiting at the same
        time, put into the table before: it is replaced. */
    method CacheFor(subject: string, initial: seq<Registry.Item>, meanwhile: Option<Registry.RecipientCache>)
      returns (cache: Option<Registry.RecipientCache>)
      requires forall s :: s in caches ==> caches[s].Valid()
      requires meanwhile.Some? ==> meanwhile.value.Valid()
      modifies this`caches
      ensures cache.None? <==> subject !in old(caches) && !Registry.Consumed(Registry.FRESH, initial).ready
      ensures cache.None? ==> caches == old(caches)
      ensures cache.Some? ==> caches == old(caches)[subject := cache.value] && cache.value.Valid()
      ensures subject in old(caches) ==> cache == Some(old(caches)[subject])
      ensures subject !in old(caches) && cache.Some? ==>
                fresh(cache.value) && cache.value.State() == Registry.Consumed(Registry.FRESH, initial)
    {
      if subject !in caches {
        var c := new Registry.RecipientCache();
        c.Consume(initial);
        if !c.ready {
          return None;
        }
        if meanwhile.Some? {
          caches := caches[subject := meanwhile.value];
        }
        caches := caches[subject := c];
      }
      cache := Some(caches[subject]);
    }

    /** `publish`. `eventId` is the fresh id of the envelope built here; the id
        returned is that of the message the stream kept. */
    method Publish(stream: Stream<Wire>, window: nat, now: nat, cache: Registry.RecipientCache, subject: string,
                   payload: seq<Byte>, eventType: string, correlationId: Option<string>, msgId: Option<string>,
                   eventId: string)
      returns (stream': Stream<Wire>, r: Result<string, PublishError>)
      requires cache.Valid()
      ensures var sent := Append(stream, window, Call(now, subject, msgId,
                Parsed(Envelope(AsPublisher(), eventId, eventType, correlationId, payload, Values(cache.entries)))));
              && stream' == sent.0
              && r == if sent.1.duplicate then OriginalId(sent.0, sent.1.seqNo) else Success(eventId)
      ensures RecentlyStored(stream, window, now, msgId) ==>
                && stream' == stream
                && r == (match KeptEvent(stream, msgId.value)
                         case Some(kept) => Success(kept.eventId)
                         case None => Failure(OriginalGone))
      ensures !RecentlyStored(stream, window, now, msgId) ==>
                && r == Success(eventId)
                && |stream'.log| == |stream.log| + 1 && stream'.log[..|stream.log|] == stream.log
                && var m := stream'.log[|stream.log|];
                   && m.subject == subject && m.msgId == msgId && m.time == now && m.data.Parsed?
                   && m.data.event.eventId == eventId && m.data.event.eventType == eventType
                   && m.data.event.correlationId == correlationId && m.data.event.sourceServiceId == serviceId
                   && m.data.event.sourcePublicKey == Some(signingPublicKey)
                   && m.data.event.signature == Some(Signed(signingKey, Digest(payload)))
                   && m.data.event.recipients == Values(cache.entries)
                   && m.data.event.ciphertext == (if cache.entries == [] then Opaque([])
                                                  else Sealed((set v | v in Values(cache.entries)), payload))
    {
      var recipients := cache.Current();
      var ciphertext := Opaque([]);
      if recipients != [] {
        ciphertext := EncryptFor(payload, recipients);
      }
      var signature := Sign(signingKey, payload);
      var event := Event(eventId, eventType, serviceId, correlationId, Some(signature), Some(signingPublicKey),
                         recipients, ciphertext);
      var sent := Append(stream, window, Call(now, subject, msgId, Parsed(event)));
      stream' := sent.0;
      if sent.1.duplicate {
        r := OriginalId(stream', sent.1.seqNo);
      } else {
        r := Success(eventId);
      }
    }

    /** `subscribe`: register as a recipient, then set up the durable consumer. */
    method Subscribe(bucket: Registry.Bucket, subject: string, durableName: Option<string>) returns (durable: string)
      modifies this`consumers, bucket
      ensures durable == if durableName.Some? && durableName.value != "" then durableName.value
                         else serviceId + "-" + subject
      ensures consumers == old(consumers) + {durable}
      ensures Registry.Registered(bucket.log, KvKey(subject, serviceId)) == Some(encryptionKey.publicKey)
      ensures forall k :: k != KvKey(subject, serviceId) ==>
                Registry.LastUpdate(bucket.log, k) == Registry.LastUpdate(old(bucket.log), k)
    {
      durable := if durableName.Some? && durableName.value != "" then durableName.value else serviceId + "-" + subject;
      bucket.Register(subject, serviceId, encryptionKey.publicKey);
      consumers := consumers + {durable};
    }

    /** `fetch`: the messages of the batch this client can process, in order.
        `directories[i]` is the identity directory as message `i` finds it.
        Nothing is acknowledged or refused here. */
    method Fetch(crc16: Nkey.Checksum, durable: string, batch: seq<Wire>, directories: seq<Directory>)
      returns (r: Result<seq<Received>, FetchError>)
      requires |directories| == |batch|
      ensures durable !in consumers <==> r == Failure(NoSuchConsumer)
      ensures durable in consumers ==> r == Success(Kept(Verdicts(crc16, encryptionKey, batch, directories)))
    {
      if durable !in consumers {
        return Failure(NoSuchConsumer);
      }
      ghost var verdicts := Verdicts(crc16, encryptionKey, batch, directories);
      var received := [];
      var i := 0;
      while i < |batch|
        invariant 0 <= i <= |batch|
        invariant received == Kept(verdicts[..i])
      {
        assert verdicts[..i + 1][..i] == verdicts[..i];
        match Process(crc16, encryptionKey, directories[i], batch[i]) {
          case Success(event) => received := received + [event];
          case Failure(_) =>
        }
        i := i + 1;
      }
      assert verdicts[..|verdicts|] == verdicts;
      r := Success(received);
    }
  }

  /** The stream knows a message under this message id that is younger than the window. */
  predicate RecentlyStored(stream: Stream<Wire>, window: nat, now: nat, msgId: Option<string>) {
    && msgId.Some? && msgId.value in stream.dedup
    && stream.dedup[msgId.value] < |stream.log| && now - stream.log[stream.dedup[msgId.value]].time < window
  }

  /** The event of that message, if it is still retained. */
  function KeptEvent(stream: Stream<Wire>, msgId: string): (e: Option<Event>)
    requires msgId in stream.dedup
  {
    var seqNo := stream.dedup[msgId];
    if stream.first <= seqNo < |stream.log| && stream.log[seqNo].data.Parsed? then Some(stream.log[seqNo].data.event)
    else None
  }

  /** The event id embedded in the message a duplicate points at. */
  function OriginalId(stream: Stream<Wire>, seqNo: nat): (r: Result<string, PublishError>) {
    var original := GetMsg(stream, seqNo);
    if original.Some? && original.value.Parsed? then Success(original.value.event.eventId) else Failure(OriginalGone)
  }

  /** What becomes of each message of a batch. */
  function Verdicts(crc16: Nkey.Checksum, key: PrivateKey, batch: seq<Wire>, directories: seq<Directory>)
    : (v: seq<Result<Received, ProcessError>>)
    requires |directories| == |batch|
  {
    seq(|batch|, i requires 0 <= i < |batch| => Process(crc16, key, directories[i], batch[i]))
  }

  /** The successes among `verdicts`, in order. */
  function Kept<T, E>(verdicts: seq<Result<T, E>>): (kept: seq<T>) {
    if verdicts == [] then []
    else
      match verdicts[|verdicts| - 1]
      case Success(event) => Kept(verdicts[..|verdicts| - 1]) + [event]
      case Failure(_) => Kept(verdicts[..|verdicts| - 1])
  }
}

/** What the pipeline guarantees. */
module BusGuarantees {
  import opened Basics
  import opened Crypto
  import opened EventStream
  import opened BusClient
  import Nkey

  /** A subscriber gets a published payload back, byte for byte, exactly when its
      key was among the recipients at publish time and the directory at
      processing time holds the signer's key in its text form. Otherwise it gets
      nothing from this message. */
  lemma PayloadArrivesIff(crc16: Nkey.Checksum, p: Publisher, eventId: string, eventType: string,
                          correlationId: Option<string>, payload: seq<Byte>, recipients: seq<string>,
                          key: PrivateKey, directory: Directory)
    requires |p.signingKey| == 32
    ensures var e := Envelope(p, eventId, eventType, correlationId, payload, recipients);
            var r := Process(crc16, key, directory, Parsed(e));
            && (r == Success(Received(e, payload)) <==>
                  key.publicKey in recipients &&
                  TrustedKey(directory, p.serviceId) == Some(Nkey.Print(crc16, p.signingKey)))
            && (r.Success? ==>
                  && r.value.payload == payload
                  && r.value.event.eventId == eventId && r.value.event.eventType == eventType
                  && r.value.event.correlationId == correlationId && r.value.event.sourceServiceId == p.serviceId)
  {
    match TrustedKey(directory, p.serviceId) {
      case Some(trusted) => VerifiesIff(crc16, trusted, p.signingKey, payload);
      case None =>
    }
  }

  /** A signature verifies under exactly one key text: that of the key that made it. */
  lemma VerifiesIff(crc16: Nkey.Checksum, trusted: seq<Byte>, signer: seq<Byte>, plaintext: seq<Byte>)
    requires |signer| == 32
    ensures Verify(crc16, trusted, plaintext, Sign(signer, plaintext)) == Success(true)
       <==> trusted == Nkey.Print(crc16, signer)
  {
    Nkey.AcceptsExactlyThePrintedForm(crc16, trusted, signer);
  }

  /** Whatever the stream holds, what is accepted is the message's own event; its payload
      carries a signature made over it by the key the directory registers for the claimed
      source, and was sealed for this client; and every such message is accepted. */
  lemma AcceptedIffAuthentic(crc16: Nkey.Checksum, key: PrivateKey, directory: Directory, wire: Wire, e: Event,
                             payload: seq<Byte>)
    ensures Process(crc16, key, directory, wire) == Success(Received(e, payload))
       <==> wire == Parsed(e) &&
            (exists signer :: |signer| == 32
               && TrustedKey(directory, e.sourceServiceId) == Some(Nkey.Print(crc16, signer))
               && e.signature == Some(Signed(signer, Digest(payload)))
               && Decrypt(e.ciphertext, key) == Some(payload))
  {
    var r := Process(crc16, key, directory, wire);
    if r == Success(Received(e, payload)) {
      var trusted := TrustedKey(directory, e.sourceServiceId).value;
      var signer := Nkey.DecodePublic(crc16, trusted).value;
      Nkey.AcceptsExactlyThePrintedForm(crc16, trusted, signer);
    }
    forall signer | wire == Parsed(e) && |signer| == 32
              && TrustedKey(directory, e.sourceServiceId) == Some(Nkey.Print(crc16, signer))
              && e.signature == Some(Signed(signer, Digest(payload)))
              && Decrypt(e.ciphertext, key) == Some(payload)
      ensures r == Success(Received(e, payload))
    {
      Nkey.DecodeOfPrint(crc16, signer);
    }
  }

  /** The trusted key of a service is what its well-formed entry in the directory says. */
  lemma TrustedKeyIff(directory: Directory, serviceId: string, text: seq<Byte>)
    ensures TrustedKey(directory, serviceId) == Some(text)
       <==> serviceId in directory && directory[serviceId] == Identity(text)
  {
  }

  /** What is refused, and why: bytes that are no envelope; what is not sealed for this
      client; no signature, or no well-formed entry of the claimed source in the directory;
      an entry there that is the text form of no key; a signature of another key or over
      something else. */
  lemma RefusedBecause(crc16: Nkey.Checksum, key: PrivateKey, directory: Directory, wire: Wire)
    ensures var r := Process(crc16, key, directory, wire);
            && (r == Failure(BadEnvelope) <==> wire.Unparsable?)
            && (r == Failure(DecryptError) <==> wire.Parsed? && Decrypt(wire.event.ciphertext, key) == None)
            && (r == Failure(BadTrustedKey) <==>
                  && wire.Parsed? && Decrypt(wire.event.ciphertext, key).Some? && wire.event.signature.Some?
                  && TrustedKey(directory, wire.event.sourceServiceId).Some?
                  && forall signer :: |signer| == 32 ==>
                       TrustedKey(directory, wire.event.sourceServiceId) != Some(Nkey.Print(crc16, signer)))
  {
    if wire.Parsed? && Decrypt(wire.event.ciphertext, key).Some? && wire.event.signature.Some? {
      match TrustedKey(directory, wire.event.sourceServiceId)
      case None =>
      case Some(text) =>
        var decoded := Nkey.DecodePublic(crc16, text);
        forall signer | |signer| == 32 ensures text == Nkey.Print(crc16, signer) <==> decoded == Success(signer) {
          Nkey.AcceptsExactlyThePrintedForm(crc16, text, signer);
        }
        if decoded.Success? {
          Nkey.AcceptsExactlyThePrintedForm(crc16, text, decoded.value);
        }
    }
  }

  /** The key a message carries about itself plays no part in the verdict. */
  lemma EmbeddedKeyIsIrrelevant(crc16: Nkey.Checksum, key: PrivateKey, directory: Directory, e: Event,
                                claimed: Option<seq<Byte>>)
    ensures var e' := e.(sourcePublicKey := claimed);
            var r, r' := Process(crc16, key, directory, Parsed(e)), Process(crc16, key, directory, Parsed(e'));
            && (r.Success? <==> r'.Success?)
            && (r.Success? ==> r'.value.payload == r.value.payload)
            && (r.Failure? ==> r'.error == r.error)
  {
  }

  /** How many of the first `n` verdicts are successes. */
  function SuccessesBefore<T, E>(verdicts: seq<Result<T, E>>, n: nat): (c: nat)
    requires n <= |verdicts|
  {
    if n == 0 then 0 else SuccessesBefore(verdicts, n - 1) + if verdicts[n - 1].Success? then 1 else 0
  }

  lemma {:induction false} PrefixCount<T, E>(verdicts: seq<Result<T, E>>, n: nat, m: nat)
    requires n <= m <= |verdicts|
    ensures SuccessesBefore(verdicts[..m], n) == SuccessesBefore(verdicts, n)
  {
    if n > 0 {
      PrefixCount(verdicts, n - 1, m);
    }
  }

  lemma {:induction false} KeptSize<T, E>(verdicts: seq<Result<T, E>>)
    ensures |Kept(verdicts)| == SuccessesBefore(verdicts, |verdicts|)
  {
    if verdicts != [] {
      var n := |verdicts| - 1;
      KeptSize(verdicts[..n]);
      PrefixCount(verdicts, n, n);
    }
  }

  /** `fetch` hands out exactly the processable messages, in batch order: message
      `i` comes at the place its processable predecessors leave it, and nothing
      else is there. */
  lemma {:induction false} FetchIsExact<T, E>(verdicts: seq<Result<T, E>>, i: nat)
    requires i < |verdicts|
    ensures |Kept(verdicts)| == SuccessesBefore(verdicts, |verdicts|)
    ensures verdicts[i].Success? ==>
              && SuccessesBefore(verdicts, i) < |Kept(verdicts)|
              && Kept(verdicts)[SuccessesBefore(verdicts, i)] == verdicts[i].value
  {
    var n := |verdicts| - 1;
    KeptSize(verdicts);
    KeptSize(verdicts[..n]);
    PrefixCount(verdicts, n, n);
    if i < n {
      FetchIsExact(verdicts[..n], i);
      PrefixCount(verdicts, i, n);
    }
  }

  // ---- Ids returned by publish --------------------------------------------

  /** Every call of a run built its envelope with an id of its own. */
  ghost predicate FreshIds(calls: seq<Call<Wire>>) {
    && (forall i :: 0 <= i < |calls| ==> calls[i].data.Parsed?)
    && (forall i, j :: 0 <= i < j < |calls| ==> calls[i].data.event.eventId != calls[j].data.event.eventId)
  }

  /** What `publish` returns for call `i`, the original still being retained. */
  function ReturnedId(window: nat, calls: seq<Call<Wire>>, i: nat): (r: Result<string, PublishError>)
    requires i < |calls|
  {
    var sent := Append(Run(window, calls[..i]), window, calls[i]);
    if sent.1.duplicate then OriginalId(sent.0, sent.1.seqNo)
    else if calls[i].data.Parsed? then Success(calls[i].data.event.eventId)
    else Failure(OriginalGone)
  }

  lemma {:induction false} StoredComesFromACall(window: nat, calls: seq<Call<Wire>>)
    returns (origin: seq<nat>)
    ensures |origin| == |Run(window, calls).log|
    ensures forall q :: 0 <= q < |origin| ==>
              origin[q] < |calls| && Run(window, calls).log[q].data == calls[origin[q]].data
    ensures forall q, r :: 0 <= q < r < |origin| ==> origin[q] < origin[r]
    ensures Run(window, calls).first == 0
  {
    origin := [];
    if calls != [] {
      var n := |calls| - 1;
      origin := StoredComesFromACall(window, calls[..n]);
      if !IsDuplicate(Run(window, calls[..n]), window, calls[n]) {
        origin := origin + [n];
      }
    }
  }

  /** Every id returned belongs to exactly one stored message, the one the call
      was acknowledged with. */
  lemma ReturnedIdIsStoredOnce(window: nat, calls: seq<Call<Wire>>, i: nat)
    requires Chronological(calls) && FreshIds(calls) && i < |calls|
    ensures ReturnedId(window, calls, i).Success?
    ensures var log, id := Run(window, calls).log, ReturnedId(window, calls, i).value;
            && AckOf(window, calls, i).seqNo < |log|
            && (forall q :: 0 <= q < |log| ==>
                  log[q].data.Parsed? && (log[q].data.event.eventId == id <==> q == AckOf(window, calls, i).seqNo))
  {
    var log := Run(window, calls).log;
    var origin := StoredComesFromACall(window, calls);
    AckNamesAStoredMessage(window, calls, i);
    RunGrows(window, calls, i);
    var before := StoredComesFromACall(window, calls[..i]);
    var a := AckOf(window, calls, i);
    if a.duplicate {
      assert Run(window, calls[..i]).log[a.seqNo] == log[a.seqNo];
    }
    assert ReturnedId(window, calls, i) == Success(log[a.seqNo].data.event.eventId);
    forall q | 0 <= q < |log|
      ensures log[q].data.Parsed? && (log[q].data.event.eventId == log[a.seqNo].data.event.eventId <==> q == a.seqNo)
    {
      assert origin[q] != origin[a.seqNo] || q == a.seqNo;
    }
  }

  /** Calls that share a message id are told the same event id exactly when the
      later one falls inside the window of the message kept for the earlier. */
  lemma SameIdReturnedIff(window: nat, calls: seq<Call<Wire>>, i: nat, j: nat)
    requires Chronological(calls) && FreshIds(calls) && i < j < |calls|
    requires calls[i].msgId.Some? && calls[i].msgId == calls[j].msgId
    ensures AckOf(window, calls, i).seqNo < |Run(window, calls).log|
    ensures ReturnedId(window, calls, i) == ReturnedId(window, calls, j)
       <==> calls[j].now - Run(window, calls).log[AckOf(window, calls, i).seqNo].time < window
  {
    SameIdSameMessage(window, calls, i, j);
    ReturnedIdIsStoredOnce(window, calls, i);
    ReturnedIdIsStoredOnce(window, calls, j);
  }
}
