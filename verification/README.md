# Verified model of the event bus and its adapters

The repository is an event bus on NATS JetStream and a set of adapters around it. A client library (`libs/jetcore`)
publishes encrypted and signed events, keeps a directory of who can decrypt them, and hands verified events to
adapters. The REST service answers `POST /api/orders?wait=` synchronously by correlating a later event with the
waiting request. The MySQL adapter upserts orders, reports them and publishes every row change from the binlog. The
file storage adapter executes write, read, delete and list commands inside one directory.

Most claims of this model span several of those parts and hold over whole runs:

- **No request is answered 200 for an order that is not in the database**, whatever the interleaving of requests, the
  reply watcher, handlers, redelivery, timeouts, remote failures and shared idempotency keys.
- **File commands change nothing outside the watch directory** while their paths meet no loop of links, and what they
  read outside it is known exactly. The path check is proved against an independent definition of where following the
  path's dots and links ends. After a loop the guarantee fails for some paths, and exactly where the writes go is
  proved.
- **Whether a waiting request can still be answered** is decided by an exact condition, in every reachable state.
- **The watch-fed recipient cache and the one-shot lookup agree**, exactly when the naming discipline separates a NATS
  wildcard from a substring filter.
- **Change data capture reconstructs the database's rows**, whatever statements a table with a primary key executes,
  across any number of restarts, and across gaps in what is retained exactly when the gap is harmless.
- **Files are accounted for**: announced creations less announced deletions say whether a file exists, exactly when
  equally many of each went unannounced.

`dafny verify dfyconfig.toml` checks the whole project.

## How it is modelled

- *Stateful objects* (`BusClient`, `ReceivedEvent`, `RecipientCache`, the KV bucket, `PendingReplies`, `CdcWatcher`,
  the two write-side adapters, `RecentWrites`) are classes whose methods follow the source branch by branch and are
  proved equal to specification functions; the lemmas are about those functions.
- *The order path* (`OrderSystem`) is a labelled step system: every piece of code between two awaits is one step,
  steps of any number of requests, the reply watcher, the write handler and other publishers on the stream interleave,
  each durable consumer is delivered a message until it acks it or five deliveries are used up, and a remote call may
  take effect and answer, take effect and fail, or fail. An order is sealed for the key of one life of the write
  handler, or for none; an exception out of the handler ends its process, and the next one draws a new key. An
  exception out of the watcher ends it for good. `OrderWriter.HandlingIsSteps` ties the imperative handler to the
  steps.
- *Cryptography* is symbolic: a ciphertext is (recipient keys, plaintext), a signature is (key, digest). The nkey text
  form is not symbolic: its base32, prefix and checksum layers are parsed byte by byte, for every 16-bit checksum
  function.
- *The file system* is a tree with symbolic links. Every call follows its path as the kernel does (`Follow`): link
  targets are spliced into the rest of the path, what has something behind it must be a directory, and it gives up
  after 40 links. `Path.resolve` is the recursive, cycle-detecting algorithm of the Python library (version 3.12, as
  in the Dockerfiles). Where that meets a loop it keeps the rest of the path as text, folds the dots in it, and raises
  only if the system meets too many links on the way of the result. Without a loop it is proved to agree with `Walk`,
  which follows a path as the kernel does but, like `Path.resolve`, takes missing components as they are.
- A path *leads directly* if there is no link on the way of the target it is accepted with. Every path that meets no
  loop does, and `FileConfinement.LeadsDirectlyIff` says which others do.
- *JSON* payloads are datatypes with one case for each way decoding can fail, including those that raise an exception
  the decoder does not catch.

## Where the code does less than it promises

Each of these is a lemma that gives the exact condition, or a concrete run.

- A reply can be lost in more ways than the deadline. `create_order` publishes first and registers afterwards, so the
  reply may be consumed and acked in between: from there on no run answers the request 200
  (`ReplyDelivery.EarlyReplyIsLost`, with the run `OrderRuns.ReplyBeforeRegistration`). Requests sharing one event id
  (a repeated `Idempotency-Key`) displace each other in the reply map, and the clean-up of one evicts the other
  (`SharedIdDisplaces`, `CleanUpEvictsTheOther`). An exception out of a fetch or an ack ends the watcher for good.
  `ReplyDelivery.CanStillSucceedIff` is the exact condition under which a waiting request can still be answered.
- An order published while no recipient is known can be read by nobody (`OrderRuns.UnsealedOrderTimesOut`). If the
  publish of a report fails, the exception ends the handler's process, and its next life cannot decrypt the order: it
  stays committed and is never reported (`OrderRuns.FailedReportIsFinal`).
- A requested path that meets a loop of links and goes on with `..` can be accepted without an exception: the loop is
  folded away in the text (`LoopedCommands.LoopAndBackRaisesNothing`), and links behind it have not been looked at.
  With `loop -> loop` and `link -> /out` in the watch directory, a write to `loop/../link/x` is accepted, made at
  `/out/x` and acked (`LoopedCommands.LoopThenLinkWritesOutside`). `PathSafety.AcceptsAfterALoopIff` says which such
  paths are accepted, `LoopedPaths.NowhereUnlessDotsFollow` that without a `..` they lead nowhere, and
  `LoopedCommands.AckedWriteStaysInsideIff` that a write stays inside exactly if its target leads inside.
- A deadline that fires after the reply arrived but before the request wakes still gives 504: a request that wakes is
  answered 200 if and only if its deadline has not fired (`ReplyDelivery.DeadlineDecides`, with the run
  `OrderRuns.ReplyBeforeDeadline`).
- Deduplication counts from the message the stream kept, not from the last attempt, so a retry just outside that
  window is a second order: `EventStream.SameIdSameMessage`.
- A malformed registration leaves the previous one in the cache, while the lookup skips it:
  `Registry.CachedIsLastDelivered`; under the naming discipline this is the only way the two disagree
  (`Registry.CacheAgreesUnlessStale`). A value that raises an error neither reader catches (JSON that is no object,
  bytes that are no Unicode text, nesting too deep) ends the cache's task for good (`Registry.FailedIsFinal`) and
  makes exactly those lookups raise that read it (`Registry.LookupRaisesIff`).
- Late redelivery of an older order undoes a newer one: `Redelivery.LateRedeliveryUndoesAnUpdate`; exactly when tables
  agree is `Redelivery.SameTableIff`.
- A consumer that starts from the earliest retained binlog position gets the table exactly when every older row is
  touched again: `CdcReplay.EmptyStartSufficesIff`. If retention drops changes no session published, the table is
  still exact if and only if each key not replayed has the same row at both ends of the gap
  (`CdcReplay.GapIsHarmlessIff`; `CdcReplay.GapLosesRows` is a gap that does harm).
- A requested path may leave the watch directory and come back, and a listing follows the links of the children it
  lists; both look at links, and the listing at sizes, outside. `FileConfinement.CheckReadsInsideIff` and
  `CommandReadsInsideIff` are the exact conditions under which nothing outside shows, `DetourThroughOutside` is a path
  whose verdict an outside link decides.
- File conservation breaks exactly through unannounced creations and deletions (disk full after open, or a lost
  publish after the effect): `FileRuns.ConservationIff`.
- Some events are neither acked nor refused, on every delivery: a path that meets a loop of links, and too many links
  after folding, a payload that is no Unicode text (except for a write), nesting too deep for the JSON decoder, and a
  target whose first test raises, such as one with a name too long. `FileRuns.RaisesIff` lists all ways an exception
  leaves a file handler, `OrderWriter.EachSettlesOnce` counts them for the database handler;
  `UnreadableIsNeverSettled` (in both) and `FileRuns.OverlongNameIsNeverSettled` are the inputs.

## Model

| member | source | states |
|---|---|---|
| `Base32.DecodeOfEncode` | libs/jetcore/jetcore/crypto.py:138-142 | decoding the base32 of whole five-byte groups gives the bytes back |
| `Base32.EncodeOfDecode` | libs/jetcore/jetcore/crypto.py:138-142 | a text of whole groups that decodes is the encoding of its result |
| `Base32.EncodedGroup` | libs/jetcore/jetcore/crypto.py:138-142 | five bytes and their eight symbols have the same value, read as numbers with the most significant digit first |
| `Nkey.DecodeOfPrint` | libs/jetcore/jetcore/crypto.py:132-150 | the printed form of any 32-byte key has 56 symbols and decodes to that key, for every checksum function; behind it are the prefix of a user key, the key, and the checksum of both, low byte first |
| `Nkey.AcceptsExactlyThePrintedForm` | libs/jetcore/jetcore/crypto.py:132-150 | a text decodes to a key if and only if it is that key's printed form: no padding, no other prefix, no second spelling |
| `Nkey.DecodeIsInjective` | libs/jetcore/jetcore/crypto.py:132-150 | no two texts decode to one key |
| `Nkey.RefusedBecause` | libs/jetcore/jetcore/crypto.py:132-150 | why a text is refused, in this order: no base32, not 35 bytes behind it, a wrong checksum, no user key |
| `EventStream.RunIsValid` | libs/jetcore/jetcore/bus_client.py:274-300 | every run of publishes keeps the log in order, the dedup table on the latest message of each id, and messages of one id a window apart |
| `EventStream.AppendIff` | libs/jetcore/jetcore/bus_client.py:274-300 | a call stores its own message at the end if and only if no message under its id, the latest, is younger than the window; otherwise nothing changes and the answer names that message |
| `EventStream.AtMostOnePerWindow` | libs/jetcore/jetcore/bus_client.py:283-287 | two stored messages of one id less than a window apart are the same message, stream-wide |
| `EventStream.AckNamesAStoredMessage` | libs/jetcore/jetcore/bus_client.py:336-351 | every answer names a stored message under the call's own id; a fresh one is the call's, a duplicate's is younger than the window |
| `EventStream.SameIdSameMessage` | libs/jetcore/jetcore/bus_client.py:283-300 | two calls of one id are answered with one message if and only if the later falls in the window of the message the earlier was answered with |
| `EventStream.NoIdAlwaysAppends` | libs/jetcore/jetcore/bus_client.py:279-281 | a call without an id is stored under its own place, and no other call of the run is answered with its message |
| `DirectoryKeys.KeyIsInjective` | libs/jetcore/jetcore/registry.py:129-131 | with dot-free service ids a directory key determines its subject and its service |
| `DirectoryKeys.MatchesIff` | libs/jetcore/jetcore/registry.py:360-367 | the watch selects exactly the keys of services under the subject, of one token each |
| `DirectoryKeys.ContainsIff` | libs/jetcore/jetcore/registry.py:323-326 | the filter of the lookup selects exactly the keys that have `subject.` anywhere in them |
| `DirectoryKeys.FilterIsWildcard` | libs/jetcore/jetcore/registry.py:323-326 | under the naming discipline the substring filter of the lookup selects the same keys as the watch on `subject.*` |
| `Registry.Bucket.Register` | libs/jetcore/jetcore/registry.py:170-183 | the key's latest entry is the new registration and no other key's latest entry changes |
| `Registry.Bucket.Deregister` | libs/jetcore/jetcore/registry.py:185-189 | the key's latest entry is a deletion and no other key's latest entry changes |
| `Registry.RecipientCache.Consume` | libs/jetcore/jetcore/registry.py:369-398 | the cache after any updates is the fold of the updates, stopped by the first value that kills its task |
| `Registry.RecipientCache.Current` | libs/jetcore/jetcore/registry.py:400-403 | exactly the encryption keys held under some directory key, one for each |
| `Registry.FailedIsFinal` | libs/jetcore/jetcore/registry.py:394-398 | a cache whose task died never changes again |
| `Registry.FailedIff` | libs/jetcore/jetcore/registry.py:369-398 | the task dies exactly of a value that raises what it does not catch |
| `Registry.ReadyIff` | libs/jetcore/jetcore/registry.py:369-398 | the cache is ready exactly once the caught-up marker arrives while the task lives |
| `Registry.EntryIsLastGoodPut` | libs/jetcore/jetcore/registry.py:386-398 | a key is cached with a value if and only if that is its last well-formed put with no later removal, through idle polls, markers and malformed puts |
| `Registry.CachedIsLastDelivered` | libs/jetcore/jetcore/registry.py:390-398 | the cache answers as the last delivered entry does, except exactly when that entry is malformed over a standing registration |
| `Registry.DeliveredLast` | libs/jetcore/jetcore/registry.py:360-367 | a snapshot followed by the live updates delivers, for each watched key, the bucket's latest entry |
| `Registry.LookupRecipients` | libs/jetcore/jetcore/registry.py:303-344 | the retry loop gives the specified result over the bucket as each attempt finds it |
| `Registry.ReadRecipients` | libs/jetcore/jetcore/registry.py:333-344 | one recipient for each well-formed entry, in key order, malformed entries skipped, an error at the first value that raises |
| `Registry.FirstSightDecides` | libs/jetcore/jetcore/registry.py:324-331 | the answer is that of the first attempt that finds a key, whatever later attempts would see |
| `Registry.NobodyIsNoError` | libs/jetcore/jetcore/registry.py:324-331 | a subject for which no attempt finds a key has no recipients, without an error |
| `Registry.RecipientsAreFound` | libs/jetcore/jetcore/registry.py:333-344 | on well-formed values the lookup answers exactly with the registered keys it selects |
| `Registry.CacheAgreesIff` | libs/jetcore/jetcore/registry.py:323-398 | on well-formed values cache and lookup name the same recipients, as multisets, if and only if no registered key contains `subject.` without matching `subject.*` |
| `Registry.LookupRaisesIff` | libs/jetcore/jetcore/registry.py:333-344 | the lookup raises if and only if the latest entry of some key it reads raises an error that is not caught |
| `Registry.CacheAgreesUnlessStale` | libs/jetcore/jetcore/registry.py:303-403 | under the naming discipline, and while no value raises when it is read, cache and lookup name the same recipients if and only if no watched key is malformed over a standing registration |
| `Registry.CacheAgreesWithLookup` | libs/jetcore/jetcore/registry.py:303-403 | in particular they agree while every value is well formed |
| `BusClient.Client.CacheFor` | libs/jetcore/jetcore/bus_client.py:251-254 | a known subject's cache is returned; a first use returns a new one with the snapshot loaded, replacing what a concurrent first use put there, and returns nothing exactly if the watch dies before the caught-up marker |
| `BusClient.Client.Publish` | libs/jetcore/jetcore/bus_client.py:258-351 | returns the event id of the message under its message id that is younger than the window, storing nothing, or an error if retention has dropped that; otherwise stores one message under the subject and message id, whose event has the id returned, the caller's type and correlation id, the client's id and key, a signature over the payload, and the payload sealed for exactly the cached recipients, or nothing if there are none |
| `BusClient.Client.Subscribe` | libs/jetcore/jetcore/bus_client.py:355-372 | registers the client under the subject, leaves other keys alone, and adds exactly the durable consumer it names |
| `BusClient.Client.Fetch` | libs/jetcore/jetcore/bus_client.py:374-421 | fails exactly for an unknown consumer; otherwise hands out the processable messages of the batch |
| `BusGuarantees.PayloadArrivesIff` | libs/jetcore/jetcore/bus_client.py:301-320 | a published payload is accepted byte for byte, with its event's id, type, correlation id and source, if and only if the client's key was among the recipients and the directory holds the signer's key; otherwise nothing is |
| `BusGuarantees.AcceptedIffAuthentic` | libs/jetcore/jetcore/bus_client.py:423-466 | for arbitrary stream contents: an event and payload are handed out if and only if the message is that event, sealed for this client with that payload and signed over it by the key registered for the claimed source |
| `BusGuarantees.RefusedBecause` | libs/jetcore/jetcore/bus_client.py:423-458 | which messages are refused as no envelope, as not sealed for this client, and for a directory entry that is the text form of no key; all others that are refused fail verification |
| `BusGuarantees.EmbeddedKeyIsIrrelevant` | libs/jetcore/jetcore/bus_client.py:433-458 | events differing only in their embedded public key get the same verdict |
| `BusGuarantees.FetchIsExact` | libs/jetcore/jetcore/bus_client.py:411-421 | every processable message appears at the place its processable predecessors leave it, and nothing else appears |
| `BusGuarantees.ReturnedIdIsStoredOnce` | libs/jetcore/jetcore/bus_client.py:336-351 | every id `publish` returns belongs to exactly one stored message |
| `BusGuarantees.SameIdReturnedIff` | libs/jetcore/jetcore/bus_client.py:287-300 | two publishes under one message id return one event id if and only if the later is in the kept message's window |
| `Delivery.ReceivedEvent.Nak` | libs/jetcore/jetcore/bus_client.py:84-111 | adds one refusal with the schedule's delay for this delivery count; the index is always in range |
| `Delivery.BackoffIs` | libs/jetcore/jetcore/bus_client.py:84-111 | the delays after the first, second, third, fourth and every later delivery: 2, 5, 15, 30 and 60 seconds |
| `Delivery.BackoffNeverDecreases` | libs/jetcore/jetcore/bus_client.py:107-111 | delays lie between 2 and 60 seconds and never decrease with the delivery count |
| `Delivery.StepKeepsValid` | libs/jetcore/jetcore/bus_client.py:140-147 | every ack, refusal, silence or delivery keeps the record well formed and brings its end nearer |
| `Delivery.RedeliveryIff` | libs/jetcore/jetcore/bus_client.py:84-147 | a refused message can be delivered again exactly from the schedule's delay after the refusal on, an unanswered one exactly from that delay after its delivery on, after the fifth delivery neither |
| `Delivery.DeliveryIsBounded` | libs/jetcore/jetcore/bus_client.py:128-147 | any mix of refusals and silence, each answering the latest delivery: at most five deliveries, at most ten happenings, each delivery its backoff after the last |
| `Delivery.StopsOnlyWhenSettled` | libs/jetcore/jetcore/bus_client.py:128-147 | a run ends if and only if the message is acked or exhausted, and exhausted only after five deliveries |
| `Delivery.FifthDelivery` | libs/jetcore/jetcore/bus_client.py:137-147 | the fifth delivery comes at least 52 seconds after the first, if no refusal answers an earlier delivery than the latest |
| `Replies.DoneIsFinal` | adapters/rest_api_service/rest_api_service/pending_replies.py:35-61 | nothing changes a future that is completed or cancelled |
| `Replies.FirstReplyWins` | adapters/rest_api_service/rest_api_service/pending_replies.py:48-61 | of all replies consumed the first matching one completes the future, duplicates change nothing |
| `PendingReplies.PendingReplies.Register` | adapters/rest_api_service/rest_api_service/pending_replies.py:35-38 | a new future under the id, displacing an entry already there |
| `PendingReplies.PendingReplies.Unregister` | adapters/rest_api_service/rest_api_service/pending_replies.py:40-46 | whatever entry the id has is removed |
| `PendingReplies.PendingReplies.Resolve` | adapters/rest_api_service/rest_api_service/pending_replies.py:48-61 | completes exactly the pending future the correlation id leads to, and says whether there was one |
| `PendingReplies.PendingReplies.RunReplyWatcher` | adapters/rest_api_service/rest_api_service/pending_replies.py:64-91 | every reply fetched before shutdown is resolved and then acked, in order, matched or not; a fetch that raises ends it with all resolved replies acked, an ack that raises with all but the last |
| `OrderSafety.StepKeepsInv` | adapters/rest_api_service/rest_api_service/app.py:113-139 | every step of every participant keeps the system invariant; whoever was told an event id, by 200, 202 or 504, can find its event in the stream |
| `OrderSafety.RunKeepsInv` | adapters/rest_api_service/rest_api_service/app.py:113-139 | so does every run |
| `OrderAnswers.AnsweredAtOnceIff` | adapters/rest_api_service/rest_api_service/app.py:115-124 | in every run: a request whose publish returned goes on under the event id of the message kept for it, its own or the latest under its `Idempotency-Key` within the window: answered 202 if it asked for no wait; a request whose publish raised is answered 500 |
| `OrderAnswers.WhatIsStored` | adapters/rest_api_service/rest_api_service/app.py:113-117 | what each step appends to the stream, under which subject, message id and time, and when nothing: orders and other events unless a message under their id is younger than the window, reports always, if the call reaches the server; no other step appends anything |
| `OrderAnswers.AnsweredMeansStored` | adapters/rest_api_service/rest_api_service/app.py:115-139 | in every run, the event a request was told of, by 200, 202 or 504, is in the stream |
| `OrderAnswers.AnswerIsFinal` | adapters/rest_api_service/rest_api_service/app.py:113-139 | over any run an answer given is never changed |
| `OrderAnswers.DeadlineCloses` | adapters/rest_api_service/rest_api_service/app.py:129-137 | a deadline that fires before the reply cancels the future, and no later reply gets in |
| `OrderAnswers.DeliveriesAreCounted` | libs/jetcore/jetcore/bus_client.py:128-147 | over any run the consumers' records count the deliveries of each message exactly, and no message is delivered to a consumer more than five times |
| `OrderAnswers.AckedIsNotDelivered` | libs/jetcore/jetcore/bus_client.py:128-147 | over any run, what is acknowledged is not delivered again |
| `OrderAnswers.CanBeDeliveredIff` | libs/jetcore/jetcore/bus_client.py:128-147 | exactly when a message can be delivered to each consumer, to be handled or to be dropped |
| `OrderAnswers.EveryFetchedReplyIsConsumed` | adapters/rest_api_service/rest_api_service/pending_replies.py:64-91 | over any run of a watcher that lives, the replies resolved are the replies fetched, each once and in order, but for the current batch |
| `OrderAnswers.OnlyAStartDrawsAKey` | adapters/db_adapter_mysql/db_adapter_mysql/write_handler.py:64-109 | the handler gets a new key only by being started, and is started only when its process is gone with what it was at |
| `OrderSafety.AnsweredMeansCommitted` | adapters/rest_api_service/rest_api_service/app.py:113-139 | at the moment a request is answered 200, the reply is one to its event id, and an upsert of exactly the order stored under that id, which the reply names, has been committed earlier in the run |
| `OrderSafety.EveryAnswerIsBacked` | adapters/db_adapter_mysql/db_adapter_mysql/write_handler.py:70-109 | the same for every answer given so far, in every reachable state |
| `OrderSafety.OnlyResumeAnswersOk` | adapters/rest_api_service/rest_api_service/app.py:129-139 | only a request's own wake-up answers it 200 |
| `OrderSafety.PendingMeansWaiting` | adapters/rest_api_service/rest_api_service/pending_replies.py:35-46 | in every reachable state each entry of the map belongs to a request still waiting under that id, shared ids included, so the map is empty when nobody waits |
| `OrderSafety.DoneStaysDone` | adapters/rest_api_service/rest_api_service/pending_replies.py:48-61 | over any run no future is completed twice or changed once done |
| `OrderSafety.AckedMeansHandled` | adapters/db_adapter_mysql/db_adapter_mysql/write_handler.py:70-109 | in every reachable state an acked OrderCreated is malformed, or committed and reported under its event id |
| `OrderSafety.TableIsLastCommits` | adapters/db_adapter_mysql/db_adapter_mysql/write_handler.py:50-53 | in every reachable state each row is the last upsert committed for its id, of an order some stored event carries |
| `ReplyDelivery.FutureHoldsFirstReply` | adapters/rest_api_service/rest_api_service/pending_replies.py:48-61 | while a request waits alone under its id its future holds the first reply to that id consumed since, and nothing else |
| `ReplyDelivery.FirstReplyIsDelivered` | adapters/rest_api_service/rest_api_service/app.py:126-139 | such a request is answered 200 with that first reply, and cannot wake if there was none |
| `ReplyDelivery.ConsumedReplyTouchesOneFuture` | adapters/rest_api_service/rest_api_service/pending_replies.py:77-91 | a consumed reply is acked if its ack reaches the server, answers nobody by itself, and changes no future but the pending one of its id |
| `ReplyDelivery.SharedIdDisplaces` | adapters/rest_api_service/rest_api_service/pending_replies.py:35-38 | a second registration under an id leaves only the second request reachable |
| `ReplyDelivery.CleanUpEvictsTheOther` | adapters/rest_api_service/rest_api_service/app.py:138-139 | the clean-up of one request removes the entry of another that shares its id |
| `ReplyDelivery.DeadlineDecides` | adapters/rest_api_service/rest_api_service/app.py:126-139 | after any run since its registration, a request that wakes is answered 200 if and only if its deadline has not fired, and 504 otherwise |
| `OrderRuns.ReplyBeforeDeadline` | adapters/rest_api_service/rest_api_service/app.py:129-137 | a run in which the future holds the reply and the request is answered 504 |
| `ReplyDelivery.StepKeepsDoomed` | adapters/rest_api_service/rest_api_service/app.py:113-139 | no step, a restart of the handler included, makes a future resolvable again once the map does not lead to it, the watcher is dead, or no report on its event can reach the watcher |
| `ReplyDelivery.DoomedTimesOut` | adapters/rest_api_service/rest_api_service/app.py:129-139 | over any run, a request with such a future keeps waiting or is answered 504 |
| `ReplyDelivery.EarlyReplyIsLost` | adapters/rest_api_service/rest_api_service/app.py:115-131 | once nothing can report on an event again, a request that registers under it only then is never answered 200 |
| `OrderRuns.ReplyBeforeRegistration` | adapters/rest_api_service/rest_api_service/app.py:115-131 | a run in which the order is committed, its report consumed and acked, and then no continuation answers the request 200 |
| `OrderRuns.UnsealedOrderTimesOut` | libs/jetcore/jetcore/bus_client.py:301-306 | a run in which an order is published while no recipient is known: with watcher and handler alive, no continuation answers its request 200 |
| `OrderRuns.FailedReportIsFinal` | adapters/db_adapter_mysql/db_adapter_mysql/write_handler.py:103-109 | a run in which the order is committed and the publish of its report fails: the handler ends, and no continuation, restarts included, answers the request 200 |
| `ReplyDelivery.RescueWorks` | adapters/rest_api_service/rest_api_service/app.py:126-131 | while a report can still reach a living watcher, some run answers a listening request 200; it delivers no acked or exhausted message, and none to a reader that cannot decrypt it |
| `ReplyDelivery.CanStillSucceedIff` | adapters/rest_api_service/rest_api_service/app.py:126-139 | before its deadline a waiting request can still be answered 200 by some run if and only if its reply is there, or the map leads to its future, the watcher is alive, and a report on its event is in the watcher's batch, deliverable and sealed for the service, or still to be published by the invocation in flight, or by one for its order, which is deliverable, sealed for the running handler, and not behind a message that ends the handler |
| `OrderPayloads.DecodesIff` | adapters/db_adapter_mysql/db_adapter_mysql/payloads.py:37-51 | a body decodes to an order if and only if it is an object that spells out that order, a valid one, a missing quantity meaning one |
| `OrderPayloads.FailsIff` | adapters/db_adapter_mysql/db_adapter_mysql/payloads.py:37-51 | the decoder lets an exception through exactly for bytes that are no Unicode text and for nesting too deep; every other body that spells no order is malformed |
| `OrderPayloads.DecodeInvertsEncode` | adapters/db_adapter_mysql/db_adapter_mysql/payloads.py:37-51 | an order survives encoding and decoding if and only if it is valid, and nothing that decodes is invalid |
| `OrderPayloads.RowIsLastUpsert` | adapters/db_adapter_mysql/db_adapter_mysql/write_handler.py:50-53 | for any execution sequence, a row exists exactly for executed ids and equals the last upsert for its id |
| `Redelivery.RowIsLastDelivery` | adapters/db_adapter_mysql/db_adapter_mysql/write_handler.py:50-53 | each row is the last delivery for its order id |
| `Redelivery.SameTableIff` | adapters/db_adapter_mysql/db_adapter_mysql/write_handler.py:50-109 | two delivery histories leave one table if and only if they end alike for each order id |
| `Redelivery.StutteringConverges` | adapters/db_adapter_mysql/db_adapter_mysql/write_handler.py:50-109 | deliveries that only stutter each id's exactly-once sequence leave the exactly-once table |
| `Redelivery.LateRedeliveryUndoesAnUpdate` | adapters/db_adapter_mysql/db_adapter_mysql/write_handler.py:50-109 | redelivering an older order after a newer one leaves a different table |
| `Batches.BatchIsRun` | adapters/file_storage_adapter/file_storage_adapter/write_handler.py:67-74 | a batch is a run of exactly its handled deliveries |
| `Batches.FirstExceptionEndsTheBatch` | adapters/db_adapter_mysql/db_adapter_mysql/write_handler.py:64-68 | they are all of the batch, or those up to the first that raises |
| `OrderWriter.WriteCommandHandler.Handle` | adapters/db_adapter_mysql/db_adapter_mysql/write_handler.py:70-109 | decode, upsert, report, settle: the new table, everything done on the bus and whether an exception gets out are as specified, including bodies the decoder raises on and calls that raise |
| `OrderWriter.WriteCommandHandler.RunOnce` | adapters/db_adapter_mysql/db_adapter_mysql/write_handler.py:64-68 | the batch loop handles in order up to the first exception |
| `OrderWriter.EachSettlesOnce` | adapters/db_adapter_mysql/db_adapter_mysql/write_handler.py:70-109 | over any run, settlements number the deliveries, less those an exception got out of, plus those whose ack or nak took effect and raised |
| `OrderWriter.UnreadableIsNeverSettled` | adapters/db_adapter_mysql/db_adapter_mysql/payloads.py:37-44 | a body that is no Unicode text or nested too deep changes nothing, does nothing on the bus, and raises |
| `OrderWriter.NoOrderIsAcked` | adapters/db_adapter_mysql/db_adapter_mysql/write_handler.py:70-79 | every other body that spells no order changes nothing and is acked; only the ack can raise |
| `OrderWriter.AnOrderIsHandled` | adapters/db_adapter_mysql/db_adapter_mysql/write_handler.py:81-109 | a body that spells an order: upserted and committed under the event's id unless the transaction takes no effect; reported if it answers, and acked if the publish answers too; a driver's error is refused; everything else gets out |
| `OrderWriter.EveryAckIsJustified` | adapters/db_adapter_mysql/db_adapter_mysql/write_handler.py:70-109 | over any run, every ack is of a malformed order or comes right after the report of an order whose upsert is committed |
| `OrderWriter.HandlingIsSteps` | adapters/db_adapter_mysql/db_adapter_mysql/write_handler.py:70-109 | the handler and an uninterrupted sequence of system steps make the same changes to table, commits, the consumer's record and stream, and the handler's process ends exactly if an exception gets out |
| `Cdc.CdcWatcher.PublishEvent` | adapters/db_adapter_mysql/db_adapter_mysql/cdc_watcher.py:106-135 | publishes an event's changes row by row, cut off only by a failing publish |
| `Cdc.CdcWatcher.RunPass` | adapters/db_adapter_mysql/db_adapter_mysql/cdc_watcher.py:105-137 | a pass publishes its events in order, looks at the flag after each, and stops exactly at the first look that finds it set |
| `Cdc.CdcWatcher.RunStream` | adapters/db_adapter_mysql/db_adapter_mysql/cdc_watcher.py:84-144 | whatever ends it, the published changes are an in-order prefix of the log's row changes, and of whole events unless a publish raised, whether or not that one took effect; the flag is looked at before every pass and after every event, and the first look that finds it set ends the run |
| `CdcDatabase.EventIsItsChanges` | adapters/db_adapter_mysql/db_adapter_mysql/cdc_watcher.py:106-135 | the changes published for an event do to a set of rows what its statement did: written rows are added, the first row of each pair gives way to the second, deleted rows are removed |
| `CdcDatabase.PublishedIsTheDatabase` | adapters/db_adapter_mysql/db_adapter_mysql/cdc_watcher.py:28-35 | whatever statements a table with a primary key executes, applying the changes published for its binlog by key holds exactly the database's rows, each under its own key |
| `CdcDatabase.CaughtUpIsTheDatabase` | adapters/db_adapter_mysql/db_adapter_mysql/cdc_watcher.py:84-144 | after any number of restarts, once a session has caught up with a binlog from an empty table on, the consumer holds exactly the database's rows |
| `CdcReplay.LastTouchDecides` | adapters/db_adapter_mysql/db_adapter_mysql/payloads.py:74-92 | a key's row is decided by the last change touching it, from whatever table one starts, key-changing updates included |
| `CdcReplay.KeyedTableIsTheDatabase` | adapters/db_adapter_mysql/db_adapter_mysql/cdc_watcher.py:106-135 | applying the changes by key holds exactly the database's rows at every log position |
| `CdcReplay.EmptyStartSufficesIff` | adapters/db_adapter_mysql/db_adapter_mysql/cdc_watcher.py:28-35 | starting empty at the earliest retained position gives the table if and only if every older row is touched again |
| `CdcReplay.ReplayConverges` | adapters/db_adapter_mysql/db_adapter_mysql/cdc_watcher.py:28-35 | at every point of every sequence of restarts, each key with nothing left to replay agrees with the furthest published table |
| `CdcReplay.CaughtUpIsExact` | adapters/db_adapter_mysql/db_adapter_mysql/cdc_watcher.py:28-35 | once a session catches up with the furthest publish, the consumer has exactly the table, however often it restarted |
| `CdcReplay.TailerRunsASession` | adapters/db_adapter_mysql/db_adapter_mysql/cdc_watcher.py:84-144 | what the tailer leaves published, reading from the earliest retained event, is one contiguous stretch of the log's row changes from there |
| `CdcReplay.TailerCatchesUp` | adapters/db_adapter_mysql/db_adapter_mysql/cdc_watcher.py:28-35 | once it has come as far as any of its earlier lives, with nothing dropped unpublished, the consumer has exactly the table |
| `CdcReplay.SessionIsExactIff` | adapters/db_adapter_mysql/db_adapter_mysql/cdc_watcher.py:28-35 | after any sessions, one more gives the table at its end if and only if each key it does not replay already has the row it should have at its start |
| `CdcReplay.GapIsHarmlessIff` | adapters/db_adapter_mysql/db_adapter_mysql/cdc_watcher.py:28-35 | a session that starts beyond the furthest publish gives the table if and only if each key it does not replay has the same row at both ends of the gap |
| `CdcReplay.GapLosesRows` | adapters/db_adapter_mysql/db_adapter_mysql/cdc_watcher.py:28-35 | an instance of a gap that does harm |
| `Resolution.RealpathIsTheWalk` | adapters/file_storage_adapter/file_storage_adapter/paths.py:46-47 | for every path and every set of links, resolution meets no loop and finds a place if and only if the walk that splices link targets, given links enough, gets there; both take missing and non-directory components as they are, where a system call would fail |
| `Resolution.RealpathIsCanonical` | adapters/file_storage_adapter/file_storage_adapter/paths.py:46-47 | a location resolved without meeting a loop has no link and no dot on its way |
| `PathSafety.DenotesOne` | adapters/file_storage_adapter/file_storage_adapter/paths.py:46-47 | a path text leads to at most one place |
| `PathSafety.LeadsSomewhereIff` | adapters/file_storage_adapter/file_storage_adapter/paths.py:46-47 | resolution meets no loop if and only if following the dots and links of the joined path leads somewhere |
| `PathSafety.AcceptsExactlyWhatStaysInside` | adapters/file_storage_adapter/file_storage_adapter/paths.py:43-52 | a path that leads somewhere is accepted with a target if and only if the string is not absolute and following every dot and link of the joined path ends at that target and nowhere else, at or below where the watch directory is; missing components before `..` are walked through, as `resolve` does |
| `PathSafety.AcceptsAfterALoopIff` | adapters/file_storage_adapter/file_storage_adapter/paths.py:43-52 | a path that leads nowhere is accepted with a target if and only if it is not absolute, the text kept at the loop folds to that target with one slash at its front, at or below the root, and the system does not meet too many links on the way of it |
| `PathSafety.LoopingWatchDirectory` | adapters/file_storage_adapter/file_storage_adapter/paths.py:46-52 | a watch directory that itself meets a loop: the check raises for every relative path if the system meets too many links on the way of what its text folds to, and otherwise accepts exactly the paths that from there lead below, or loop and fold to below, with as many slashes at the front |
| `Resolution.JoinIsPathJoin` | adapters/file_storage_adapter/file_storage_adapter/paths.py:46-47 | joining components is `os.path.join` of the texts: an absolute second text replaces the first, a slash is put between them unless there is one |
| `Resolution.TwoSlashesIff` | adapters/file_storage_adapter/file_storage_adapter/paths.py:46-52 | a text keeps two slashes at the front if and only if it begins with two and not three |
| `PathSafety.TargetIsCanonical` | adapters/file_storage_adapter/file_storage_adapter/paths.py:46-52 | a target accepted without meeting a loop is used later without following any link |
| `LoopedPaths.KeptIsOnTheWay` | adapters/file_storage_adapter/file_storage_adapter/paths.py:46-47 | the text kept where resolution meets a loop is what the walk has before it after some number of links, while no link text has a double slash inside |
| `LoopedPaths.NowhereUnlessDotsFollow` | adapters/file_storage_adapter/file_storage_adapter/paths.py:46-47 | a path that meets a loop leads nowhere unless a `..` is in the text kept there, while no link text has a double slash inside: it raises, unless something is missing on the way before the links are too many |
| `Ordering.SortSorts` | adapters/file_storage_adapter/file_storage_adapter/list_handler.py:98 | sorting gives a sorted permutation |
| `Ordering.BeforeIff` | adapters/file_storage_adapter/file_storage_adapter/list_handler.py:98 | the order of names: a prefix comes first, otherwise the first character that differs decides |
| `FileStorageAdapter.Adapter.HandleWrite` | adapters/file_storage_adapter/file_storage_adapter/write_handler.py:76-141 | tree, mark, publish, settlement and whether an exception gets out are as specified on every branch, including each I/O error and an existence test that raises |
| `FileStorageAdapter.Adapter.HandleRead` | adapters/file_storage_adapter/file_storage_adapter/read_handler.py:44-99 | the same for a read, including payloads the decoder raises on |
| `FileStorageAdapter.Adapter.HandleDelete` | adapters/file_storage_adapter/file_storage_adapter/delete_handler.py:42-95 | the same for a deletion |
| `FileStorageAdapter.Adapter.HandleList` | adapters/file_storage_adapter/file_storage_adapter/list_handler.py:44-115 | the same for a listing |
| `FileStorageAdapter.Adapter.CollectEntries` | adapters/file_storage_adapter/file_storage_adapter/list_handler.py:92-99 | one entry for each name in order, or an error at the first that cannot be read |
| `FileStorageAdapter.Adapter.RunOnce` | adapters/file_storage_adapter/file_storage_adapter/write_handler.py:67-74 | the batch loop handles in order up to the first exception |
| `FileStorageAdapter.RunIsRun` | adapters/file_storage_adapter/file_storage_adapter/write_handler.py:67-74 | handling deliveries one after the other gives the trees and effects of the run the run properties below are about |
| `FileConfinement.InterleavedCallsStayInside` | adapters/file_storage_adapter/file_storage_adapter/write_handler.py:90-106 | any interleaving of the handlers' system calls, for paths that lead directly, changes nothing outside the root and no link, so a target accepted once stays accepted |
| `FileConfinement.LeadsDirectlyIff` | adapters/file_storage_adapter/file_storage_adapter/paths.py:46-52 | a path that is not absolute leads directly if and only if it meets no loop, or what its text folds to is outside the root or has no link on its way |
| `FileSystem.MakeDirsIsEnsureDir` | adapters/file_storage_adapter/file_storage_adapter/write_handler.py:104 | on a way without links, the recursion of `mkdir` with parents over the kernel's errors gives what making the missing directories at their places gives, error or not |
| `FileConfinement.MakeDirsStaysInside` | adapters/file_storage_adapter/file_storage_adapter/write_handler.py:104 | making parent directories adds only directories below the root; for a target equal to the root it does nothing |
| `FileConfinement.HandlingStaysInside` | adapters/file_storage_adapter/file_storage_adapter/write_handler.py:90-117 | no command whose path leads directly, with any I/O error, changes anything outside the root |
| `FileConfinement.RunsStayInside` | adapters/file_storage_adapter/file_storage_adapter/write_handler.py:67-141 | nor does any run of such commands; the tree stays well formed with the watch directory in place |
| `FileConfinement.HandlingSeesInside` | adapters/file_storage_adapter/file_storage_adapter/read_handler.py:55-99 | on two trees that differ only outside the root, links included, and not where the watch directory's own resolution looks, a command that leads directly and whose path and listed children stay replies, settles and changes alike |
| `FileConfinement.RunsSeeInside` | adapters/file_storage_adapter/file_storage_adapter/read_handler.py:38-99 | the same for every outcome of a whole run of such commands |
| `Consulting.ResolutionsAgree` | adapters/file_storage_adapter/file_storage_adapter/paths.py:46-47 | links that agree on all places a resolution looks at resolve alike, and where it meets a loop the same text is kept |
| `FileConfinement.CheckReadsInsideIff` | adapters/file_storage_adapter/file_storage_adapter/paths.py:43-52 | the verdict on a path that meets no loop depends on nothing outside the root if and only if resolving it looks only at places inside, on the way to the root, or in the watch directory's own resolution |
| `FileConfinement.CommandReadsInsideIff` | adapters/file_storage_adapter/file_storage_adapter/list_handler.py:57-115 | the reply to a command that leads directly depends on nothing outside the root if and only if its path so stays and, for a listing, following each child looks at such places only |
| `FileConfinement.DetourThroughOutside` | adapters/file_storage_adapter/file_storage_adapter/paths.py:46-52 | a path that leaves the root and comes back is accepted or refused as an outside link says |
| `LoopedCommands.WriteLandsWhereItLeads` | adapters/file_storage_adapter/file_storage_adapter/write_handler.py:102-117 | through whatever links, an acked write leaves its content where its target leads, and otherwise adds only directories on the way there |
| `LoopedCommands.AckedWriteStaysInsideIff` | adapters/file_storage_adapter/file_storage_adapter/write_handler.py:90-141 | an acked write that makes a difference, loop or no loop, changes nothing outside the root if and only if its target leads inside; every link is in a directory |
| `LoopedCommands.LoopThenLinkWritesOutside` | adapters/file_storage_adapter/file_storage_adapter/paths.py:46-52 | an instance: a write to a loop, `..` and a link that leads out is accepted, made outside the root and acked |
| `LoopedCommands.LoopAndBackRaisesNothing` | adapters/file_storage_adapter/file_storage_adapter/paths.py:46-52 | an instance: a loop and `..` alone is accepted without an exception |
| `FileEffects.WriteLeaves` | adapters/file_storage_adapter/file_storage_adapter/write_handler.py:102-141 | a write to a target it leads to directly, if nothing fails or blocks it, leaves the missing directories, the content at the target and no other difference; it marks the target and reports a creation or an update as nothing or something was there |
| `FileEffects.FailedWriteLeaves` | adapters/file_storage_adapter/file_storage_adapter/write_handler.py:103-117 | one that fails while writing leaves the directories and what got to the disk of the content, whatever was there before, and is refused |
| `FileEffects.UnopenedWriteLeaves` | adapters/file_storage_adapter/file_storage_adapter/write_handler.py:103-117 | one that cannot open its target leaves the directories, unless a file is on the way; then it leaves nothing; both are refused |
| `FileEffects.FailedMkdirLeaves` | adapters/file_storage_adapter/file_storage_adapter/write_handler.py:103-117 | one whose `mkdir` fails leaves the directories made so far, and is refused |
| `FileEffects.DeletedLink` | adapters/file_storage_adapter/file_storage_adapter/delete_handler.py:68-95 | deleting a name that is a link, which only a target accepted after a loop can be, removes the link and nothing else |
| `FileRuns.FilesAreAccountedFor` | adapters/file_storage_adapter/file_storage_adapter/write_handler.py:102-141 | over any run of commands that lead directly and for any path, existence after is existence before plus creations less deletions, announced and silent |
| `FileRuns.ConservationIff` | adapters/file_storage_adapter/file_storage_adapter/delete_handler.py:68-95 | in such runs, announced creations less deletions tell whether the file exists if and only if as many creations as deletions were silent |
| `FileRuns.ConservationWithoutFaults` | adapters/file_storage_adapter/file_storage_adapter/write_handler.py:102-141 | without disk errors after opening and lost publishes they always do |
| `FileRuns.ListingIsExact` | adapters/file_storage_adapter/file_storage_adapter/list_handler.py:91-115 | a published listing holds exactly the names of files, directories and links one below, each once, in order, with true kinds and sizes |
| `FileRuns.ListingIgnoresDirectoryOrder` | adapters/file_storage_adapter/file_storage_adapter/list_handler.py:98 | the order the directory is read in does not show |
| `FileRuns.EntryIff` | adapters/file_storage_adapter/file_storage_adapter/list_handler.py:92-99 | a child has an entry, a true one under its name, if and only if something is where it leads: for a directory, one of size 0 |
| `FileRuns.DecodesPathIff` | adapters/file_storage_adapter/file_storage_adapter/payloads.py:34-67 | exactly which payloads decode to which path for each kind of command: only a listing may name the empty path, only a write needs content |
| `FileRuns.AskingForNothing` | adapters/file_storage_adapter/file_storage_adapter/payloads.py:34-67 | a payload that asks for nothing changes nothing and is acked, except nesting too deep and, for any kind but a write, bytes that are no Unicode text: these raise |
| `FileRuns.AckMeansDone` | adapters/file_storage_adapter/file_storage_adapter/write_handler.py:76-141 | for a command that leads directly, every reply on the stream is true of the trees before and after; an acked command was rejected or has such a reply; every reported write was marked as the adapter's own |
| `FileRuns.UndisturbedIsAckedIff` | adapters/file_storage_adapter/file_storage_adapter/write_handler.py:76-117 | without I/O errors and publish failures a command with a target it leads to directly is acked if and only if nothing blocks it (a directory in the file's place, a file on the way, a dangling child) and refused otherwise; an exception leaves the handler exactly when the decoder lets one through, or the path meets a loop of links and too many on the way of what its text folds to |
| `FileRuns.RaisesIff` | adapters/file_storage_adapter/file_storage_adapter/write_handler.py:76-141 | for a command that leads directly, with any faults, before its ack or nak an exception leaves the handler if and only if the decoder lets one through, the path meets a loop and too many links as above, the first test of the target raises, or nothing blocks or disturbs the command and the publish of its report fails |
| `FileRuns.UnreadableIsNeverSettled` | adapters/file_storage_adapter/file_storage_adapter/payloads.py:34-67 | a payload that is no Unicode text raises in the read, delete and list handlers, and is acked by the write handler |
| `FileRuns.OverlongNameIsNeverSettled` | adapters/file_storage_adapter/file_storage_adapter/write_handler.py:102 | a target with a name of more than 255 characters in an existing directory on its way changes nothing and is neither acked nor refused, given that the system refuses such names |
| `FileRuns.SettlesOnce` | adapters/file_storage_adapter/file_storage_adapter/write_handler.py:76-141 | a handling that returns normally acks or refuses exactly once, as its last effect; one that raises not at all, unless it was that call that raised after taking effect |
| `FileRuns.EveryAckIsJustified` | adapters/file_storage_adapter/file_storage_adapter/read_handler.py:44-99 | over any run of commands that lead directly, every ack is of a rejected command or comes right after the true, correlated report of a performed effect |
| `RecentWrites.RecentWrites.Mark` | adapters/file_storage_adapter/file_storage_adapter/recent_writes.py:29-30 | records the mark and keeps the table in step with the history |
| `RecentWrites.RecentWrites.WasRecent` | adapters/file_storage_adapter/file_storage_adapter/recent_writes.py:32-34 | true if and only if the path's latest mark is within the ttl, whatever was pruned before |
| `RecentWrites.RecentWrites.Prune` | adapters/file_storage_adapter/file_storage_adapter/recent_writes.py:36-40 | leaves exactly the marks within the ttl |
| `RecentWrites.LastMarksAreLatest` | adapters/file_storage_adapter/file_storage_adapter/recent_writes.py:27-30 | the table of last marks is the latest mark of each path in the history |
| `RecentWrites.MarkedForTheTtl` | adapters/file_storage_adapter/file_storage_adapter/recent_writes.py:29-40 | a mark makes a path recent for exactly the ttl |
| `Settle.WaitUntilSettled` | adapters/file_storage_adapter/file_storage_adapter/create_watch.py:40-62 | stops at the first poll that ends n+1 equal reads or finds the file gone, whichever is first, and by poll N+n if the size rests from N on |

## Left out

- Whether two trees that differ outside look the same to a command that gets no reply: `CommandReadsInsideIff` is
  about replies, `CheckReadsInsideIff` about every path.
- The cryptography itself and the checksum algorithm: symbolic, or a parameter over which every result is quantified.
  The nkey prefix byte (160) comes from the `nkeys` library, which is not part of this model.
- Malformed recipient key strings, which make encryption raise, and private keys that do not parse.
- JSON and envelope parsing below the level of the fields used; `to_wire` and `from_wire` are taken to be inverse.
- NATS internals: the stream is a log with a dedup table, the directory a log of updates (expiry arrives as a purge,
  its timing is not modelled), a consumer a delivery record, whose messages are delivered in any order. A key deleted
  between `keys()` and `get()` of one lookup, and an empty `Nats-Msg-Id`, are not treated specially.
- The identity directory is a map from service id to a well-formed or malformed entry, read afresh for each message;
  `register_identity` is one write to it, and the repetition of `heartbeat` is further registrations.
- A late ack or nak of an earlier delivery, after its ack wait has expired: the delivery record knows answers to the
  latest delivery only.
- Commands whose paths do not lead directly, which needs a loop: what they read, list and report is modelled, but
  stated for writes and for the deletion of a link only. What redelivery makes of them is not.
- `CheckReadsInsideIff`: for a path that meets a loop only one half is proved, that its verdict depends on nothing
  outside if it stays (`FileConfinement.SameResolution`). With exactly 40 links the other half turns on the limit.
- The list of links already resolved that `realpath` keeps: the model resolves them again, with the same result.
- Retention in the order path: `OrderSystem` keeps every message. `EventStream` and `BusClient.OriginalId` have the
  case where the original is gone.
- Cancellation of `create_order` by a closed connection, process restarts of the REST service, and `close()` of the
  client: only add paths that drop state. A watcher that died stays dead.
- Two processes of the write handler at once, and events of one batch fetched ahead of the one being handled: a fetch
  is the step in which handling begins, and a batch lost with its process is a number of missed deliveries.
- The reply carries the order id; the timestamp and status in the payload are not modelled.
- The clocks of the step system are arbitrary values attached to publishes; wait durations and their cap are not
  modelled, a deadline may fire at any time.
- Futures are indices into a sequence of all futures ever made; task switching inside asyncio is not modelled.
- Database columns other than `order_id`, `item` and `quantity`, collation and length limits; the binlog reader below
  the level of row events; schema changes.
- Outside processes that change the tree or its links while commands run; the source documents this as out of scope.
  Whole handlers are single steps over the tree, except in `FileConfinement.InterleavedCallsStayInside`, where their
  calls interleave.
- Embedded NUL characters and lone surrogates in paths, which make `resolve` raise, permissions beyond a call failing,
  hard links, and file modes. The watch directory is given as an absolute path; the theorems about commands take one
  that meets no loop of links itself.
- System calls give up after 40 links, as on Linux; resolution in the path check follows any number, without the
  recursion limit of Python.
- The loop over file system notifications (`ExternalCreationWatch.run_forever`) is `was_recent`, `wait_until_settled`
  and one publish in sequence, and adds nothing beyond those.
- Clock readings are parameters of `Mark` and `WasRecent`; they do not go back, as `time.monotonic` promises.
- The HTTP adapter, webhook sender and webhook listener, settings, credentials files, entry points, logging and
  deployment scripts: easy members only.
