# ZmqMessage, verified

ZmqMessage is a C++ library for sending and receiving ZeroMQ multipart messages. This project
models the parts of it that keep state and proves what they guarantee: the outgoing state
machine (`Sink`), the parts whose copying moves them and the growing storage they live in, the
incoming side with its routing envelope, the relays, the content comparisons, and the
asynchronous worker of the `zasync` example. `dafny verify dfyconfig.toml` checks everything.

## How it is built

| file | models |
|---|---|
| `Frames.dfy`, `Sockets.dfy` | frames and messages; the two ends of a socket as environments |
| `Part.dfy`, `PartsStorage.dfy` | moving ownership, raw memory, the scoped buffer, growing and fixed storage |
| `SinkSpec.dfy`, `Sink.dfy` | the outgoing state machine as a function of one call and one socket answer; the object proved against it |
| `SinkSafety.dfy`, `RunFacts.dfy`, `Steps.dfy` | what holds in every run, errors and retries included; single calls case by case |
| `Transmissions.dfy`, `Resending.dfy`, `Outgoing.dfy` | complete messages: all or nothing, sending a detached queue later, and the object that sends them |
| `Receiving.dfy`, `Incoming.dfy` | receiving counted in parts; the object proved against it |
| `RoundTrip.dfy`, `Relay.dfy` | from one end to the other, requests and their replies; streams through chains of relays |
| `Compare.dfy` | `msgcmp` and `StringFace` against the byte order |
| `AsyncSpec.dfy`, `AsyncWorker.dfy` | the worker as a transition system, and as an object built on `Sink` and `Incoming` |

A socket answers each send with accepted, would block, or failed. Its answers are an arbitrary
function of how many sends came before, so a theorem about all calls and answers is about all
runs; a would-block answer is allowed with and without the non-blocking option. An accepted part is emptied, a refused one stays as it was. What
the socket and the send observer see is one timeline of events, from which the frames on the wire
and the announcements are projected. An exception is an outcome that is not `Done`. A slot is
`None` when the part in it is not valid; invalid parts are not excluded on insertion.
A sink in a linked `Outgoing` is made by `Sinks.Sink.constructor` followed by
`Sinks.Sink.SendRouting` with the stored envelope, or with no parts for the unlinked kind;
with simple routing the second call is absent. The destructor is the method `Dispose`.
A socket received from holds the frames still to come; streams consist of whole messages, as
ZeroMQ guarantees.

## Where the code and its documentation disagree

The model follows the code.

- `Sink.hpp:151` calls DROPPING terminal. A one-part message whose only send blocks inside `flush`
  goes on to FLUSHED and the observer is told of a flush (`Transmissions.AllOrNothing`,
  `SinkSafety.EveryRunIsSafe`).
- `doc_pages.hpp:57` (quoting ZeroMQ) promises all parts of a message or none. After an error
  part-way the destructor's flush can end the message early, so that the peer receives the
  parts up to the one refused as a whole message (`Transmissions.AbandonedEndsEarly`).
- `Observers.hpp:48-50` says the observer does not hear of routing parts. `send` of a detached
  message announces all its parts (`Resending.DeferredAnnouncesRouting`).
- `zasync.cpp:195` says 1 to `max_task_steps` steps; the expression gives 1 to `max_task_steps - 1`.
- `ZmqTools.hpp:259-262` says `msgcmp` returns like `memcmp`; it does so exactly under the
  condition of `Comparing.MsgCmpExact`, and `Comparing.MsgCmpFails` gives sizes where it does not.
- `Part` insertion is documented as taking ownership; inserting a part already released can leave
  a message on the wire without a last frame (`RunFacts.ReleasedPartLeavesMessageOpen`), exactly
  when it is inserted last (`RunFacts.ClosedIffLastPartValid`).

## Model

| member | source | states |
|---|---|---|
| SinkSafety.EveryRunIsSafe | include/zmqmessage/ZmqMessageFullImpl.hpp:288-451 | for all calls and answers, errors and retries included: the parts taken over are, in order, those given up before anything went out, those on the wire, those detached and those still held; all frames but the last carry SNDMORE; the state tells what was sent and where the parts are; on_flush at most once |
| SinkSafety.TakenInOrder | include/zmqmessage/ZmqMessageFullImpl.hpp:364-415 | parts are taken over in the order they were offered, none twice |
| SinkSafety.WhoOwnsAfterInsertion | include/zmqmessage/ZmqMessageFullImpl.hpp:364-415 | the caller keeps a part exactly when its insertion throws or the message is dropped or flushed |
| SinkSafety.TakenOrKept | include/zmqmessage/ZmqMessageFullImpl.hpp:364-415 | after every run each part offered was either taken over or is still its caller's, and not both |
| SinkSafety.OneOwner | include/zmqmessage/ZmqMessageFullImpl.hpp:288-451 | in every run each content offered is in exactly one place: with its caller, on the wire, in a detached message, held by the sink, or given up before the first frame |
| Sinks.SentOwners | include/zmqmessage/ZmqMessageFullImpl.hpp:153-195 | parts of another message sent with copying stay as they were; sent without, each is either taken over or still there, and not both |
| Sinks.OneOwnerAfterSending | include/zmqmessage/ZmqMessageFullImpl.hpp:453-475 | any run, then parts of an incoming message or an envelope sent without copying, up to an error or to the end: each content has exactly one owner among callers, incoming message, wire, detached messages and sink, unless given up |
| SinkSafety.DroppedAndFlushedAreFinal | include/zmqmessage/Sink.hpp:146-153 | after a public call, dropped and flushed messages stay so: no later calls send, announce, take or throw anything, a second flush included |
| SinkSpec.RunConcat | include/zmqmessage/ZmqMessageFullImpl.hpp:364-451 | running one batch of calls and then another is running both, so what is proved of runs holds for any sequence of method calls |
| SinkSafety.InsertionConserves | include/zmqmessage/ZmqMessageFullImpl.hpp:364-415 | one insertion only moves parts: held plus given equals lost, sent and held |
| SinkSafety.FlushConserves | include/zmqmessage/ZmqMessageFullImpl.hpp:417-451 | the same for flush |
| SinkSafety.InsertionReachable | include/zmqmessage/ZmqMessageFullImpl.hpp:364-415 | insertion keeps the relation between state, look-ahead part, queue and wire |
| SinkSafety.FlushReachable | include/zmqmessage/ZmqMessageFullImpl.hpp:417-451 | so does flush |
| SinkSafety.FirstFlush | include/zmqmessage/ZmqMessageFullImpl.hpp:288-347 | the part of a one-part message is sent, queued, dropped or kept, and only one of these |
| StepFacts.InsertionErrors | include/zmqmessage/ZmqMessageFullImpl.hpp:288-415 | exactly when an insertion throws which error, and what it leaves: the caller's part, and everything else as it was, so that it can be tried again; only a socket error at the first send gives the look-ahead part up |
| StepFacts.FlushErrors | include/zmqmessage/ZmqMessageFullImpl.hpp:417-451 | the same for flush |
| StepFacts.InsertionDone | include/zmqmessage/ZmqMessageFullImpl.hpp:364-415 | what an insertion without an error does to state, look-ahead part, queue, routing counter and the caller's part, state by state |
| StepFacts.FlushDone | include/zmqmessage/ZmqMessageFullImpl.hpp:417-451 | the same for flush |
| StepFacts.InsertionSeen | include/zmqmessage/ZmqMessageFullImpl.hpp:223-286 | what the observer and the socket see of an insertion: nothing, or the notice unless routing is pending and then the attempt, with SNDMORE and the blocking flag of the options |
| StepFacts.FlushSeen | include/zmqmessage/ZmqMessageFullImpl.hpp:223-286 | the same for flush, without SNDMORE, and the notice of the flush exactly if it ends the message |
| StepFacts.BlockedCallsVanish | include/zmqmessage/ZmqMessageFullImpl.hpp:335-341 | in every run, user insertions and flushes that threw because they would block can be left out: state, wire and what became of every part are those of the run without them |
| StepFacts.TriedAgain | include/zmqmessage/ZmqMessageFullImpl.hpp:335-341 | so a message tried again and again after would-block errors until it goes through is on the wire as a whole, with nothing lost |
| StepFacts.EveryRunIsInOrder | include/zmqmessage/ZmqMessageFullImpl.hpp:223-286 | in every run all attempts have the blocking flag of the options, none is made when blocking is emulated, each notice of a part comes directly before the attempt to send it, and nothing follows the notice of a flush |
| RunFacts.FlushedIsWhole | include/zmqmessage/ZmqMessageFullImpl.hpp:288-451 | in every run with valid parts, errors and retries included, a flushed message is either one complete message on the wire, with nothing queued or detached and the parts given up before it a prefix of those taken, or it is not on the wire at all and all its parts are queued, detached or given up |
| RunFacts.RunsStayClosable | include/zmqmessage/ZmqMessageFullImpl.hpp:417-451 | in every run with valid parts, a message under way still holds the part that will close it |
| RunFacts.PendingRoutingIsExact | include/zmqmessage/Sink.hpp:167-172 | the pending routing counter equals routing parts inserted minus frames sent, never below zero, in every run |
| RunFacts.ClosedIffLastPartValid | include/zmqmessage/ZmqMessageFullImpl.hpp:388-402 | once a message is under way, an accepted flush ends it on the wire if and only if the part inserted last was valid |
| RunFacts.ReleasedPartLeavesMessageOpen | include/zmqmessage/Part.hpp:121-135 | a concrete run in which moving an invalid part leaves the message without a last frame |
| RunFacts.QueueingHasQueue | include/zmqmessage/ZmqMessageFullImpl.hpp:403-407 | in every run that does not detach while parts are being queued, queueing means there is a queue, and no assert fails |
| RunFacts.SecondReplyHasNoEnvelope | include/zmqmessage/ZmqMessageFullImpl.hpp:153-176 | a second reply without copying sends none of the released envelope but counts it as pending |
| RunFacts.SecondReplyAnnouncesLess | include/zmqmessage/ZmqMessageFullImpl.hpp:264-286 | such a reply goes out without its envelope, and the observer hears of none of its first parts, as many as the envelope had, and of all that follow |
| Transmissions.AllOrNothing | include/zmqmessage/ZmqMessageFullImpl.hpp:288-451 | for all parts, options and answers: a transmission is free of errors exactly when its first send blocks and the options say what to do, or all sends are accepted; then everything seen is known event by event, or nothing reached the socket and the queue holds exactly the parts, or nothing is queued either |
| Transmissions.DirectSeen | include/zmqmessage/ZmqMessageFullImpl.hpp:223-286 | a direct transmission is one message on the wire, and the observer hears of exactly the user's parts in order |
| Transmissions.Direct | include/zmqmessage/ZmqMessageFullImpl.hpp:364-451 | the exact events of a transmission whose sends are all accepted |
| Transmissions.BlockedAndHeld | include/zmqmessage/ZmqMessageFullImpl.hpp:317-343 | a blocked first send diverts the whole message, nothing of it is on the wire |
| Transmissions.Refused | include/zmqmessage/ZmqMessageFullImpl.hpp:223-237 | a refusal at any later send makes the transmission throw |
| Transmissions.AbandonedEndsEarly | include/zmqmessage/ZmqMessageFullImpl.hpp:495-507 | when a part behind the first is refused and the destructor's flush is accepted, the wire has a message complete in form that ends with the part refused at first; if that flush is refused too, the message is left open |
| Resending.DeferredEqualsDirect | include/zmqmessage/ZmqMessageFullImpl.hpp:20-39 | a message whose first send blocked, sent later from its detached queue, puts on the wire exactly the frames of a run that never blocked |
| Resending.DeferredAnnouncesRouting | include/zmqmessage/ZmqMessageFullImpl.hpp:20-39 | the observer of a later send hears of routing parts too, so it is told the same exactly when there are none |
| Resending.SendingAgain | include/zmqmessage/ZmqMessageFullImpl.hpp:20-39 | sending again after an error part-way repeats the sent parts as empty frames; the frames are right if and only if they were empty before |
| Resending.AcceptedUpTo | include/zmqmessage/ZmqMessageFullImpl.hpp:26-34 | accepted parts go out in order, flagged up to the last of the message |
| Resending.DoneMeansTaken | include/zmqmessage/ZmqMessageFullImpl.hpp:26-34 | send ends without error only if every part was accepted |
| Resending.Send | include/zmqmessage/ZmqMessageFullImpl.hpp:20-39 | sends the parts up to the first error; what is seen is, part by part, the announcement if there is an observer and then the attempt, with the blocking flag asked for and SNDMORE on all but the last of the message; the answers are those the socket gives from then on; says what is left in the message |
| Resending.SeenOfSending | include/zmqmessage/ZmqMessageFullImpl.hpp:25-33 | the same of the specification, with which error which answer gives |
| Resending.DeliverQueue | include/zmqmessage/ZmqMessageFullImpl.hpp:20-39 | a detached message of owned parts is on the wire as one message if and only if the socket accepts every part; every attempt has the blocking flag asked for |
| Sinks.Sink.constructor | include/zmqmessage/Sink.hpp:160-165 | a new sink holds nothing and has sent nothing |
| Sinks.Sink.DoSendOneNonStrict | include/zmqmessage/ZmqMessageFullImpl.hpp:239-262 | announces unless routing is pending, offers the part once, counts routing down only if accepted |
| Sinks.Sink.DoSendOne | include/zmqmessage/ZmqMessageFullImpl.hpp:223-237 | the same where anything but acceptance throws |
| Sinks.Sink.TrySendFirstCached | include/zmqmessage/ZmqMessageFullImpl.hpp:288-347 | makes exactly the step TrySendFirst; a would-block error leaves everything as it was, a socket error gives up the look-ahead part only |
| Sinks.Sink.Fallback | include/zmqmessage/ZmqMessageFullImpl.hpp:317-341 | queueing, dropping or throwing, as the options say, the first before the second; after throwing everything is as it was |
| Sinks.Sink.AddToQueue | include/zmqmessage/ZmqMessageFullImpl.hpp:215-221 | the queue grows by exactly the part, which is moved |
| Sinks.Sink.SendOwned | include/zmqmessage/ZmqMessageFullImpl.hpp:364-415 | makes exactly the step SendOwned, on the caller's part as well; an error leaves that part as it was, a would-block error the object too |
| Sinks.Sink.Flush | include/zmqmessage/ZmqMessageFullImpl.hpp:417-451 | makes exactly the step Flush; a would-block error leaves the object as it was |
| Sinks.Sink.Dispose | include/zmqmessage/ZmqMessageFullImpl.hpp:495-507 | the destructor flushes and swallows the error; the queue, if there is one, is destroyed with its parts and buffer |
| Sinks.Sink.Detach | include/zmqmessage/Sink.hpp:255-260 | gives the queue away and keeps none |
| Sinks.Sink.SendOne | include/zmqmessage/ZmqMessageFullImpl.hpp:349-362 | inserts the part, or a copy that leaves it unchanged |
| Sinks.Sink.InsertPart | include/zmqmessage/ZmqMessageFullImpl.hpp:178-195 | inserts a copy exactly if the part is, as an object, one of the linked message and the option is set |
| Sinks.Sink.InsertLinked | include/zmqmessage/ZmqMessageFullImpl.hpp:178-195 | a part of the linked message inserted with the option stays there unchanged; without, it is gone once it is taken over, and stays if the insertion throws |
| Sinks.Sink.SendRouting | include/zmqmessage/ZmqMessageFullImpl.hpp:153-176 | a run of routing calls for the envelope in order up to the first error, or for one empty part; with copying the envelope stays as it was; without, each part is either taken over or still there |
| Sinks.Sink.SendIncoming | include/zmqmessage/ZmqMessageFullImpl.hpp:453-475 | a run of insertions of the parts in range up to the first error; one not owned is an error; with copying they stay as they were; without, each is either taken over or still there |
| Sinks.Sink.RelayFrom | include/zmqmessage/ZmqMessageFullImpl.hpp:477-493 | a run of insertions of what was left of the incoming message, in order, up to the first error, and no further than its end |
| Outgoings.Transmit | include/zmqmessage/Outgoing.hpp:44-73 | a complete outgoing message: the stored envelope or the delimiter, the user's parts, the flush; it makes these calls and no other, stops at the first error, and ends as TransmissionOutcome says; with copying the envelope stays as it was, without, none of it is left once it is sent or queued |
| Outgoings.Transmitted | include/zmqmessage/ZmqMessageFullImpl.hpp:364-451 | the object transmits without an error exactly if the plan of the same calls and answers does, and then with the same events and state |
| Outgoings.TransmissionOutcome | include/zmqmessage/ZmqMessageFullImpl.hpp:288-347 | whether a transmission ends in an error, how many sends it takes and where its parts are then (one message on the wire, or all in the queue, or dropped) is decided exactly by the options and the socket's answers |
| Outgoings.TransmitAround | include/zmqmessage/ZmqMessageFullImpl.hpp:477-493 | a message with a relay in its middle, with or without an envelope: parts before, what was left of the incoming message, and parts after go out as one message, or are queued or dropped as one, exactly as TransmissionOutcome says; the incoming message is then used up to its end and no further |
| Parts.Part.Move | include/zmqmessage/Part.hpp:121-135 | validity and content pass to the target, also from an invalid source |
| Parts.Part.Copy | include/zmqmessage/Part.hpp:110-119 | duplicates a valid source, ignores an invalid one |
| Parts.Part.Moved | include/zmqmessage/Part.hpp:83-90 | copy construction moves |
| PartsStorage.DynamicPartsStorage.Next | include/zmqmessage/ZmqMessageTemplateImpl.hpp:78-108 | appends one empty valid part and keeps every earlier content and validity, also when the array is reallocated, which it is only when full and then frees the array before; no part without storage; allocator and initial capacity stay, and capacity and moves are those of the doubling |
| PartsStorage.DynamicPartsStorage.Grow | include/zmqmessage/ZmqMessageTemplateImpl.hpp:87-101 | doubles the capacity, moves all parts, destroys each old object and frees the old buffer, with the same allocator |
| PartsStorage.Relocate | include/zmqmessage/ZmqMessageTemplateImpl.hpp:92-96 | each part is constructed in the new buffer and destroyed in the old one, content and validity kept |
| PartsStorage.Reallocate | include/zmqmessage/ZmqMessageTemplateImpl.hpp:87-101 | one buffer replaces the other: as many objects are constructed and destroyed as there are parts, and the old buffer, empty, is freed |
| PartsStorage.DynamicPartsStorage.Detach | include/zmqmessage/ZmqMessageTemplateImpl.hpp:110-123 | a new object owns all parts, the buffer and their account, the old one none |
| PartsStorage.DynamicPartsStorage.Dispose | include/zmqmessage/ZmqMessageTemplateImpl.hpp:65-76 | at the end as many objects were destroyed as constructed and no buffer is left |
| PartsStorage.DynamicPartsStorage.At | include/zmqmessage/ZmqMessageFullImpl.hpp:41-72 | access fails exactly for a missing or released part |
| PartsStorage.DynamicPartsStorage.ReleasePart | include/zmqmessage/ZmqMessageFullImpl.hpp:74-82 | the part moves out, the others stay |
| PartsStorage.StackPartsStorage.Next | include/zmqmessage/PartsStorage.hpp:59-65 | the next of a fixed number of parts, or none |
| PartsStorage.ScopedAlloc.Dispose | include/zmqmessage/ScopedAlloc.hpp:32-38 | frees the buffer unless it was released |
| PartsStorage.ScopedAlloc.Release | include/zmqmessage/ScopedAlloc.hpp:40-47 | hands the buffer over and forgets it |
| PartsStorage.AmortisedGrowth | include/zmqmessage/ZmqMessageTemplateImpl.hpp:78-108 | the recurrences of doubling: capacity c times a power of two, moves equal to what was added and fewer than 2n |
| PartsStorage.DynamicPartsStorage.GrowthIsAmortised | include/zmqmessage/ZmqMessageTemplateImpl.hpp:78-108 | of the object, at any time in its life: its capacity is the initial one doubled some number of times, and the objects its allocator has destroyed, all of them moved by growth, are as many as capacity was added and fewer than twice the calls of next |
| PartsStorage.Fill | include/zmqmessage/ZmqMessageTemplateImpl.hpp:78-108 | the object after n calls of next from capacity c: capacity c times a power of two, moves equal to capacity minus c and fewer than 2n, and n empty parts |
| PartsStorage.LiveAndDie | include/zmqmessage/ZmqMessageTemplateImpl.hpp:65-123 | from construction over growth, with or without a detach, to the destructors: every object the allocator made is destroyed, one for each part and one for each move, and every buffer freed |
| PartsStorage.DynamicPartsStorage.MultipartAgrees | include/zmqmessage/Multipart.hpp:26-65 | what a view sees through the addresses of the storage's fields is what is stored, after any operation |
| PartsStorage.ViewFollows | include/zmqmessage/Multipart.hpp:26-65 | a view taken before growth shows afterwards all the parts, old and new, while the array as it was is freed if the parts were moved |
| PartsStorage.Multipart.At | include/zmqmessage/ZmqMessageFullImpl.hpp:41-72 | through the addresses, access fails exactly for a missing or released part |
| PartsStorage.Multipart.Release | include/zmqmessage/ZmqMessageFullImpl.hpp:74-82 | through the addresses, the part moves out; an invalid part when there is none |
| PartsStorage.MovedIsAdded | include/zmqmessage/ZmqMessageTemplateImpl.hpp:87-101 | the parts moved so far are the capacity gained so far |
| Receiving.NothingLostReceiving | include/zmqmessage/ZmqMessageTemplateImpl.hpp:233-311 | over any mix of receiving calls within a message, received and left together are the message and the terminal flag says whether anything is left |
| Receiving.OneCall | include/zmqmessage/ZmqMessageTemplateImpl.hpp:233-311 | each call splits what was left and fails exactly when the counts do not fit |
| Receiving.GoingOn | include/zmqmessage/ZmqMessageTemplateImpl.hpp:280-311 | receive_all and receive_up_to are receive and then more, only if the message goes on |
| Receiving.EnvelopeIsShortest | include/zmqmessage/ZmqMessageFullImpl.hpp:91-129 | an envelope is read exactly when an empty frame is among the first N; it is the shortest prefix that ends with one |
| Receiving.FirstEmpty | include/zmqmessage/ZmqMessageFullImpl.hpp:116-119 | the position of the first empty frame |
| Incomings.XRouting.ReceiveRouting | include/zmqmessage/ZmqMessageFullImpl.hpp:91-129 | stores exactly the envelope, or fails after as many frames as fit; does nothing once parts are stored |
| Incomings.Incoming.ReceiveOne | include/zmqmessage/ZmqMessageTemplateImpl.hpp:179-203 | appends the next frame and reports whether the message goes on |
| Incomings.Incoming.Receive | include/zmqmessage/ZmqMessageTemplateImpl.hpp:233-278 | behind the envelope, receives exactly the parts, outcome and terminal flag of Receiving.Receive, and leaves the stream there; the envelope stored is the one at the head of the message, or the earlier one unchanged |
| Incomings.Incoming.ReceiveAll | include/zmqmessage/ZmqMessageTemplateImpl.hpp:280-294 | the same for receive_all; ends at the message boundary; the envelope stored is the one at the head of the message, or the earlier one unchanged |
| Incomings.Incoming.ReceiveUpTo | include/zmqmessage/ZmqMessageTemplateImpl.hpp:296-311 | the same for receive_up_to; the envelope stored is the one at the head of the message, or the earlier one unchanged |
| Incomings.Incoming.PerformAll | include/zmqmessage/ZmqMessageTemplateImpl.hpp:233-311 | any mix of receiving calls on the object within a message, up to the first error: parts, outcome and terminal flag are those of Receiving.PerformAll, received and left together are the message, and the stream is behind what was received |
| Incomings.Incoming.FetchTail | include/zmqmessage/ZmqMessageTemplateImpl.hpp:313-341 | the area grows by the part received last and, each behind the delimiter, every part left; returns how many; stops at the boundary; leaves the terminal flag |
| Incomings.TailInOrder | include/zmqmessage/ZmqMessageTemplateImpl.hpp:313-341 | the tail is each part behind a delimiter, in order |
| Incomings.Incoming.DropTail | include/zmqmessage/ZmqMessageTemplateImpl.hpp:343-378 | drops exactly what is left, or a whole message if nothing was received yet, and returns how many parts |
| Incomings.Incoming.Extract | include/zmqmessage/ZmqMessageTemplateImpl.hpp:380-397 | extraction and skipping advance exactly over owned parts |
| RoundTrip.EndToEnd | include/zmqmessage/ZmqMessageTemplateImpl.hpp:280-294 | what an error-free transmission puts on the wire, at once or later, is received as its envelope and its parts in order, terminal, with the next message untouched |
| RoundTrip.Exchange | include/zmqmessage/Outgoing.hpp:44-73 | end to end on the objects: a message with an envelope that fits is received as exactly that envelope stored and those parts, terminal, the rest of the stream untouched, if and only if the socket's answers let all parts through, at once or from the queue; otherwise it was dropped by option or there was an error |
| RoundTrip.ReceiveMessage | include/zmqmessage/ZmqMessageTemplateImpl.hpp:280-294 | a new incoming message read to its end stores the envelope and the parts, has the outcome and terminal flag and leaves the stream exactly as ReceiveWhole says, for every stream that does not break off |
| RoundTrip.Deliver | include/zmqmessage/ZmqMessageFullImpl.hpp:20-39 | a message sent, and if it had to be queued sent again from the queue: free of errors exactly when all parts get through, at once or from the queue, or it is dropped by option; then it is on the wire as one message, or nothing of it if dropped |
| RoundTrip.SendHeld | include/zmqmessage/ZmqMessageFullImpl.hpp:20-39 | the queue, if there is one, is sent: on the wire as one message if and only if the socket accepts every part; without a queue nothing happens |
| RoundTrip.MessageRoundTrip | include/zmqmessage/ZmqMessageFullImpl.hpp:91-129 | envelope parsing inverts envelope sending |
| RoundTrip.BareEnvelopeReadsOn | include/zmqmessage/ZmqMessageFullImpl.hpp:116-119 | a message that ends with its envelope makes the next message be read as its own parts |
| RoundTrip.RetryReadsOn | include/zmqmessage/ZmqMessageFullImpl.hpp:91-99 | after an envelope that was missing or too long, receiving again succeeds: the parts stored pass for the envelope and what is behind them for the message |
| RoundTrip.Reply | include/zmqmessage/Outgoing.hpp:62-73 | a reply is the transmission of the envelope stored with the incoming message, up to the first error, with the outcome the options and answers give; with copying that envelope stays, so that it can be sent again; without, a reply that is sent or queued leaves none of it |
| RoundTrip.ReplyReleased | include/zmqmessage/ZmqMessageFullImpl.hpp:153-176 | a reply for which nothing of the envelope is left puts only its body on the wire, and the observer is not told its first parts, as many as the envelope had |
| RoundTrip.ReplyTwice | include/zmqmessage/ZmqMessageFullImpl.hpp:153-176 | two replies without copying, all sends accepted: the first has the envelope, the second has not |
| RoundTrip.Answer | include/zmqmessage/Outgoing.hpp:62-73 | a request received and replied to: an error exactly if the request is malformed or the options and answers make it one; otherwise the reply is on the wire, or in the queue if its first send blocked, as one message that begins with the envelope of the request, or dropped by option |
| RoundTrip.ReplyEach | include/zmqmessage/ZmqMessageFullImpl.hpp:153-176 | with copying any number of replies are sent, each with the envelope of the one request, which is still stored afterwards; which of them are on the wire and whether there is an error follows exactly from options and answers |
| RoundTrip.AllReplied | include/zmqmessage/ZmqMessageFullImpl.hpp:153-176 | all of them are on the wire if none may be queued or dropped, or if the socket accepts everything |
| Relays.RelayRaw | include/zmqmessage/ZmqToolsFullImpl.hpp:57-72 | consumes one message and sends its parts one by one with the same flags, waiting, up to the first error, the answers being those the socket gives; returns how many and leaves the stream behind them |
| Relays.CarriedFrames | include/zmqmessage/ZmqToolsFullImpl.hpp:57-72 | what one relay puts on the wire are the very frames it took, but for the one refused if there was one |
| Relays.RelayStream | include/zmqmessage/ZmqToolsFullImpl.hpp:57-72 | relaying a stream message by message puts exactly its frames on the wire, in order with their flags, up to the first one refused, which alone is lost; all of them if and only if none is refused |
| Relays.RelayChain | include/zmqmessage/ZmqToolsFullImpl.hpp:57-72 | behind every relay of a chain is a prefix of the stream, and behind the last one the whole stream if and only if no relay was refused a frame |
| Comparing.MsgCmpExact | include/ZmqTools.hpp:263-284 | the sign of msgcmp is the byte order if and only if the common bytes decide or the sizes do not differ so that the narrowing loses the sign |
| Comparing.MsgCmpInRange | include/ZmqTools.hpp:263-284 | below 2^31 bytes it always is, and zero means equal |
| Comparing.MsgCmpFails | include/ZmqTools.hpp:263-284 | sizes for which it is wrong: unequal strings that compare equal, two strings each below the other |
| Comparing.StringFaceExact | examples/StringFace.hpp:59-69 | the sign of compare is the byte order for all sizes and agrees with msgcmp in range |
| Comparing.StringFaceOrder | examples/StringFace.hpp:71-75 | the less-than used for sorting is a strict total order on contents |
| Comparing.LexIsTotal | include/ZmqTools.hpp:259-262 | the byte order is zero on equal strings only and reversed by swapping |
| Comparing.LexIsFirstDifference | include/ZmqTools.hpp:259-262 | a string comes before another exactly if, where they first differ, it ends or has the smaller unsigned byte |
| Comparing.LexIsTransitive | include/ZmqTools.hpp:259-262 | the byte order is transitive |
| AsyncSpec.NothingLost | examples/zasync.cpp:156-199 | in every reachable state each accepted task is in progress, delayed, on the channel or delivered, as often as it was accepted |
| AsyncSpec.BackPressure | examples/zasync.cpp:158-161 | while results are delayed nothing is accepted, tasks and delayed results together never grow, and the queue holds at most the tasks in progress when it was last empty |
| AsyncSpec.LeavesOnTime | examples/zasync.cpp:77-106 | after any steps the tasks in progress are exactly the earlier ones with more steps than timeouts, then the newer ones with more steps than timeouts since they came, in order, one step less per timeout: a task of n steps leaves at its n-th timeout and nothing else is on the list |
| AsyncSpec.LeavesAtItsTime | examples/zasync.cpp:77-106 | a task of n steps is in progress for n - 1 timeouts and gone with the n-th |
| AsyncSpec.FinishedInOrder | examples/zasync.cpp:80-105 | tasks finish, and others go on, in the order of the list |
| AsyncSpec.SortedInOrder | examples/zasync.cpp:80-105 | results are sent or delayed in the order the tasks finish, each as there was room |
| AsyncSpec.ReadInOrder | examples/zasync.cpp:177-184 | results are read one by one in the order the channel took them, and nothing else touches those read |
| AsyncSpec.StepsStayPositive | examples/zasync.cpp:84-104 | between timeouts every task has a step left |
| AsyncWorker.ResultOnWire | examples/zasync.cpp:87-98 | a result told without an error is on the wire as one message, or put off with nothing on the wire; what is there after an error is said, too |
| AsyncWorker.SendResult | examples/zasync.cpp:87-98 | everything the socket sees, the destructor included, the outcome, and whether the whole message is returned for later, as functions of the socket's answers |
| AsyncWorker.Worker.RunTasks | examples/zasync.cpp:77-106 | refines the timeout step: tasks, delayed results and results sent are those of the transition system, with room for a result exactly where the socket accepted its first part; every attempt is accounted for, and the outcome follows from the answers |
| AsyncWorker.Worker.SendDelayed | examples/zasync.cpp:177-184 | sends the result delayed last, without waiting; free of errors if and only if the socket accepts both parts; refines the step of the transition system |
| AsyncWorker.Worker.AcceptTask | examples/zasync.cpp:185-198 | takes in the task of a two-part request at the end of the list, with the id in its second part and the number drawn modulo 9 plus 1, so 1 to 9, steps; anything else is an error |
| AsyncWorker.StepsDrawn | examples/zasync.cpp:195 | each number of steps from 1 to 9 is drawn, and no other |
| AsyncWorker.Worker.OnPoll | examples/zasync.cpp:162-199 | a timeout ages all tasks by a step, appending results sent and delayed; room on the channel sends the result delayed last; a request is taken in as a task; nothing else changes; which of these it is, and whether it ends without an error, follows from what polling reports and the sockets |
| AsyncWorker.Worker.Process | examples/zasync.cpp:156-199 | the loop: its turns are exactly those due, each determined by what polling reports, the channel's answers, the requests and the numbers drawn; it ends at a stop, at the last report, or in an error exactly when the turn due next is one; the state is what the transition system reaches, each accepted task is in progress, delayed or sent, tasks accepted and requests left are together the requests in order, the wire holds exactly the messages of the results sent, and no send waited |
| AsyncWorker.TurnsAreDue | examples/zasync.cpp:158-199 | of the turns of the loop: one is a timeout exactly if polling timed out, sends a delayed result exactly if there is one and room, and takes in a request exactly if one is there and no result is delayed, with its id and its steps |
| AsyncWorker.NeverFails | examples/zasync.cpp:156-199 | no turn is an error if the channel accepts everything and every request has two parts |

## Left out

- Allocation failure, and overflow of the doubled capacity: memory is assumed to suffice; a storage starts with capacity at least 1, because 0 never grows.
- libzmq itself, threads, real polling and socket options: they are the answers and the frames of the two socket classes, and the events given to the worker.
- Conversions between values and parts (text and binary mode, `get`, `init_msg`): contents are opaque byte strings; a task id is the content that carries it.
- Receive observers, log output and the names used in error messages.
- The two addresses a `Multipart` holds are one cell with both values, kept equal to the storage's two fields.
- Iterators and output iterators over parts: easy members only.
- External storage, and fixed storage for the body of a message: the body is in growing storage and the envelope in fixed storage of 5, the library's defaults.
- Deleters and hints of raw messages, the `MsgPtr` and raw-message insertions: they make a part and insert it like any other.
- The sorting, serialising and queueing examples and the performance test: demonstrations on top of what is modelled.
- Incomings.Incoming.Receive: not on an object whose storage was detached, which reports an error before the first frame.
- Incomings.Incoming.ReceiveAll: a stream that ends inside a message is excluded, the original would wait for more frames.
- Sinks.Sink.SendOwned: not after `detach` while still queueing, which an assert of the original forbids (`RunFacts.QueueingHasQueue` says when that cannot happen).
- AsyncWorker.Worker.RunTasks: after an error only the outcome and what the socket saw are described, not the worker's lists; the original exits.
- AsyncWorker.Worker.Process: polling is a given sequence of reports, masked by what is asked for; the main thread is a step of the transition system only.
- PartsStorage.DynamicPartsStorage.Dispose: destruction is counted per allocator rather than recorded object by object; a slot can only be destroyed while it holds an object and a buffer only be freed while in use and empty.
