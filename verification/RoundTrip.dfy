/** What one side sends is what the other receives. */
module RoundTrip {
  import opened Frames
  import opened SinkSpec
  import opened Transmissions
  import opened Parts
  import opened PartsStorage
  import opened Sockets
  import opened Incomings
  import opened Outgoings
  import Receiving
  import Resending
  import RunFacts
  import Sinks

  /** Non-empty address frames closed by one empty frame. */
  ghost predicate IsEnvelope(routing: seq<Content>) {
    && routing != [] && routing[|routing| - 1] == []
    && forall i :: 0 <= i < |routing| - 1 ==> routing[i] != []
  }

  /** An incoming message read with an envelope of at most `capacity` parts: the envelope, and
      what `receive_all` then gets, with what stays on the stream. */
  datatype Received = Received(envelope: Option<seq<Content>>, got: Receiving.Got, rest: seq<Frame>)

  function ReceiveWhole(fs: seq<Frame>, capacity: nat, least: nat): Received
    requires Complete(fs)
  {
    Receiving.BodyFrames(fs);
    var parts := Receiving.EnvelopeParts(Body(fs), capacity);
    var behind := fs[|parts|..];
    match Receiving.Envelope(Body(fs), capacity)
    case None => Received(None, Receiving.Got([], [], false, MessageFormatError), behind)
    case Some(e) =>
      var g := Receiving.ReceiveAll(Body(behind), false, least);
      Received(Some(e), g, if |g.parts| <= |behind| then behind[|g.parts|..] else [])
  }

  lemma EnvelopeFirst(routing: seq<Content>, user: seq<Content>)
    requires IsEnvelope(routing)
    ensures Receiving.FirstEmpty(routing + user) == |routing| - 1
  {
    assert (routing + user)[|routing| - 1] == [];
  }

  /** A message made of an envelope that fits and at least one part is read back as exactly
      that envelope and those parts, to the end and no further. */
  lemma MessageRoundTrip(routing: seq<Content>, user: seq<Content>, rest: seq<Frame>, capacity: nat, least: nat)
    requires IsEnvelope(routing) && |routing| <= capacity && user != [] && least <= |user|
    ensures Readable(Message(routing + user) + rest, capacity)
    ensures ReceiveWhole(Message(routing + user) + rest, capacity, least) ==
            Received(Some(routing), Receiving.Got(user, [], true, Done), rest)
  {
    var fs, n := Message(routing + user) + rest, |routing|;
    BodyOfMessage(routing + user, rest);
    EnvelopeFirst(routing, user);
    assert (routing + user)[..n] == routing && (routing + user)[n..] == user;
    Receiving.BodyFrames(fs);
    Receiving.BodySuffix(fs, n);
    Receiving.BodyFrames(fs[n..]);
    assert fs[n..][|user|..] == rest;
  }

  /** End to end: what a clean, directly sent message puts on the wire is read at the other
      end, by `receive_all` with an envelope capacity it fits, as its routing and its user
      parts in order, the terminal flag set and the following message untouched. So is a
      message whose first send blocked, once its queue is sent. */
  lemma EndToEnd(p: Plan, rest: seq<Frame>, capacity: nat, least: nat, nonblock: bool, answers: seq<Answer>)
    requires p.Valid() && p.Whole().ok && IsEnvelope(p.routing) && |p.routing| <= capacity
    requires p.user != [] && least <= |p.user|
    requires p.FirstSendBlocks() ==> p.options.cacheOnBlock
    requires |answers| == |p.Parts()| && Resending.AllTaken(answers)
    ensures var r := p.Whole();
            var sent := if p.FirstSendBlocks()
                        then Wire(Resending.SendUpTo(Slots(p.Parts()), nonblock, false, answers).events)
                        else Wire(r.events);
            && (p.FirstSendBlocks() ==> r.post.queue == Some(Slots(p.Parts())) && Wire(r.events) == [])
            && Complete(sent + rest)
            && ReceiveWhole(sent + rest, capacity, least) ==
               Received(Some(p.routing), Receiving.Got(p.user, [], true, Done), rest)
  {
    hide Wire, Announced, Flushes, Run, Step, Plan.DirectEvents, ReceiveWhole, Framed;
    AllOrNothing(p);
    DirectSeen(p);
    Resending.AcceptedUpTo(p.Parts(), nonblock, false, answers);
    assert p.Parts()[..|answers|] == p.Parts();
    MessageRoundTrip(p.routing, p.user, rest, capacity, least);
  }

  /** An envelope alone, with no part behind it, is not read back alone: the parts of the
      next message on the stream are taken for its own. */
  lemma BareEnvelopeReadsOn(routing: seq<Content>, next: seq<Content>, rest: seq<Frame>, capacity: nat)
    requires IsEnvelope(routing) && |routing| <= capacity && next != []
    ensures Complete(Message(routing) + (Message(next) + rest))
    ensures ReceiveWhole(Message(routing) + (Message(next) + rest), capacity, 0) ==
            Received(Some(routing), Receiving.Got(next, [], true, Done), rest)
  {
    var behind := Message(next) + rest;
    var fs := Message(routing) + behind;
    BodyOfMessage(routing, behind);
    BodyOfMessage(next, rest);
    EnvelopeFirst(routing, []);
    assert routing + [] == routing && routing[..|routing|] == routing;
    assert fs[|routing|..] == behind && behind[|next|..] == rest;
  }

  /** What is read next after an envelope that could not be read: what is behind the parts
      that were stored, without looking for an envelope again. */
  function BehindBadEnvelope(fs: seq<Frame>, capacity: nat): seq<Content>
    requires Complete(fs)
  {
    if |Body(fs)| > capacity then Body(fs)[capacity..] else Body(Rest(fs))
  }

  lemma BadEnvelopeLeaves(fs: seq<Frame>, capacity: nat)
    requires Complete(fs) && capacity > 0 && Receiving.Envelope(Body(fs), capacity).None?
    requires |Body(fs)| <= capacity ==> Complete(Rest(fs))
    ensures var parts := Receiving.EnvelopeParts(Body(fs), capacity);
            && 0 < |parts| <= |fs| && Complete(fs[|parts|..])
            && Body(fs[|parts|..]) == BehindBadEnvelope(fs, capacity) != []
  {
    Receiving.BodyFrames(fs);
    if |Body(fs)| > capacity {
      Receiving.BodySuffix(fs, capacity);
    } else {
      Receiving.BodyFrames(Rest(fs));
    }
  }

  // --- the objects --------------------------------------------------------------------

  /** The stream does not end within a message, nor right behind an envelope. */
  ghost predicate Readable(fs: seq<Frame>, capacity: nat) {
    Complete(fs) &&
    (Receiving.BodyFrames(fs);
     Receiving.Envelope(Body(fs), capacity).Some? ==> Complete(fs[|Receiving.EnvelopeParts(Body(fs), capacity)|..]))
  }

  /** An incoming message of which nothing was received yet. */
  method NewIncoming(src: InSocket) returns (inc: Incoming)
    ensures fresh(inc.Own()) && inc.Valid() && inc.src == src && inc.routing != null && inc.Unrouted()
    ensures inc.storage.View() == [] && !inc.isTerminal
  {
    var routing := new XRouting();
    inc := new Incoming(src, routing, 10);
  }

  /** A new incoming message with an envelope, and all of its parts: exactly what
      `ReceiveWhole` says. */
  method ReceiveMessage(src: InSocket, least: nat) returns (o: Outcome, inc: Incoming)
    requires Readable(src.frames, ROUTING_CAPACITY)
    modifies src
    ensures fresh(inc) && fresh(inc.Own()) && inc.Valid() && inc.src == src && inc.routing != null
    ensures var r := ReceiveWhole(old(src.frames), ROUTING_CAPACITY, least);
            && o == r.got.outcome && inc.isTerminal == r.got.terminal
            && inc.storage.View() == Slots(r.got.parts) && src.frames == r.rest
            && (r.envelope.Some? ==> inc.Header() == Slots(r.envelope.value))
    ensures inc.Header() == Slots(Receiving.EnvelopeParts(Body(old(src.frames)), ROUTING_CAPACITY))
  {
    inc := NewIncoming(src);
    hide Body, Complete, Receiving.Envelope, Receiving.ReceiveAll, SlotsOf, CapacityAfter, MovedAfter, Distinct, Slots;
    o := inc.ReceiveAll(least);
  }

  /** Trying again after an envelope that was too long or missing succeeds: the parts stored
      pass for the envelope, and what is behind them for the message. */
  method RetryReadsOn(src: InSocket) returns (first: Outcome, second: Outcome, inc: Incoming)
    requires Complete(src.frames) && Receiving.Envelope(Body(src.frames), ROUTING_CAPACITY).None?
    requires |Body(src.frames)| <= ROUTING_CAPACITY ==> Complete(Rest(src.frames))
    modifies src
    ensures first == MessageFormatError && second == Done
    ensures inc.Valid() && inc.isTerminal
    ensures inc.Header() == Slots(Receiving.EnvelopeParts(Body(old(src.frames)), ROUTING_CAPACITY))
    ensures inc.storage.View() == Slots(BehindBadEnvelope(old(src.frames), ROUTING_CAPACITY))
  {
    BadEnvelopeLeaves(src.frames, ROUTING_CAPACITY);
    hide Body, Complete, Rest, Receiving.EnvelopeParts, SlotsOf, CapacityAfter, MovedAfter, Distinct, BehindBadEnvelope;
    first, inc := ReceiveMessage(src, 0);
    assert inc.storage.View() == [];
    second := inc.ReceiveAll(0);
  }

  /** Sends the message that was queued, if one was. */
  method SendHeld(sink: Sinks.Sink, nonblock: bool, ghost parts: seq<Content>) returns (o: Outcome)
    requires sink.Valid() && (sink.queue != null ==> sink.queue.View() == Slots(parts))
    modifies sink.Own(), sink.dst
    ensures old(sink.queue) == null ==> o == Done && unchanged(sink.dst)
    ensures old(sink.queue) != null ==>
              && (o == Done <==> sink.dst.Accepts(old(Attempts(sink.dst.timeline)), |parts|))
              && (o == Done ==> Wire(sink.dst.timeline) == Wire(old(sink.dst.timeline)) + Message(parts))
  {
    hide Wire, Attempts, Slots, SlotsOf, Distinct, CapacityAfter, MovedAfter, Message;
    o := Done;
    if sink.queue != null {
      var q := sink.Detach();
      o := Resending.DeliverQueue(sink.dst, q, nonblock, parts);
    }
  }

  /** So many parts, sent from the `n`-th send on and sent again from the queue if they had to
      be queued, all get through. */
  ghost predicate GetsThrough(options: Options, answers: nat -> Answer, n: nat, parts: nat) {
    if !Blocks(options, answers, n) then Accepting(answers, n, parts)
    else options.cacheOnBlock && Accepting(answers, n + SendsTaken(options, answers, n, parts), parts)
  }

  /** Sends one message, and if it had to be queued, sends the queue. */
  method Deliver(dst: OutSocket, options: Options, observed: bool, routing: seq<Part>, user: seq<Part>,
                 nonblock: bool, ghost envelope: seq<Content>, ghost body: seq<Content>)
    returns (o: Outcome)
    requires Distinct(routing) && Distinct(user) && forall p :: p in user ==> p !in routing
    requires SlotsOf(user) == Slots(body)
    requires if routing == [] then envelope == [[]] else SlotsOf(routing) == Slots(envelope)
    modifies dst, routing, user
    ensures var n, parts := old(Attempts(dst.timeline)), envelope + body;
            && (o == Done <==> GetsThrough(options, dst.answers, n, |parts|) || IsDropped(options, dst.answers, n))
            && (o == Done ==>
                Wire(dst.timeline) ==
                Wire(old(dst.timeline)) + (if IsDropped(options, dst.answers, n) then [] else Message(parts)))
  {
    hide Run, Step, Wire, Attempts, Slots, SlotsOf, Distinct, Begun, Message, Accepting;
    var sink;
    ghost var calls;
    o, sink, calls := Transmit(dst, options, observed, null, routing, user, envelope, body);
    if o == Done {
      o := SendHeld(sink, nonblock, envelope + body);
    }
  }

  /** End to end: a message whose envelope fits is read back at the other end, out of a stream
      that goes on with `rest`, as exactly that envelope and those parts, to the end and no
      further, if and only if the socket lets all of it through, at once or from the queue. */
  method Exchange(answers: nat -> Answer, options: Options, observed: bool, routing: seq<Part>, user: seq<Part>,
                  nonblock: bool, rest: seq<Frame>, least: nat, ghost envelope: seq<Content>, ghost body: seq<Content>)
    returns (o: Outcome, inc: Incoming?)
    requires Distinct(routing) && Distinct(user) && forall p :: p in user ==> p !in routing
    requires SlotsOf(user) == Slots(body) && body != [] && least <= |body|
    requires if routing == [] then envelope == [[]] else SlotsOf(routing) == Slots(envelope)
    requires IsEnvelope(envelope) && |envelope| <= ROUTING_CAPACITY
    modifies routing, user
    ensures inc != null <==> GetsThrough(options, answers, 0, |envelope + body|)
    ensures o == Done <==> inc != null || IsDropped(options, answers, 0)
    ensures inc != null ==>
              && inc.Valid() && inc.Header() == Slots(envelope)
              && inc.storage.View() == Slots(body) && inc.isTerminal && inc.src.frames == rest
  {
    hide Wire, Attempts, Slots, SlotsOf, Distinct, Message, IsEnvelope, ReceiveWhole, Readable, Accepting;
    inc := null;
    NothingSeen();
    NoAttempts();
    var dst := new OutSocket(answers);
    o := Deliver(dst, options, observed, routing, user, nonblock, envelope, body);
    var sent := Wire(dst.timeline);
    assert [] + Message(envelope + body) == Message(envelope + body);
    NotEmpty(envelope + body);
    if o == Done && sent != [] {
      MessageRoundTrip(envelope, body, rest, ROUTING_CAPACITY, least);
      var src := new InSocket(sent + rest);
      o, inc := ReceiveMessage(src, least);
    }
  }

  lemma NotEmpty(parts: seq<Content>)
    requires parts != []
    ensures Message(parts) != []
  {
  }

  /** A reply: the envelope stored with the incoming message goes out first. With copying it
      stays there, so that it can be sent again; without, the reply that sends or queues it
      leaves none of it behind. */
  method Reply(dst: OutSocket, options: Options, observed: bool, inc: Incoming, user: seq<Part>,
               ghost envelope: seq<Content>, ghost body: seq<Content>)
    returns (o: Outcome, sink: Sinks.Sink, ghost calls: seq<Call>)
    requires inc.Valid() && inc.routing != null && inc.Header() == Slots(envelope) && envelope != []
    requires Distinct(user) && SlotsOf(user) == Slots(body) && dst !in inc.Own()
    requires forall p :: p in user ==> p !in inc.Own()
    modifies dst, inc.routing.storage.Repr, user
    ensures sink.Valid() && fresh(sink.Own()) && inc.Valid() && inc.Own() == old(inc.Own())
    ensures Begun(calls, envelope, body) && (o == Done ==> |calls| == |envelope| + |body| + 1)
    ensures sink.dst == dst && sink.So(Init(options, observed), calls, old(dst.timeline), o)
    ensures Outcomes(dst, sink, o, options, old(dst.timeline), envelope + body)
    ensures options.copyIncoming ==> inc.Header() == old(inc.Header())
    ensures !options.copyIncoming && o == Done && !IsDropped(options, dst.answers, old(Attempts(dst.timeline))) ==>
              inc.Header() == Gone(|envelope|)
  {
    hide Wire, Attempts, Run, Step, CapacityAfter, MovedAfter, Outcomes, Sinks.EndsWith, Sinks.Asked, Begun;
    o, sink, calls := Transmit(dst, options, observed, inc.storage, inc.routing.storage.Parts(), user, envelope, body);
  }

  /** The routing calls for an envelope of which nothing is left. */
  lemma RoutesReleased(calls: seq<Call>, n: nat, kept: seq<Slot>, after: seq<Slot>) returns (answers: seq<Answer>)
    requires Sinks.Sent(calls, Gone(n), false, true, kept, after)
    ensures |answers| == |calls| <= n && calls == RunFacts.ReleasedRoutes(answers)
  {
    answers := seq(|calls|, i requires 0 <= i < |calls| => calls[i].answer);
  }

  /** The envelope's part of a reply for which nothing of it is left: nothing is sent. */
  method OpenReleased(dst: OutSocket, options: Options, inc: Incoming, ghost n: nat)
    returns (sink: Sinks.Sink, ghost answers: seq<Answer>)
    requires inc.Valid() && inc.routing != null && inc.Header() == Gone(n) && n > 0
    requires !options.copyIncoming && dst !in inc.Own()
    modifies dst, inc.routing.storage.Repr
    ensures sink.Valid() && fresh(sink.Own()) && sink.dst == dst && (sink.state == QUEUEING ==> sink.queue != null)
    ensures inc.Valid() && |answers| == n
    ensures sink.So(Init(options, true), RunFacts.ReleasedRoutes(answers), old(dst.timeline), Done)
  {
    hide Wire, Attempts, Run, Step, CapacityAfter, MovedAfter, Contents, SlotsOf, Slots;
    hide Sinks.Asked, Sinks.Sent, RunFacts.ReleasedRoutes;
    sink := new Sinks.Sink(dst, options, true, inc.storage);
    ghost var s, routing := Init(options, true), inc.routing.storage.Parts();
    var o;
    ghost var calls;
    o, calls := sink.SendRouting(inc.routing.storage.Parts());
    answers := RoutesReleased(calls, n, Run(s, calls).kept, SlotsOf(routing));
    RunFacts.SecondReplyHasNoEnvelope(options, true, answers);
  }

  /** A reply for which nothing of the envelope is left, as after a first one without copying:
      only the body goes out, and of that the observer is not told the first parts, as many as
      the envelope had. */
  method ReplyReleased(dst: OutSocket, options: Options, inc: Incoming, user: seq<Part>, ghost n: nat,
                       ghost body: seq<Content>)
    returns (o: Outcome)
    requires inc.Valid() && inc.routing != null && inc.Header() == Gone(n) && n > 0
    requires !options.copyIncoming && dst !in inc.Own() && body != []
    requires Distinct(user) && SlotsOf(user) == Slots(body) && forall p :: p in user ==> p !in inc.Own()
    modifies dst, inc.routing.storage.Repr, user
    ensures !options.emulateBlockSends && (forall k :: dst.answers(k) == Accepted) ==>
              && o == Done && Wire(dst.timeline) == Wire(old(dst.timeline)) + Message(body)
              && Announced(dst.timeline) ==
                 Announced(old(dst.timeline)) + (if n <= |body| then body[n..] else [])
  {
    hide Wire, Announced, Flushes, Attempts, Run, Step, CapacityAfter, MovedAfter, Message, Slots, SlotsOf, Distinct;
    hide Sinks.Sink.So, Sinks.Sent, RunFacts.ReleasedRoutes, RunFacts.Inserts;
    var sink;
    ghost var log, answers := dst.timeline, [];
    sink, answers := OpenReleased(dst, options, inc, n);
    o := CloseReleased(sink, options, user, log, answers, body);
  }

  method CloseReleased(sink: Sinks.Sink, options: Options, user: seq<Part>, ghost log: seq<Event>,
                       ghost answers: seq<Answer>, ghost body: seq<Content>)
    returns (o: Outcome)
    requires sink.Valid() && (sink.state == QUEUEING ==> sink.queue != null)
    requires sink.So(Init(options, true), RunFacts.ReleasedRoutes(answers), log, Done)
    requires Distinct(user) && SlotsOf(user) == Slots(body) && body != []
    requires forall p :: p in user ==> p !in sink.Own()
    modifies sink.Own(), sink.dst, user
    ensures !options.emulateBlockSends && (forall k :: sink.dst.answers(k) == Accepted) ==>
              && o == Done && Wire(sink.dst.timeline) == Wire(log) + Message(body)
              && Announced(sink.dst.timeline) ==
                 Announced(log) + (if |answers| <= |body| then body[|answers|..] else [])
  {
    hide Wire, Announced, Flushes, Attempts, Run, Step, CapacityAfter, MovedAfter, Message, Slots, SlotsOf, Distinct;
    hide Sinks.Sent, Sinks.Sink.So, RunFacts.ReleasedRoutes, RunFacts.Inserts;
    ghost var z, calls := Init(options, true), RunFacts.ReleasedRoutes(answers);
    ghost var more, kept, c;
    o, more, kept := SendMore(sink, user, z, calls, log, body);
    if !options.emulateBlockSends && forall k :: sink.dst.answers(k) == Accepted {
      ReleasedGoesOn(sink, log, options, answers, body, more, kept, SlotsOf(user), o);
    }
    if o == Done {
      o, c := sink.FlushNext(z, calls + more, log);
      if !options.emulateBlockSends && forall k :: sink.dst.answers(k) == Accepted {
        ReleasedEnds(sink, log, options, answers, body, more, c, o);
      }
    }
  }

  /** No error while the parts go in. */
  lemma ReleasedGoesOn(sink: Sinks.Sink, log: seq<Event>, options: Options, answers: seq<Answer>, body: seq<Content>,
                       more: seq<Call>, kept: seq<Slot>, after: seq<Slot>, o: Outcome)
    requires sink.Valid() && sink.So(Init(options, true), RunFacts.ReleasedRoutes(answers) + more, log, o)
    requires Sinks.Sent(more, Slots(body), false, false, kept, after)
    requires !options.emulateBlockSends && forall k :: sink.dst.answers(k) == Accepted
    ensures o == Done && (|more| == |body| ==> more == RunFacts.Inserts(body))
  {
    hide Run, Step, Wire, Announced, Flushes, Attempts;
    var z, first, k := Init(options, true), RunFacts.ReleasedRoutes(answers), |more|;
    forall i | 0 <= i < k ensures more[i] == Insert(Some(body[i]), Accepted) {
      assert (first + more)[|first| + i] == more[i];
    }
    assert more == RunFacts.Inserts(body[..k]);
    assert k == |body| ==> body[..k] == body;
    RunFacts.SecondReplyHasNoEnvelope(options, true, answers);
    RunConcat(z, first, more);
    if k == 0 {
      RunNothing(z.(pendingRouting := |answers|));
    } else {
      RunFacts.BehindPending(options, |answers|, body[..k]);
    }
  }

  lemma ReleasedEnds(sink: Sinks.Sink, log: seq<Event>, options: Options, answers: seq<Answer>, body: seq<Content>,
                     more: seq<Call>, c: Call, o: Outcome)
    requires sink.Valid() && sink.So(Init(options, true), RunFacts.ReleasedRoutes(answers) + more + [c], log, o)
    requires body != [] && more == RunFacts.Inserts(body) && c.Flushing?
    requires !options.emulateBlockSends && forall k :: sink.dst.answers(k) == Accepted
    ensures o == Done && Wire(sink.dst.timeline) == Wire(log) + Message(body)
    ensures Announced(sink.dst.timeline) == Announced(log) + (if |answers| <= |body| then body[|answers|..] else [])
  {
    hide Run, Step, Wire, Announced, Flushes, Attempts, RunFacts.ReleasedRoutes, RunFacts.Inserts, Message;
    var z, calls := Init(options, true), RunFacts.ReleasedRoutes(answers) + more + [c];
    assert calls[|calls| - 1] == c == Flushing(Accepted);
    assert calls == RunFacts.ReleasedRoutes(answers) + (more + [c]);
    RunFacts.SecondReplyAnnouncesLess(options, answers, body);
    WireConcat(log, Run(z, calls).events);
  }

  /** Two replies without copying, to a socket that accepts everything: the first is a reply, the
      second goes out without the envelope, and is announced as if its first parts were one. */
  method ReplyTwice(dst: OutSocket, options: Options, inc: Incoming, user1: seq<Part>, user2: seq<Part>,
                    ghost envelope: seq<Content>, ghost body1: seq<Content>, ghost body2: seq<Content>)
    requires inc.Valid() && inc.routing != null && inc.Header() == Slots(envelope) && envelope != []
    requires !options.copyIncoming && !options.emulateBlockSends && dst !in inc.Own() && body2 != []
    requires forall k :: dst.answers(k) == Accepted
    requires Distinct(user1) && SlotsOf(user1) == Slots(body1) && forall p :: p in user1 ==> p !in inc.Own()
    requires Distinct(user2) && SlotsOf(user2) == Slots(body2)
    requires forall p :: p in user2 ==> p !in inc.Own() && p !in user1
    modifies dst, inc.routing.storage.Repr, user1, user2
    ensures Wire(dst.timeline) == Wire(old(dst.timeline)) + Message(envelope + body1) + Message(body2)
  {
    hide Wire, Announced, Attempts, Run, Step, CapacityAfter, MovedAfter, Message, Slots, SlotsOf, Distinct, Begun;
    hide Sinks.Sink.So;
    ghost var n := |envelope|;
    var o, sink;
    ghost var calls;
    o, sink, calls := Reply(dst, options, true, inc, user1, envelope, body1);
    o := ReplyReleased(dst, options, inc, user2, n, body2);
  }

  /** Receives a request and replies to it: the reply goes out, or into the queue, as one message
      that begins with the envelope of the request, unless the request is malformed or the
      options and the socket's answers make it an error. */
  method Answer(src: InSocket, dst: OutSocket, options: Options, observed: bool, least: nat,
                user: seq<Part>, ghost body: seq<Content>)
    returns (o: Outcome, sink: Sinks.Sink?)
    requires Readable(src.frames, ROUTING_CAPACITY) && Distinct(user) && SlotsOf(user) == Slots(body)
    modifies src, dst, user
    ensures var r := ReceiveWhole(old(src.frames), ROUTING_CAPACITY, least);
            && src.frames == r.rest
            && (r.got.outcome != Done ==> o == r.got.outcome && unchanged(dst))
            && (r.got.outcome == Done ==>
                && r.envelope.Some? && IsEnvelope(r.envelope.value) && sink != null && sink.Valid()
                && Outcomes(dst, sink, o, options, old(dst.timeline), r.envelope.value + body))
  {
    assert Complete(src.frames);
    hide Wire, Attempts, Run, Step, CapacityAfter, MovedAfter, Readable, Complete, ReceiveWhole, Begun;
    hide Sinks.Asked, Sinks.EndsWith, IsEnvelope, Message, Outcomes;
    sink := null;
    ghost var fs := src.frames;
    var inc;
    o, inc := ReceiveMessage(src, least);
    if o == Done {
      EnvelopeReceived(fs, least);
      ghost var calls;
      o, sink, calls := Reply(dst, options, observed, inc, user,
                              ReceiveWhole(fs, ROUTING_CAPACITY, least).envelope.value, body);
    }
  }

  lemma EnvelopeReceived(fs: seq<Frame>, least: nat)
    requires Complete(fs) && ReceiveWhole(fs, ROUTING_CAPACITY, least).got.outcome == Done
    ensures var e := ReceiveWhole(fs, ROUTING_CAPACITY, least).envelope;
            e.Some? && e.value != [] && IsEnvelope(e.value)
  {
    Receiving.BodyFrames(fs);
    Receiving.EnvelopeIsShortest(Body(fs), ROUTING_CAPACITY);
  }

  // --- several replies ----------------------------------------------------------------

  /** What several replies come to: the frames on the wire, the sends it took, and whether there
      was no error. */
  datatype Outgone = Outgone(frames: seq<Frame>, sends: nat, ok: bool)

  /** One reply after the other, up to the first error; one that blocks is queued or dropped. */
  ghost function RepliesSeen(options: Options, answers: nat -> Answer, n: nat,
                             envelope: seq<Content>, bodies: seq<Content>): Outgone
  {
    if bodies == [] then Outgone([], 0, true)
    else
      var q := RepliesSeen(options, answers, n, envelope, bodies[..|bodies| - 1]);
      var m, parts := n + q.sends, envelope + [bodies[|bodies| - 1]];
      if !q.ok then q
      else
        Outgone(q.frames + (if Blocks(options, answers, m) then [] else Message(parts)),
                q.sends + SendsTaken(options, answers, m, |parts|), Goes(options, answers, m, |parts|))
  }

  lemma {:induction false} RepliesStop(options: Options, answers: nat -> Answer, n: nat,
                                       envelope: seq<Content>, bodies: seq<Content>, k: nat)
    requires k <= |bodies| && !RepliesSeen(options, answers, n, envelope, bodies[..k]).ok
    ensures !RepliesSeen(options, answers, n, envelope, bodies).ok
  {
    hide Goes, Message;
    if k == |bodies| {
      assert bodies[..k] == bodies;
    } else {
      assert bodies[..|bodies| - 1][..k] == bodies[..k];
      RepliesStop(options, answers, n, envelope, bodies[..|bodies| - 1], k);
    }
  }

  /** The frames of several replies with the same envelope. */
  function Replies(envelope: seq<Content>, bodies: seq<Content>): seq<Frame> {
    if bodies == [] then []
    else Replies(envelope, bodies[..|bodies| - 1]) + Message(envelope + [bodies[|bodies| - 1]])
  }

  /** All replies are on the wire if nothing may be queued or dropped, or nothing blocks. */
  lemma {:induction false} AllReplied(options: Options, answers: nat -> Answer, n: nat,
                                      envelope: seq<Content>, bodies: seq<Content>)
    ensures var q := RepliesSeen(options, answers, n, envelope, bodies);
            && (q.ok && !options.cacheOnBlock && !options.dropOnBlock ==> q.frames == Replies(envelope, bodies))
            && (!options.emulateBlockSends && (forall k :: answers(k) == Accepted) ==>
                q.ok && q.frames == Replies(envelope, bodies))
  {
    hide Message;
    if bodies != [] {
      AllReplied(options, answers, n, envelope, bodies[..|bodies| - 1]);
    }
  }

  /** With copying, any number of replies go out with the envelope of the one request, which is
      still there afterwards. */
  method ReplyEach(dst: OutSocket, options: Options, observed: bool, inc: Incoming, bodies: seq<Content>,
                   ghost envelope: seq<Content>)
    returns (o: Outcome)
    requires inc.Valid() && inc.routing != null && inc.Header() == Slots(envelope) && envelope != []
    requires options.copyIncoming && dst !in inc.Own()
    modifies dst, inc.routing.storage.Repr
    ensures inc.Valid() && inc.Header() == old(inc.Header())
    ensures var q := RepliesSeen(options, dst.answers, old(Attempts(dst.timeline)), envelope, bodies);
            && (o == Done <==> q.ok)
            && (o == Done ==> Wire(dst.timeline) == Wire(old(dst.timeline)) + q.frames)
  {
    hide Wire, Attempts, Run, Step, CapacityAfter, MovedAfter, SlotsOf, Distinct, Slots, Message, Goes, SendsTaken;
    o := Done;
    ghost var wire, n := Wire(dst.timeline), Attempts(dst.timeline);
    ghost var q := Outgone([], 0, true);
    var i := 0;
    while i < |bodies|
      invariant 0 <= i <= |bodies| && o == Done && q.ok
      invariant q == RepliesSeen(options, dst.answers, n, envelope, bodies[..i])
      invariant inc.Valid() && inc.Header() == Slots(envelope) && inc.Own() == old(inc.Own())
      invariant Wire(dst.timeline) == wire + q.frames && Attempts(dst.timeline) == n + q.sends
    {
      o := ReplyOnce(dst, options, observed, inc, bodies[i], envelope);
      assert bodies[..i + 1][..i] == bodies[..i];
      q := RepliesSeen(options, dst.answers, n, envelope, bodies[..i + 1]);
      if o != Done {
        RepliesStop(options, dst.answers, n, envelope, bodies, i + 1);
        return;
      }
      i := i + 1;
    }
    assert bodies[..i] == bodies;
  }

  method ReplyOnce(dst: OutSocket, options: Options, observed: bool, inc: Incoming, body: Content,
                   ghost envelope: seq<Content>)
    returns (o: Outcome)
    requires inc.Valid() && inc.routing != null && inc.Header() == Slots(envelope) && envelope != []
    requires options.copyIncoming && dst !in inc.Own()
    modifies dst, inc.routing.storage.Repr
    ensures inc.Valid() && inc.Own() == old(inc.Own()) && inc.Header() == old(inc.Header())
    ensures var n, parts := old(Attempts(dst.timeline)), envelope + [body];
            && (o == Done <==> Goes(options, dst.answers, n, |parts|))
            && (o == Done ==>
                && Attempts(dst.timeline) == n + SendsTaken(options, dst.answers, n, |parts|)
                && Wire(dst.timeline) ==
                   Wire(old(dst.timeline)) + (if Blocks(options, dst.answers, n) then [] else Message(parts)))
  {
    hide Wire, Attempts, Run, Step, CapacityAfter, MovedAfter, Begun, Sinks.Asked, Sinks.EndsWith, Message, Goes;
    var part := new Part.Of(body);
    var sink;
    ghost var calls;
    o, sink, calls := Reply(dst, options, observed, inc, [part], envelope, [body]);
  }
}
