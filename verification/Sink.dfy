/** The outgoing message as an object. Each method is proved to make exactly the step of
    `SinkSpec`; what the steps guarantee over whole runs is proved there. */
module Sinks {
  import opened Frames
  import opened Parts
  import opened PartsStorage
  import opened SinkSpec
  import opened Sockets
  import SinkSafety
  import StepFacts

  const INIT_QUEUE_LEN: nat := 10

  class Sink {
    const dst: OutSocket
    const options: Options
    const observed: bool
    const incoming: DynamicPartsStorage?   // the message this one answers, if linked
    var queue: DynamicPartsStorage?
    const cached: Part
    var state: State
    var pendingRouting: nat

    /** The objects only this sink refers to. */
    ghost function Own(): set<object>
      reads this, queue
    {
      {this, cached} + (if queue == null then {} else queue.Repr)
    }

    ghost predicate Valid()
      reads this, queue, Own()
    {
      queue != null ==>
        && (state == QUEUEING || state == FLUSHED)
        && queue.Valid() && queue.parts != null && {this, cached, dst} !! queue.Repr
    }

    ghost function Abs(): SinkSpec.Sink
      requires Valid()
      reads this, queue, Own()
    {
      SinkSpec.Sink(options, observed, state, cached.Slot(),
                    if queue == null then None else Some(queue.View()), pendingRouting)
    }

    constructor (dst: OutSocket, options: Options, observed: bool, incoming: DynamicPartsStorage?)
      ensures Valid() && fresh(Own()) && this.dst == dst && this.incoming == incoming
      ensures Abs() == Init(options, observed)
    {
      this.dst, this.options, this.observed, this.incoming := dst, options, observed, incoming;
      queue, state, pendingRouting := null, NOTSENT, 0;
      cached := new Part(false);
    }

    method NotifyOnSend()
      modifies dst`timeline
      ensures dst.timeline == old(dst.timeline) +
              (if observed && pendingRouting == 0 then [OnSendPart(cached.msg)] else [])
      ensures dst.Next() == old(dst.Next())
    {
      if observed && pendingRouting == 0 {
        dst.Notice(OnSendPart(cached.msg));
      }
    }

    /** Offers the look-ahead part to the socket, whatever the answer. */
    method DoSendOneNonStrict(last: bool) returns (a: Answer)
      requires Valid() && cached.valid
      modifies this`pendingRouting, cached, dst
      ensures Valid() && a == old(dst.Next())
      ensures Abs() == if a == Accepted then AfterAccepted(old(Abs())) else old(Abs())
      ensures dst.timeline == old(dst.timeline) + old(SendEvents(Abs(), cached.msg, last, dst.Next()))
    {
      hide Attempts, CapacityAfter, MovedAfter, SlotsOf, Distinct;
      NotifyOnSend();
      a := dst.Send(cached, !last, options.nonblock);
      if a == Accepted && pendingRouting > 0 {
        pendingRouting := pendingRouting - 1;
      }
    }

    /** The same, where anything but acceptance is an error. */
    method DoSendOne(last: bool) returns (o: Outcome)
      requires Valid() && cached.valid
      modifies this`pendingRouting, cached, dst
      ensures Valid()
      ensures var e := SinkSpec.DoSendOne(old(Abs()), last, old(dst.Next()));
              Abs() == e.post && dst.timeline == old(dst.timeline) + e.events && o == e.outcome
    {
      var a := DoSendOneNonStrict(last);
      o := Thrown(a);
    }

    /** The fallback once the first send would block. */
    method Fallback() returns (o: Outcome)
      requires Valid() && cached.valid && state == NOTSENT
      modifies this, cached
      ensures Valid() && fresh(Own() - old(Own()))
      ensures var e := OnBlock(old(Abs()), []); Abs() == e.post && o == e.outcome
      ensures o == Done <==> options.cacheOnBlock || options.dropOnBlock
      ensures o != Done ==> o == BlockedError && Abs() == old(Abs())
      ensures options.cacheOnBlock ==>
                state == QUEUEING && !cached.valid && queue != null && queue.View() == [old(cached.Slot())]
      ensures !options.cacheOnBlock && options.dropOnBlock ==> state == DROPPING && queue == null && cached.valid
    {
      if options.cacheOnBlock {
        state := QUEUEING;
        queue := new DynamicPartsStorage(INIT_QUEUE_LEN);
        AddToQueue(cached);
        assert queue.View() == [old(cached.Slot())];
      } else if options.dropOnBlock {
        state := DROPPING;
      } else {
        return BlockedError;
      }
      o := Done;
    }

    method TrySendFirstCached(last: bool) returns (sent: bool, o: Outcome)
      requires Valid() && state == NOTSENT && cached.valid
      modifies this, cached, dst
      ensures Valid() && fresh(Own() - old(Own()))
      ensures var e := TrySendFirst(old(Abs()), last, old(dst.Next()));
              && Abs() == e.post && dst.timeline == old(dst.timeline) + e.events && o == e.outcome
              && (sent <==> state == SENDING)
      ensures o == BlockedError ==> Abs() == old(Abs())
      ensures o == SocketError ==> Abs() == old(Abs()).(cached := None)
    {
      if options.emulateBlockSends {
        o := Fallback();
        return false, o;
      }
      var a := DoSendOneNonStrict(last);
      match a {
        case Failed =>
          cached.MarkInvalid();
          return false, SocketError;
        case WouldBlock =>
          o := Fallback();
          return false, o;
        case Accepted =>
          state := SENDING;
          return true, Done;
      }
    }

    /** A part the sink may take over; it stays with the caller if this throws. */
    method SendOwned(owned: Part) returns (o: Outcome)
      requires Valid() && owned !in Own()
      requires state == QUEUEING ==> queue != null
      modifies Own(), owned, dst
      ensures o != NoSuchPartError
      ensures Valid() && fresh(Own() - old(Own())) && (state == QUEUEING ==> queue != null)
      ensures var e := SinkSpec.SendOwned(old(Abs()), old(owned.Slot()), old(dst.Next()));
              && Abs() == e.post && dst.timeline == old(dst.timeline) + e.events && o == e.outcome
              && owned.Slot() == e.owned
      ensures o != Done ==> owned.Slot() == old(owned.Slot())
      ensures o == BlockedError ==> Abs() == old(Abs())
    {
      o := Done;
      match state {
        case NOTSENT =>
          if !cached.valid {
            cached.Move(owned);
          } else {
            var sent;
            sent, o := TrySendFirstCached(false);
            if o != Done {
              return;
            }
            if sent {
              cached.Move(owned);
            } else if state == QUEUEING {
              AddToQueue(owned);
            }
          }
        case SENDING =>
          if cached.valid {
            o := DoSendOne(false);
            if o != Done {
              return;
            }
          }
          cached.Move(owned);
        case QUEUEING =>
          AddToQueue(owned);
        case DROPPING =>
        case FLUSHED =>
      }
    }

    /** The look-ahead part at the end of the message. */
    method FlushCached() returns (o: Outcome)
      requires Valid() && state != DROPPING
      modifies Own(), dst
      ensures Valid() && fresh(Own() - old(Own())) && (old(queue) != null ==> queue == old(queue))
      ensures var e := SinkSpec.FlushCached(old(Abs()), old(dst.Next()));
              Abs() == e.post && dst.timeline == old(dst.timeline) + e.events && o == e.outcome
      ensures o == BlockedError ==> Abs() == old(Abs())
    {
      o := Done;
      if cached.valid {
        match state {
          case NOTSENT =>
            var sent;
            sent, o := TrySendFirstCached(true);
          case SENDING =>
            o := DoSendOne(true);
          case _ =>
        }
        if o == Done {
          cached.MarkInvalid();
        }
      }
    }

    method Flush() returns (o: Outcome)
      requires Valid()
      modifies Own(), dst
      ensures Valid() && fresh(Own() - old(Own())) && (old(queue) != null ==> queue == old(queue))
      ensures var e := SinkSpec.Flush(old(Abs()), old(dst.Next()));
              Abs() == e.post && dst.timeline == old(dst.timeline) + e.events && o == e.outcome
      ensures o == BlockedError ==> Abs() == old(Abs())
    {
      hide SinkSpec.FlushCached, CapacityAfter, MovedAfter, Attempts, SlotsOf, Distinct, Contents;
      o := Done;
      if state == DROPPING {
        return;
      }
      o := FlushCached();
      if o == Done && state != FLUSHED {
        MarkFlushed();
      }
    }

    method MarkFlushed()
      requires Valid() && (state == QUEUEING || queue == null)
      modifies this`state, dst`timeline
      ensures Valid() && Own() == old(Own()) && Abs() == old(Abs()).(state := FLUSHED)
      ensures dst.timeline == old(dst.timeline) + (if observed then [OnFlush] else [])
    {
      if observed {
        dst.Notice(OnFlush);
      }
      state := FLUSHED;
    }

    /** Gives the queue away; this object keeps none. */
    method Detach() returns (q: DynamicPartsStorage?)
      requires Valid()
      modifies this`queue
      ensures Valid() && q == old(queue) && queue == null
      ensures Abs() == Step(old(Abs()), SinkSpec.Detach).post
    {
      q := queue;
      queue := null;
    }

    /** The destructor: flushes, whatever comes of it, and destroys the queue. */
    method Dispose()
      requires Valid()
      modifies Own(), dst
      ensures dst.timeline == old(dst.timeline) + SinkSpec.Flush(old(Abs()), old(dst.Next())).events
      ensures old(queue) != null ==> queue == old(queue)
      ensures queue != null ==> queue.alloc.constructed == queue.alloc.destroyed && queue.alloc.buffers == {}
    {
      var _ := Flush();
      if queue != null {
        queue.Dispose();
      }
    }

    method AddToQueue(msg: Part)
      requires Valid() && queue != null && msg !in queue.Repr && state == QUEUEING
      modifies queue.Repr, msg
      ensures Valid() && fresh(Own() - old(Own()))
      ensures queue.View() == old(queue.View()) + [old(msg.Slot())] && !msg.valid
    {
      hide CapacityAfter, MovedAfter, SlotsOf, Attempts;
      var target := queue.Next();
      target.Move(msg);
    }

    /** Inserts a part or, leaving it to its owner, a copy of it. */
    method SendOne(msg: Part, useCopy: bool) returns (o: Outcome)
      requires Valid() && msg !in Own()
      requires state == QUEUEING ==> queue != null
      modifies Own(), msg, dst
      ensures o != NoSuchPartError
      ensures Valid() && fresh(Own() - old(Own())) && (state == QUEUEING ==> queue != null)
      ensures var offered := if useCopy && !old(msg.valid) then Some([]) else old(msg.Slot());
              var e := SinkSpec.SendOwned(old(Abs()), offered, old(dst.Next()));
              && Abs() == e.post && dst.timeline == old(dst.timeline) + e.events && o == e.outcome
              && msg.Slot() == if useCopy then old(msg.Slot()) else e.owned
    {
      hide SinkSpec.SendOwned;
      if useCopy {
        var p := new Part();
        p.Copy(msg);
        o := SendOwned(p);
      } else {
        o := SendOwned(msg);
      }
    }

    /** One insertion as a call of a run, of a routing part or of a user part. */
    method Perform(msg: Part, useCopy: bool, isRouting: bool) returns (o: Outcome, ghost c: Call)
      requires Valid() && msg !in Own() && (state == QUEUEING ==> queue != null)
      modifies Own(), msg, dst
      ensures o != NoSuchPartError
      ensures Valid() && fresh(Own() - old(Own())) && (state == QUEUEING ==> queue != null)
      ensures c.Route? == isRouting && c.Insert? == !isRouting && c.part == Offer(old(msg.Slot()), useCopy)
      ensures c.answer == old(dst.Next())
      ensures var e := Step(old(Abs()), c);
              && Abs() == e.post && dst.timeline == old(dst.timeline) + e.events && o == e.outcome
              && msg.Slot() == if useCopy then old(msg.Slot()) else e.owned
    {
      hide SinkSpec.SendOwned;
      c := if isRouting then Route(Offer(msg.Slot(), useCopy), dst.Next())
           else Insert(Offer(msg.Slot(), useCopy), dst.Next());
      if isRouting {
        pendingRouting := pendingRouting + 1;
      }
      o := SendOne(msg, useCopy);
    }

    /** The same as one more call of a run. */
    method PerformNext(msg: Part, useCopy: bool, isRouting: bool,
                       ghost s: SinkSpec.Sink, ghost calls: seq<Call>, ghost log: seq<Event>)
      returns (o: Outcome, ghost c: Call)
      requires Valid() && msg !in Own() && (state == QUEUEING ==> queue != null) && So(s, calls, log, Done)
      modifies Own(), msg, dst
      ensures o != NoSuchPartError
      ensures Valid() && fresh(Own() - old(Own())) && (state == QUEUEING ==> queue != null)
      ensures c.Route? == isRouting && c.Insert? == !isRouting && c.part == Offer(old(msg.Slot()), useCopy)
      ensures So(s, calls + [c], log, o)
      ensures var owned := Step(old(Abs()), c).owned;
              && Run(s, calls + [c]).kept == Run(s, calls).kept + [owned]
              && msg.Slot() == if useCopy then old(msg.Slot()) else owned
    {
      hide Run, Step, Attempts, Asked, EndsWith;
      EndsWithOk(s, calls);
      o, c := Perform(msg, useCopy, isRouting);
      RunSnoc(s, calls, c);
      EndsWithNext(s, calls, c);
      AskedNext(dst, log, s, calls, c);
    }

    /** The next of several parts, as one more call of a run. */
    method SendNext(parts: seq<Part>, n: nat, useCopy: bool, isRouting: bool, ghost slots: seq<Slot>,
                    ghost s: SinkSpec.Sink, ghost calls: seq<Call>, ghost log: seq<Event>)
      returns (o: Outcome, ghost calls': seq<Call>)
      requires Valid() && (state == QUEUEING ==> queue != null)
      requires Distinct(parts) && (forall p :: p in parts ==> p !in Own()) && |calls| == n < |parts|
      requires So(s, calls, log, Done) && Sent(calls, slots, useCopy, isRouting, Run(s, calls).kept, SlotsOf(parts))
      modifies Own(), dst, parts
      ensures Valid() && fresh(Own() - old(Own())) && (state == QUEUEING ==> queue != null)
      ensures forall p :: p in parts ==> p !in Own()
      ensures o != NoSuchPartError && |calls'| == n + 1 && So(s, calls', log, o)
      ensures Sent(calls', slots, useCopy, isRouting, Run(s, calls').kept, SlotsOf(parts))
    {
      hide Run, Step, Sent;
      ghost var before, c := SlotsOf(parts), Call.Detach;
      SentBounds(calls, slots, useCopy, isRouting, Run(s, calls).kept, before);
      o, c := PerformNext(parts[n], useCopy, isRouting, s, calls, log);
      calls' := calls + [c];
      SentNext(calls, slots, useCopy, isRouting, Run(s, calls).kept, before, c, Step(Run(s, calls).post, c).owned);
      assert SlotsOf(parts) == before[n := parts[n].Slot()];
    }

    /** Sends all of `parts`, as routing or as user parts, up to the first error. */
    method SendParts(parts: seq<Part>, useCopy: bool, isRouting: bool) returns (o: Outcome, ghost calls: seq<Call>)
      requires Valid() && (state == QUEUEING ==> queue != null)
      requires Distinct(parts) && forall p :: p in parts ==> p !in Own()
      modifies Own(), dst, parts
      ensures Valid() && fresh(Own() - old(Own())) && So(old(Abs()), calls, old(dst.timeline), o)
      ensures state == QUEUEING ==> queue != null
      ensures o == Done ==> |calls| == |parts|
      ensures Sent(calls, old(SlotsOf(parts)), useCopy, isRouting, Run(old(Abs()), calls).kept, SlotsOf(parts))
    {
      hide Run, Step, So, EndsWith, Asked;
      calls, o := [], Done;
      SoNothing();
      ghost var s, slots, log := Abs(), SlotsOf(parts), dst.timeline;
      var n := 0;
      while n < |parts|
        invariant 0 <= n <= |parts| && |calls| == n && o == Done
        invariant Valid() && fresh(Own() - old(Own())) && (state == QUEUEING ==> queue != null)
        invariant forall p :: p in parts ==> p !in Own()
        invariant So(s, calls, log, o)
        invariant Sent(calls, slots, useCopy, isRouting, Run(s, calls).kept, SlotsOf(parts))
      {
        o, calls := SendNext(parts, n, useCopy, isRouting, slots, s, calls, log);
        n := n + 1;
        if o != Done {
          return;
        }
      }
    }

    /** Sends one empty part as routing. */
    method SendDelimiter() returns (o: Outcome, ghost calls: seq<Call>)
      requires Valid() && (state == QUEUEING ==> queue != null)
      modifies Own(), dst
      ensures Valid() && fresh(Own() - old(Own())) && So(old(Abs()), calls, old(dst.timeline), o)
      ensures state == QUEUEING ==> queue != null
      ensures |calls| == 1 && calls[0].Route? && calls[0].part == Some([])
    {
      hide Run, Step;
      RunNothing(Abs());
      var part := new Part();
      ghost var c;
      o, c := PerformNext(part, false, true, Abs(), [], dst.timeline);
      calls := [] + [c];
    }

    /** Sends the parts of an envelope, each counted as routing before it is inserted; without
        an envelope, only the empty delimiter. */
    method SendRouting(routing: seq<Part>) returns (o: Outcome, ghost calls: seq<Call>)
      requires Valid() && (state == QUEUEING ==> queue != null)
      requires Distinct(routing) && forall p :: p in routing ==> p !in Own()
      modifies Own(), dst, routing
      ensures Valid() && fresh(Own() - old(Own())) && So(old(Abs()), calls, old(dst.timeline), o)
      ensures state == QUEUEING ==> queue != null
      ensures routing == [] ==> |calls| == 1 && calls[0].Route? && calls[0].part == Some([])
      ensures routing != [] ==>
                && (o == Done ==> |calls| == |routing|)
                && Sent(calls, old(SlotsOf(routing)), options.copyIncoming, true,
                        Run(old(Abs()), calls).kept, SlotsOf(routing))
                && (options.copyIncoming ==> SlotsOf(routing) == old(SlotsOf(routing)))
                && (!options.copyIncoming ==>
                    multiset(Contents(old(SlotsOf(routing)))) ==
                    multiset(Run(old(Abs()), calls).taken) + multiset(Contents(SlotsOf(routing))))
    {
      hide Run, Step, Sent, Contents, Asked;
      if routing == [] {
        o, calls := SendDelimiter();
      } else {
        ghost var s, slots := Abs(), SlotsOf(routing);
        o, calls := SendParts(routing, options.copyIncoming, true);
        SentOwners(s, calls, slots, options.copyIncoming, true, SlotsOf(routing));
      }
    }

    /** `msg` is, as an object, one of the parts of the message this one is linked to. */
    predicate Linked(msg: Part)
      reads if incoming == null then {} else {incoming},
            if incoming == null || incoming.parts == null then {} else {incoming.parts}
    {
      incoming != null && incoming.parts != null && incoming.size <= incoming.parts.Length &&
      msg in incoming.parts[..incoming.size]
    }

    /** Inserts a part; one of the linked message is copied if the options say so. */
    method InsertPart(msg: Part) returns (o: Outcome)
      requires Valid() && msg !in Own() && (state == QUEUEING ==> queue != null)
      modifies Own(), msg, dst
      ensures o != NoSuchPartError
      ensures Valid() && fresh(Own() - old(Own())) && (state == QUEUEING ==> queue != null)
      ensures var copied := options.copyIncoming && incoming != null && old(incoming.parts) != null &&
                            old(incoming.size <= incoming.parts.Length &&
                                exists i :: 0 <= i < incoming.size && incoming.parts[i] == msg);
              var e := SinkSpec.SendOwned(old(Abs()), Offer(old(msg.Slot()), copied), old(dst.Next()));
              && Abs() == e.post && dst.timeline == old(dst.timeline) + e.events && o == e.outcome
              && msg.Slot() == if copied then old(msg.Slot()) else e.owned
    {
      hide SinkSpec.SendOwned;
      var useCopy := Linked(msg) && options.copyIncoming;
      o := SendOne(msg, useCopy);
    }

    /** Inserts the part at `i` of the linked message: with copying it stays there unchanged, so
        that it can be inserted again; without, it is inserted like any other. */
    method InsertLinked(i: nat) returns (o: Outcome)
      requires Valid() && (state == QUEUEING ==> queue != null)
      requires incoming != null && incoming.Valid() && incoming.Repr !! Own() && i < incoming.size
      modifies Own(), incoming.parts[i], dst
      ensures Valid() && incoming.Owns()
      ensures options.copyIncoming ==> incoming.View() == old(incoming.View())
      ensures !options.copyIncoming && o == Done && state != DROPPING && state != FLUSHED ==>
                incoming.View() == old(incoming.View())[i := None]
      ensures o != Done ==> incoming.View() == old(incoming.View())
    {
      ghost var slot := incoming.parts[i].Slot();
      SinkSafety.WhoOwnsAfterInsertion(Abs(), slot, dst.Next());
      hide SinkSpec.SendOwned, SlotsOf, CapacityAfter, MovedAfter, Contents, Attempts;
      var part := incoming.parts[i];
      label before:
      o := InsertPart(part);
      incoming.PartChanged@before(i);
    }

    /** Sends `parts` up to the first error; one that is not valid is an error. */
    method SendOwnedParts(parts: seq<Part>, useCopy: bool) returns (o: Outcome, ghost calls: seq<Call>)
      requires Valid() && (state == QUEUEING ==> queue != null)
      requires Distinct(parts) && forall p :: p in parts ==> p !in Own()
      modifies Own(), dst, parts
      ensures Valid() && fresh(Own() - old(Own())) && (state == QUEUEING ==> queue != null)
      ensures So(old(Abs()), calls, old(dst.timeline), if o == NoSuchPartError then Done else o)
      ensures Sent(calls, old(SlotsOf(parts)), useCopy, false, Run(old(Abs()), calls).kept, SlotsOf(parts))
      ensures o == Done ==> |calls| == |parts|
      ensures o == NoSuchPartError ==> |calls| < |parts| && old(SlotsOf(parts))[|calls|].None?
    {
      hide Run, Step, So, EndsWith, Asked;
      calls, o := [], Done;
      SoNothing();
      ghost var s, slots, log := Abs(), SlotsOf(parts), dst.timeline;
      var n := 0;
      while n < |parts|
        invariant 0 <= n <= |parts| && |calls| == n && o == Done
        invariant Valid() && fresh(Own() - old(Own())) && (state == QUEUEING ==> queue != null)
        invariant forall p :: p in parts ==> p !in Own()
        invariant So(s, calls, log, o)
        invariant Sent(calls, slots, useCopy, false, Run(s, calls).kept, SlotsOf(parts))
      {
        if !parts[n].valid {
          SentBounds(calls, slots, useCopy, false, Run(s, calls).kept, SlotsOf(parts));
          o := NoSuchPartError;
          return;
        }
        o, calls := SendNext(parts, n, useCopy, false, slots, s, calls, log);
        n := n + 1;
        if o != Done {
          return;
        }
      }
    }

    /** Sends the parts `from..to` of a multipart message, as far as it has them. */
    method SendIncoming(multipart: DynamicPartsStorage, useCopy: bool, from: nat, to: nat)
      returns (o: Outcome, ghost calls: seq<Call>)
      requires Valid() && multipart.Valid() && multipart.Repr !! Own()
      requires state == QUEUEING ==> queue != null
      modifies Own(), dst, multipart.Range(from, to)
      ensures Valid() && fresh(Own() - old(Own())) && (state == QUEUEING ==> queue != null)
      ensures So(old(Abs()), calls, old(dst.timeline), if o == NoSuchPartError then Done else o)
      ensures var parts := old(multipart.Range(from, to));
              && Sent(calls, old(SlotsOf(multipart.Range(from, to))), useCopy, false,
                      Run(old(Abs()), calls).kept, SlotsOf(parts))
              && (o == Done ==> |calls| == |parts|)
              && (o == NoSuchPartError ==> |calls| < |parts| && old(SlotsOf(multipart.Range(from, to)))[|calls|].None?)
              && (useCopy ==> SlotsOf(parts) == old(SlotsOf(multipart.Range(from, to))))
              && (!useCopy ==>
                  multiset(Contents(old(SlotsOf(multipart.Range(from, to))))) ==
                  multiset(Run(old(Abs()), calls).taken) + multiset(Contents(SlotsOf(parts))))
    {
      hide Run, Step, Sent, Contents, CapacityAfter, MovedAfter;
      ghost var parts, s := multipart.Range(from, to), Abs();
      ghost var slots := SlotsOf(parts);
      o, calls := SendOwnedParts(multipart.Range(from, to), useCopy);
      SentOwners(s, calls, slots, useCopy, false, SlotsOf(parts));
    }

    /** Receives one frame of the message on `src` and inserts it. */
    method RelayOne(src: InSocket, ghost s: SinkSpec.Sink, ghost calls: seq<Call>, ghost log: seq<Event>)
      returns (o: Outcome, ghost c: Call)
      requires Valid() && (state == QUEUEING ==> queue != null) && So(s, calls, log, Done)
      requires src !in Own() && src.rcvmore && Complete(src.frames)
      modifies Own(), dst, src
      ensures Valid() && fresh(Own() - old(Own())) && (state == QUEUEING ==> queue != null) && src !in Own()
      ensures So(s, calls + [c], log, o)
      ensures c.Insert? && old(src.Left()) != [] && c.part == Some(old(src.Left())[0])
      ensures src.Left() == old(src.Left())[1..]
      ensures old(src.frames) != [] && src.frames == old(src.frames)[1..]
      ensures src.rcvmore ==> Complete(src.frames)
      ensures (if src.rcvmore then Rest(src.frames) else src.frames) == old(Rest(src.frames))
    {
      hide Run, Step, Body, Rest, Complete;
      ReceiveFrame(src.frames);
      var part := new Part();
      var _ := src.Receive(part);
      o, c := PerformNext(part, false, false, s, calls, log);
    }

    /** Receives what is left of the message on `src` and inserts it part by part. */
    method RelayFrom(src: InSocket) returns (o: Outcome, ghost calls: seq<Call>)
      requires Valid() && (state == QUEUEING ==> queue != null)
      requires src !in Own() && (src.rcvmore ==> Complete(src.frames))
      modifies Own(), dst, src
      ensures Valid() && fresh(Own() - old(Own())) && So(old(Abs()), calls, old(dst.timeline), o)
      ensures state == QUEUEING ==> queue != null
      ensures Relayed(calls, old(src.Left()), src.Left())
      ensures |calls| <= |old(src.frames)| && src.frames == old(src.frames)[|calls|..]
      ensures o == Done ==>
                !src.rcvmore && src.frames == if old(src.rcvmore) then Rest(old(src.frames)) else old(src.frames)
    {
      hide Run, Step, Body, Rest, Complete, Relayed, CapacityAfter, MovedAfter, So, EndsWith, Asked;
      calls, o := [], Done;
      SoNothing();
      RelayedNone(src.Left());
      ghost var s, log, c := Abs(), dst.timeline, Call.Detach;
      ghost var fs := src.frames;
      ghost var whole, rest := src.Left(), if src.rcvmore then Rest(src.frames) else src.frames;
      var more := src.HasMore();
      while more
        invariant more == src.rcvmore && (more ==> Complete(src.frames)) && o == Done && src !in Own()
        invariant Valid() && fresh(Own() - old(Own())) && (state == QUEUEING ==> queue != null)
        invariant So(s, calls, log, o)
        invariant Relayed(calls, whole, src.Left())
        invariant |calls| <= |fs| && src.frames == fs[|calls|..]
        invariant (if more then Rest(src.frames) else src.frames) == rest
        decreases |src.frames|
      {
        ghost var left := src.Left();
        o, c := RelayOne(src, s, calls, log);
        RelayedNext(calls, whole, left, c);
        calls := calls + [c];
        more := src.HasMore();
        if o != Done {
          return;
        }
      }
    }

    /** Before the first call. */
    lemma SoNothing()
      requires Valid()
      ensures So(Abs(), [], dst.timeline, Done) && Run(Abs(), []).kept == []
    {
      hide Step;
    }

    /** Calls made after others that met no error. */
    lemma SoConcat(s: SinkSpec.Sink, a: seq<Call>, b: seq<Call>, log: seq<Event>, o: Outcome)
      requires Valid() && Run(s, a).ok && Asked(dst, Attempts(log), s, a)
      requires So(Run(s, a).post, b, log + Run(s, a).events, o)
      ensures So(s, a + b, log, o)
    {
      hide Run, Step, Asked, Attempts, EndsWith;
      RunConcat(s, a, b);
      EndsWithConcat(s, a, b, o);
      AskedConcat(dst, log, s, a, b);
      var r := Run(s, a);
      assert (log + r.events) + Run(r.post, b).events == log + (r.events + Run(r.post, b).events);
    }

    /** Flushes, as one more call of a run. */
    method FlushNext(ghost s: SinkSpec.Sink, ghost calls: seq<Call>, ghost log: seq<Event>)
      returns (o: Outcome, ghost c: Call)
      requires Valid() && So(s, calls, log, Done)
      modifies Own(), dst
      ensures Valid() && fresh(Own() - old(Own())) && c.Flushing? && So(s, calls + [c], log, o)
    {
      hide Run, SinkSpec.Flush, Attempts, Asked, EndsWith;
      EndsWithOk(s, calls);
      c := Flushing(dst.Next());
      RunSnoc(s, calls, c);
      EndsWithNext(s, calls, c);
      AskedNext(dst, log, s, calls, c);
      o := Flush();
    }

    /** The calls, made from `s` up to the first error, have led here; what was seen since `log`
        are their events. */
    ghost predicate So(s: SinkSpec.Sink, calls: seq<Call>, log: seq<Event>, o: Outcome)
      requires Valid()
      reads this, queue, Own(), dst
    {
      var r := Run(s, calls);
      && Abs() == r.post && dst.timeline == log + r.events
      && EndsWith(s, calls, o) && Asked(dst, Attempts(log), s, calls)
    }
  }

  /** The calls meet no error but with the last one, whose outcome is `o`. */
  ghost predicate EndsWith(s: SinkSpec.Sink, calls: seq<Call>, o: Outcome) {
    && (Run(s, calls).ok <==> o == Done)
    && (o != Done ==>
        calls != [] &&
        var n := |calls| - 1;
        var r := Run(s, calls[..n]);
        r.ok && o == Step(r.post, calls[n]).outcome)
  }

  lemma EndsWithOk(s: SinkSpec.Sink, calls: seq<Call>)
    requires EndsWith(s, calls, Done)
    ensures Run(s, calls).ok
  {
  }

  lemma EndsWithNext(s: SinkSpec.Sink, calls: seq<Call>, c: Call)
    requires Run(s, calls).ok
    ensures EndsWith(s, calls + [c], Step(Run(s, calls).post, c).outcome)
  {
    hide Run, Step;
    RunSnoc(s, calls, c);
    assert (calls + [c])[..|calls|] == calls;
  }

  lemma EndsWithConcat(s: SinkSpec.Sink, a: seq<Call>, b: seq<Call>, o: Outcome)
    requires Run(s, a).ok && EndsWith(Run(s, a).post, b, o)
    ensures EndsWith(s, a + b, o)
  {
    hide Run, Step;
    RunConcat(s, a, b);
    if o != Done {
      var t := b[..|b| - 1];
      RunConcat(s, a, t);
      assert (a + b)[..|a + b| - 1] == a + t;
    }
  }

  lemma {:induction false} AskedConcat(sock: OutSocket, log: seq<Event>, s: SinkSpec.Sink, a: seq<Call>, b: seq<Call>)
    requires Asked(sock, Attempts(log), s, a)
    requires Asked(sock, Attempts(log + Run(s, a).events), Run(s, a).post, b)
    ensures Asked(sock, Attempts(log), s, a + b)
  {
    hide Attempts, Run;
    if b == [] {
      assert a + b == a;
    } else {
      var t, c, r := b[..|b| - 1], b[|b| - 1], Run(s, a);
      assert b == t + [c] && a + b == (a + t) + [c];
      assert forall i :: 0 <= i <= |t| ==> t[..i] == b[..i];
      AskedConcat(sock, log, s, a, t);
      RunConcat(s, a, t);
      AttemptsConcat(log + r.events, Run(r.post, t).events);
      assert (log + r.events) + Run(r.post, t).events == log + (r.events + Run(r.post, t).events);
      AskedNext(sock, log, s, a + t, c);
    }
  }

  /** The answer of each call is what the socket says to the send then due, if one is. */
  ghost predicate Asked(sock: OutSocket, n: nat, s: SinkSpec.Sink, calls: seq<Call>) {
    forall i :: 0 <= i < |calls| ==>
      calls[i].Detach? || calls[i].answer == sock.answers(n + Attempts(Run(s, calls[..i]).events))
  }

  lemma AskedNext(sock: OutSocket, log: seq<Event>, s: SinkSpec.Sink, calls: seq<Call>, c: Call)
    requires Asked(sock, Attempts(log), s, calls)
    requires c.Detach? || c.answer == sock.answers(Attempts(log + Run(s, calls).events))
    ensures Asked(sock, Attempts(log), s, calls + [c])
  {
    hide Attempts, Run;
    AttemptsConcat(log, Run(s, calls).events);
    assert forall i :: 0 <= i <= |calls| ==> (calls + [c])[..i] == calls[..i];
    assert calls[..|calls|] == calls;
  }

  /** What is inserted for a part: its content, or a copy; the copy of a part that is not
      owned is an empty part. */
  function Offer(s: Slot, useCopy: bool): Slot {
    if useCopy && s.None? then Some([]) else s
  }

  /** The calls offer the first slots in order, as routing or as user parts. The owner's slots
      afterwards are untouched when copied, else what the calls left of them. */
  ghost predicate Sent(calls: seq<Call>, slots: seq<Slot>, useCopy: bool, isRouting: bool,
                       kept: seq<Slot>, after: seq<Slot>) {
    && |calls| == |kept| <= |slots| == |after|
    && (forall i :: 0 <= i < |calls| ==>
          (if isRouting then calls[i].Route? else calls[i].Insert?) && calls[i].part == Offer(slots[i], useCopy))
    && forall i :: 0 <= i < |after| ==> after[i] == if useCopy || i >= |kept| then slots[i] else kept[i]
  }

  lemma SentBounds(calls: seq<Call>, slots: seq<Slot>, useCopy: bool, isRouting: bool,
                   kept: seq<Slot>, after: seq<Slot>)
    requires Sent(calls, slots, useCopy, isRouting, kept, after)
    ensures |calls| == |kept| <= |slots| == |after|
    ensures |calls| < |slots| ==> after[|calls|] == slots[|calls|]
  {
  }

  lemma SentNext(calls: seq<Call>, slots: seq<Slot>, useCopy: bool, isRouting: bool,
                 kept: seq<Slot>, after: seq<Slot>, c: Call, owned: Slot)
    requires Sent(calls, slots, useCopy, isRouting, kept, after)
    requires |calls| < |slots| && (if isRouting then c.Route? else c.Insert?)
    requires c.part == Offer(slots[|calls|], useCopy)
    ensures Sent(calls + [c], slots, useCopy, isRouting, kept + [owned],
                 after[|calls| := if useCopy then slots[|calls|] else owned])
  {
  }

  /** Parts sent without copying are the sink's or their owner's, and not both. */
  lemma SentConserves(s: SinkSpec.Sink, calls: seq<Call>, slots: seq<Slot>, isRouting: bool, after: seq<Slot>)
    requires Sent(calls, slots, false, isRouting, Run(s, calls).kept, after)
    ensures multiset(Contents(slots)) == multiset(Run(s, calls).taken) + multiset(Contents(after))
  {
    hide Run, Contents;
    var n, kept := |calls|, Run(s, calls).kept;
    assert slots == slots[..n] + slots[n..] && after == kept + slots[n..];
    ContentsConcat(slots[..n], slots[n..]);
    ContentsConcat(kept, slots[n..]);
    OfferedSlots(calls, slots[..n]);
    SinkSafety.TakenOrKept(s, calls);
  }

  /** With copying the owner's slots stay as they were. */
  lemma SentOwners(s: SinkSpec.Sink, calls: seq<Call>, slots: seq<Slot>,
                   useCopy: bool, isRouting: bool, after: seq<Slot>)
    requires Sent(calls, slots, useCopy, isRouting, Run(s, calls).kept, after)
    ensures useCopy ==> after == slots
    ensures !useCopy ==> multiset(Contents(slots)) == multiset(Run(s, calls).taken) + multiset(Contents(after))
  {
    if !useCopy {
      SentConserves(s, calls, slots, isRouting, after);
    }
  }

  lemma {:induction false} OfferedSlots(calls: seq<Call>, slots: seq<Slot>)
    requires |calls| == |slots|
    requires forall i :: 0 <= i < |calls| ==> IsInsertion(calls[i]) && calls[i].part == slots[i]
    ensures SinkSafety.Offered(calls) == Contents(slots)
  {
    if calls != [] {
      OfferedSlots(calls[..|calls| - 1], slots[..|slots| - 1]);
    }
  }

  /** Any run, then parts sent without copying: every content, the new ones included, has
      exactly one owner among the callers, the message the parts are from, the wire, detached
      messages, the queue and the look-ahead part, unless it was given up. */
  lemma OneOwnerAfterSending(options: Options, observed: bool, before: seq<Call>, calls: seq<Call>,
                             slots: seq<Slot>, isRouting: bool, after: seq<Slot>)
    requires Sent(calls, slots, false, isRouting, Run(Run(Init(options, observed), before).post, calls).kept, after)
    ensures var s := Init(options, observed);
            var r := Run(s, before + calls);
            multiset(SinkSafety.Offered(before)) + multiset(Contents(slots)) ==
            multiset(Contents(Run(s, before).kept)) + multiset(Contents(after)) + multiset(ContentsOf(Wire(r.events))) +
            multiset(r.released) + multiset(SinkSafety.Held(r.post)) + multiset(r.lost)
  {
    hide Run, Wire, Contents, SinkSafety.Held, SinkSafety.Offered, ContentsOf, Sent;
    var s := Init(options, observed);
    SentConserves(Run(s, before).post, calls, slots, isRouting, after);
    RunConcat(s, before, calls);
    SinkSafety.TakenOrKept(s, before);
    SinkSafety.EveryRunIsSafe(options, observed, before + calls);
    var r := Run(s, before + calls);
    var x := multiset(Run(s, before).taken);
    var y := multiset(Run(Run(s, before).post, calls).taken);
    assert multiset(r.taken) == x + y;
    Balance(x, multiset(Contents(Run(s, before).kept)), y, multiset(Contents(after)),
            multiset(ContentsOf(Wire(r.events))), multiset(r.released),
            multiset(SinkSafety.Held(r.post)), multiset(r.lost));
  }

  lemma Balance<T>(x: multiset<T>, k: multiset<T>, y: multiset<T>, a: multiset<T>,
                   w: multiset<T>, r: multiset<T>, h: multiset<T>, l: multiset<T>)
    requires x + y == l + w + r + h
    ensures (x + k) + (y + a) == k + a + w + r + h + l
  {
    assert (x + k) + (y + a) == k + a + (x + y);
    assert k + a + (l + w + r + h) == k + a + w + r + h + l;
  }

  /** The calls insert, in order, what has been received of the parts that were left. */
  ghost predicate Relayed(calls: seq<Call>, before: seq<Content>, after: seq<Content>) {
    && |calls| <= |before| && after == before[|calls|..]
    && forall i :: 0 <= i < |calls| ==> calls[i].Insert? && calls[i].part == Some(before[i])
  }

  lemma RelayedNone(before: seq<Content>)
    ensures Relayed([], before, before)
  {
  }

  lemma RelayedNext(calls: seq<Call>, before: seq<Content>, after: seq<Content>, c: Call)
    requires Relayed(calls, before, after) && after != [] && c.Insert? && c.part == Some(after[0])
    ensures Relayed(calls + [c], before, after[1..])
  {
  }
}
