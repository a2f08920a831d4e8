/** The incoming message as an object: the routing envelope, then the parts. */
module Incomings {
  import opened Frames
  import opened Parts
  import opened PartsStorage
  import opened SinkSpec
  import opened Sockets
  import opened Receiving

  const ROUTING_CAPACITY: nat := 5

  lemma NoSlots()
    ensures Slots([]) == []
  {
  }

  /** `src` has moved on by `n` of the frames it had. */
  twostate predicate Advanced(src: InSocket, n: nat)
    reads src
  {
    && n <= |old(src.frames)| && src.frames == old(src.frames)[n..]
    && src.rcvmore == if n == 0 then old(src.rcvmore) else old(src.frames)[n - 1].more
  }

  /** The envelope of a message, kept in a fixed number of parts. */
  class XRouting {
    const storage: StackPartsStorage

    ghost predicate Valid()
      reads this, storage, storage.Repr
    {
      storage.Valid() && storage.parts.Length == ROUTING_CAPACITY
    }

    constructor ()
      ensures Valid() && fresh(storage) && fresh(storage.Repr) && storage.View() == []
    {
      storage := new StackPartsStorage(ROUTING_CAPACITY);
    }

    /** Receives one frame into the next slot; `null` when there is none. */
    method ReceivePart(src: InSocket) returns (part: Part?)
      requires Valid() && src !in storage.Repr && src.frames != []
      modifies storage.Repr, src
      ensures Valid() && storage.Repr == old(storage.Repr)
      ensures part == null <==> old(storage.size) == ROUTING_CAPACITY
      ensures part == null ==> unchanged(src) && unchanged(storage) && storage.View() == old(storage.View())
      ensures part != null ==>
                && storage.size == old(storage.size) + 1 && part.msg == old(src.frames)[0].content
                && storage.View() == old(storage.View()) + [Some(part.msg)]
                && src.frames == old(src.frames)[1..] && src.rcvmore == old(src.frames)[0].more
    {
      part := storage.Next();
      if part != null {
        var _ := src.Receive(part);
      }
    }

    /** Reads an envelope from the stream. */
    method ReadEnvelope(src: InSocket) returns (o: Outcome)
      requires Valid() && src !in storage.Repr && storage.size == 0 && Complete(src.frames)
      modifies storage.Repr, src
      ensures Valid() && storage.Repr == old(storage.Repr)
      ensures var body := Body(old(src.frames));
              && o == (if Envelope(body, ROUTING_CAPACITY).Some? then Done else MessageFormatError)
              && storage.View() == Slots(EnvelopeParts(body, ROUTING_CAPACITY))
      ensures Advanced(src, storage.size)
    {
      ghost var body := Body(src.frames);
      BodyFrames(src.frames);
      hide Body, Complete, Rest, FirstEmpty, Envelope, EnvelopeParts, Slots;
      NoSlots();
      assert body[..0] == [];
      var i := 0;
      while true
        invariant Valid() && i == storage.size < |body| && i <= ROUTING_CAPACITY
        invariant storage.View() == Slots(body[..i])
        invariant i <= FirstEmpty(body)
        invariant Advanced(src, i) && storage.Repr == old(storage.Repr)
        decreases |body| - i
      {
        EnvelopeAt(body, ROUTING_CAPACITY, i);
        var part := ReceivePart(src);
        if part == null {
          return MessageFormatError;
        }
        SlotsNext(body, i);
        if part.msg == [] {
          return Done;
        }
        EnvelopeAt(body, ROUTING_CAPACITY, i + 1);
        if !src.HasMore() {
          return MessageFormatError;
        }
        i := i + 1;
      }
      o := Done;
    }

    /** Reads the envelope once: nothing happens when parts are stored already. */
    method ReceiveRouting(src: InSocket) returns (o: Outcome)
      requires Valid() && src !in storage.Repr
      requires storage.size == 0 ==> Complete(src.frames)
      modifies storage.Repr, src
      ensures Valid() && storage.Repr == old(storage.Repr)
      ensures old(storage.size) > 0 ==>
                o == Done && unchanged(src) && unchanged(storage) && storage.View() == old(storage.View())
      ensures old(storage.size) == 0 ==>
                var body := Body(old(src.frames));
                && o == (if Envelope(body, ROUTING_CAPACITY).Some? then Done else MessageFormatError)
                && storage.View() == Slots(EnvelopeParts(body, ROUTING_CAPACITY))
                && Advanced(src, storage.size)
    {
      if storage.size > 0 {
        return Done;
      }
      o := ReadEnvelope(src);
    }
  }

  /** An incoming message. Without an `XRouting` there is no envelope to read. */
  class Incoming {
    const src: InSocket
    const routing: XRouting?
    const storage: DynamicPartsStorage
    var isTerminal: bool
    var curExtractIdx: nat

    ghost function Own(): set<object>
      reads this, storage, if routing == null then {} else {routing.storage}
    {
      {this} + storage.Repr + (if routing == null then {} else routing.storage.Repr)
    }

    ghost predicate Valid()
      reads this, storage, if routing == null then {} else {routing, routing.storage}, Own()
    {
      && storage.Valid() && storage.parts != null && {this, src} !! storage.Repr
      && (routing != null ==> routing.Valid() && {this, src} + storage.Repr !! routing.storage.Repr)
    }

    constructor (src: InSocket, routing: XRouting?, capacity: nat)
      requires capacity >= 1 && (routing != null ==> routing.Valid() && src !in routing.storage.Repr)
      ensures Valid() && this.src == src && this.routing == routing
      ensures fresh(storage) && fresh(storage.Repr)
      ensures storage.View() == [] && !isTerminal && curExtractIdx == 0
    {
      this.src, this.routing := src, routing;
      storage := new DynamicPartsStorage(capacity);
      isTerminal, curExtractIdx := false, 0;
    }

    /** Receives one more part. */
    method ReceiveOne() returns (more: bool)
      requires Valid() && src.frames != []
      modifies storage.Repr, src
      ensures Valid() && fresh(storage.Repr - old(storage.Repr))
      ensures storage.View() == old(storage.View()) + [Some(old(src.frames)[0].content)]
      ensures src.frames == old(src.frames)[1..] && more == src.rcvmore == old(src.frames)[0].more
    {
      hide CapacityAfter, MovedAfter, SlotsOf;
      var part := storage.Next();
      var _ := src.Receive(part);
      more := src.HasMore();
    }

    /** The parts of `g` are in, from the stream `fs`, after what was stored in `view`. */
    ghost predicate Have(fs: seq<Frame>, view: seq<Slot>, g: Got, o: Outcome)
      requires Valid()
      reads this, src, Own(), storage, if routing == null then {} else {routing, routing.storage}
    {
      && |g.parts| <= |fs| && src.frames == fs[|g.parts|..]
      && (g.parts != [] ==> src.rcvmore == fs[|g.parts| - 1].more)
      && storage.View() == view + Slots(g.parts)
      && isTerminal == g.terminal && o == g.outcome
    }

    /** `i` of the parts `left` on the stream `fs` are in, after what was stored in `view`. */
    ghost predicate At(fs: seq<Frame>, left: seq<Content>, view: seq<Slot>, i: nat)
      requires Valid()
      reads this, src, Own(), storage, if routing == null then {} else {routing, routing.storage}
    {
      && i <= |left| && OnStream(fs, left) && src.frames == fs[i..]
      && (i > 0 ==> (src.rcvmore <==> i < |left|))
      && storage.View() == view + Slots(left[..i])
    }

    method ReceiveNext(ghost fs: seq<Frame>, ghost left: seq<Content>, ghost view: seq<Slot>, ghost i: nat)
      returns (more: bool)
      requires Valid() && At(fs, left, view, i) && i < |left|
      modifies storage.Repr, src
      ensures Valid() && fresh(storage.Repr - old(storage.Repr))
      ensures At(fs, left, view, i + 1) && (more <==> i + 1 < |left|)
    {
      hide Slots;
      more := ReceiveOne();
      SlotsNext(left, i);
    }

    /** The loop of `receive`; `i` is how many parts it received. */
    method ReceiveLoop(n: nat, checkTerminal: bool,
                       ghost fs: seq<Frame>, ghost left: seq<Content>, ghost view: seq<Slot>)
      returns (o: Outcome, ghost got: nat)
      requires Valid() && n > 0 && left != [] && At(fs, left, view, 0)
      modifies this`isTerminal, storage.Repr, src
      ensures Valid() && fresh(storage.Repr - old(storage.Repr)) && At(fs, left, view, got)
      ensures got == Min(n, |left|) && isTerminal == (|left| <= n)
      ensures o == if |left| < n || (|left| > n && checkTerminal) then MessageFormatError else Done
    {
      hide Slots, OnStream, SlotsOf, CapacityAfter, MovedAfter, Distinct;
      var i := 0;
      got := 0;
      while i < n
        invariant 0 <= i == got <= n && (i < n ==> i < |left|) && i <= |left|
        invariant Valid() && fresh(storage.Repr - old(storage.Repr)) && At(fs, left, view, i)
        invariant i == n ==> isTerminal == (|left| == n) && (|left| > n ==> !checkTerminal)
      {
        var more := ReceiveNext(fs, left, view, i);
        got := i + 1;
        if i < n - 1 && !more {
          isTerminal := true;
          return MessageFormatError, got;
        }
        if i == n - 1 && more {
          isTerminal := false;
          if checkTerminal {
            return MessageFormatError, got;
          }
        }
        if i == n - 1 && !more {
          isTerminal := true;
        }
        i := i + 1;
      }
      o := Done;
    }

    method ReceiveParts(n: nat, checkTerminal: bool) returns (o: Outcome)
      requires Valid() && (n > 0 ==> Complete(src.frames))
      modifies this`isTerminal, storage.Repr, src
      ensures Valid() && fresh(storage.Repr - old(storage.Repr))
      ensures Have(old(src.frames), old(storage.View()),
                   Receiving.Receive(Body(old(src.frames)), old(isTerminal), n, checkTerminal), o)
    {
      ghost var fs, left, view := src.frames, Body(src.frames), storage.View();
      if n == 0 {
        return Done;
      }
      Start(fs);
      hide Body, Complete, Rest, Slots;
      ghost var i;
      o, i := ReceiveLoop(n, checkTerminal, fs, left, view);
      assert |left[..i]| == i;
    }

    /** The frames the parts will be read from, behind the envelope if that is still to be read. */
    ghost function Stream(): seq<Frame>
      requires Valid() && (Unrouted() ==> Complete(src.frames))
      reads this, src, Own(), storage, if routing == null then {} else {routing, routing.storage}
    {
      if Unrouted() then
        BodyFrames(src.frames);
        src.frames[|EnvelopeParts(Body(src.frames), ROUTING_CAPACITY)|..]
      else src.frames
    }

    predicate Unrouted()
      reads this, if routing == null then {} else {routing, routing.storage}
    {
      routing != null && routing.storage.size == 0
    }

    /** The envelope parts stored. */
    ghost function Header(): seq<Slot>
      requires Valid()
      reads this, Own(), storage, if routing == null then {} else {routing, routing.storage}
    {
      if routing == null then [] else routing.storage.View()
    }

    /** The envelope parts stored once anything is received: they are read only if there are
        none yet. */
    ghost function HeaderToBe(): seq<Slot>
      requires Valid()
      reads this, src, Own(), storage, if routing == null then {} else {routing, routing.storage}
    {
      if Unrouted() then Slots(EnvelopeParts(Body(src.frames), ROUTING_CAPACITY)) else Header()
    }

    ghost predicate Routable()
      reads this, src, if routing == null then {} else {routing, routing.storage}
    {
      Unrouted() ==> Envelope(Body(src.frames), ROUTING_CAPACITY).Some?
    }

    /** The routing policy's part of receiving. */
    method ReceiveHeader() returns (o: Outcome)
      requires Valid() && (Unrouted() ==> Complete(src.frames))
      modifies src, if routing == null then {} else routing.storage.Repr
      ensures Valid() && unchanged(storage) && storage.View() == old(storage.View()) && src.frames == old(Stream())
      ensures o == if old(Routable()) then Done else MessageFormatError
      ensures Header() == old(HeaderToBe()) && fresh(Own() - old(Own()))
    {
      o := Done;
      if routing != null {
        o := routing.ReceiveRouting(src);
      }
    }

    /** Receives exactly `n` parts; more are an error only if asked so. */
    method Receive(n: nat, checkTerminal: bool) returns (o: Outcome)
      requires Valid() && (Unrouted() ==> Complete(src.frames))
      requires n > 0 && Routable() ==> Complete(Stream())
      modifies this`isTerminal, storage.Repr, src, if routing == null then {} else routing.storage.Repr
      ensures Valid() && fresh(storage.Repr - old(storage.Repr))
      ensures Have(old(Stream()), old(storage.View()),
                   if old(Routable()) then Receiving.Receive(Body(old(Stream())), old(isTerminal), n, checkTerminal)
                   else Got([], [], old(isTerminal), MessageFormatError), o)
      ensures Header() == old(HeaderToBe()) && fresh(Own() - old(Own()))
    {
      o := ReceiveHeader();
      if o == Done {
        o := ReceiveParts(n, checkTerminal);
      }
    }

    /** The loop of `receive_all`: the rest of the message, if it is not over. */
    method ReceiveRest(ghost fs: seq<Frame>, ghost left: seq<Content>, ghost view: seq<Slot>, ghost i: nat)
      requires Valid() && (isTerminal || (i < |left| && At(fs, left, view, i)))
      modifies this`isTerminal, storage.Repr, src
      ensures Valid() && fresh(storage.Repr - old(storage.Repr)) && isTerminal
      ensures old(isTerminal) ==> unchanged(src) && storage.View() == old(storage.View())
      ensures !old(isTerminal) ==> At(fs, left, view, |left|)
    {
      hide Slots, OnStream, SlotsOf, CapacityAfter, MovedAfter, Distinct;
      ghost var k := i;
      while !isTerminal
        invariant Valid() && fresh(storage.Repr - old(storage.Repr))
        invariant old(isTerminal) ==> unchanged(src) && storage.View() == old(storage.View()) && isTerminal
        invariant !old(isTerminal) ==>
                    k <= |left| && At(fs, left, view, k) && (isTerminal <==> k == |left|)
        decreases |left| - k
      {
        var more := ReceiveNext(fs, left, view, k);
        isTerminal := !more;
        k := k + 1;
      }
    }

    /** The loop of `receive_up_to`: parts `from` up to `most`, as long as there are any. */
    method ReceiveMore(from: nat, most: nat, ghost fs: seq<Frame>, ghost left: seq<Content>, ghost view: seq<Slot>)
      returns (ghost k: nat)
      requires Valid() && (isTerminal || most <= from || (from < |left| && At(fs, left, view, from)))
      modifies this`isTerminal, storage.Repr, src
      ensures Valid() && fresh(storage.Repr - old(storage.Repr))
      ensures old(isTerminal) || most <= from ==>
                unchanged(src) && storage.View() == old(storage.View()) && unchanged(this)
      ensures !(old(isTerminal) || most <= from) ==>
                k == Min(most, |left|) && At(fs, left, view, k) && (isTerminal <==> k == |left|)
    {
      hide Slots, OnStream, SlotsOf, CapacityAfter, MovedAfter, Distinct;
      var n := from;
      k := from;
      while n < most && !isTerminal
        invariant Valid() && fresh(storage.Repr - old(storage.Repr)) && n == k >= from
        invariant old(isTerminal) || most <= from ==>
                    unchanged(src) && storage.View() == old(storage.View()) && unchanged(this) && k == from
        invariant !(old(isTerminal) || most <= from) ==>
                    k <= Min(most, |left|) && At(fs, left, view, k) && (isTerminal <==> k == |left|)
      {
        var more := ReceiveNext(fs, left, view, k);
        isTerminal := !more;
        n := n + 1;
        k := n;
      }
    }

    /** `receive_all` after its `receive`, which had the terminal flag `was` to start with. */
    method GoOnToEnd(least: nat, ghost fs: seq<Frame>, ghost view: seq<Slot>, ghost was: bool)
      requires Valid() && (!isTerminal ==> Complete(fs))
      requires Have(fs, view, Receiving.Receive(Body(fs), was, least, false), Done)
      modifies this`isTerminal, storage.Repr, src
      ensures Valid() && fresh(storage.Repr - old(storage.Repr))
      ensures Have(fs, view, Receiving.ReceiveAll(Body(fs), was, least), Done)
    {
      ghost var left := Body(fs);
      if !isTerminal {
        Start(fs);
      }
      GoingOn(left, was, least, 0);
      hide Slots, Receiving.Receive, Receiving.ReceiveAll, Body, Complete;
      ReceiveRest(fs, left, view, least);
      assert left[..|left|] == left;
    }

    /** `receive_up_to` after its `receive`. */
    method GoOnUpTo(least: nat, most: nat, ghost fs: seq<Frame>, ghost view: seq<Slot>, ghost was: bool)
      requires Valid() && (!isTerminal ==> Complete(fs))
      requires Have(fs, view, Receiving.Receive(Body(fs), was, least, false), Done)
      modifies this`isTerminal, storage.Repr, src
      ensures Valid() && fresh(storage.Repr - old(storage.Repr))
      ensures Have(fs, view, Receiving.ReceiveUpTo(Body(fs), was, least, most), Done)
    {
      ghost var left := Body(fs);
      if !isTerminal {
        Start(fs);
      }
      GoingOn(left, was, least, most);
      hide Slots, Receiving.Receive, Receiving.ReceiveUpTo, Body, Complete;
      ghost var k := ReceiveMore(least, most, fs, left, view);
      assert |left[..Min(most, |left|)]| == Min(most, |left|);
    }

    /** Receives all parts of the message, at least `least`. */
    method ReceiveAll(least: nat) returns (o: Outcome)
      requires Valid() && (Unrouted() ==> Complete(src.frames))
      requires (least > 0 || !isTerminal) && Routable() ==> Complete(Stream())
      modifies this`isTerminal, storage.Repr, src, if routing == null then {} else routing.storage.Repr
      ensures Valid() && fresh(storage.Repr - old(storage.Repr))
      ensures Have(old(Stream()), old(storage.View()),
                   if old(Routable()) then Receiving.ReceiveAll(Body(old(Stream())), old(isTerminal), least)
                   else Got([], [], old(isTerminal), MessageFormatError), o)
      ensures Header() == old(HeaderToBe()) && fresh(Own() - old(Own()))
    {
      hide Slots, Body, Complete, EnvelopeParts, Envelope, HeaderToBe, SlotsOf, CapacityAfter, MovedAfter, Distinct;
      ghost var fs, view, was := Stream(), storage.View(), isTerminal;
      if Complete(fs) {
        BodyFrames(fs);
      }
      if Body(fs) != [] || was {
        GoingOn(Body(fs), was, least, 0);
      }
      o := Receive(least, false);
      if o == Done {
        GoOnToEnd(least, fs, view, was);
      }
    }

    /** Receives at least `least` parts, and more up to `most`. */
    method ReceiveUpTo(least: nat, most: nat) returns (o: Outcome)
      requires Valid() && (Unrouted() ==> Complete(src.frames))
      requires (least > 0 || !isTerminal) && Routable() ==> Complete(Stream())
      modifies this`isTerminal, storage.Repr, src, if routing == null then {} else routing.storage.Repr
      ensures Valid() && fresh(storage.Repr - old(storage.Repr))
      ensures Have(old(Stream()), old(storage.View()),
                   if old(Routable()) then Receiving.ReceiveUpTo(Body(old(Stream())), old(isTerminal), least, most)
                   else Got([], [], old(isTerminal), MessageFormatError), o)
      ensures Header() == old(HeaderToBe()) && fresh(Own() - old(Own()))
    {
      hide Slots, Body, Complete, EnvelopeParts, Envelope, HeaderToBe, SlotsOf, CapacityAfter, MovedAfter, Distinct;
      ghost var fs, view, was := Stream(), storage.View(), isTerminal;
      if Complete(fs) {
        BodyFrames(fs);
      }
      if Body(fs) != [] || was {
        GoingOn(Body(fs), was, least, most);
      }
      o := Receive(least, false);
      if o == Done {
        GoOnUpTo(least, most, fs, view, was);
      }
    }

    /** One of the receiving calls. */
    method Perform(op: Op) returns (o: Outcome)
      requires Valid() && (Unrouted() ==> Complete(src.frames)) && Routable()
      requires Reads(op) || !isTerminal ==> Complete(Stream())
      modifies this`isTerminal, storage.Repr, src, if routing == null then {} else routing.storage.Repr
      ensures Valid() && fresh(storage.Repr - old(storage.Repr))
      ensures Header() == old(HeaderToBe()) && fresh(Own() - old(Own())) && !Unrouted()
      ensures Have(old(Stream()), old(storage.View()),
                   Receiving.Perform(Body(old(Stream())), old(isTerminal), op), o)
    {
      HeaderIsStored();
      hide Slots, Body, Complete, EnvelopeParts, Envelope, HeaderToBe, SlotsOf, CapacityAfter, MovedAfter, Distinct;
      hide Receiving.Receive, Receiving.ReceiveAll, Receiving.ReceiveUpTo;
      match op {
        case Exactly(n, checkTerminal) => o := Receive(n, checkTerminal);
        case All(least) => o := ReceiveAll(least);
        case UpTo(least, most) => o := ReceiveUpTo(least, most);
      }
    }

    lemma HeaderIsStored()
      requires Valid() && (Unrouted() ==> Complete(src.frames))
      ensures routing != null ==> HeaderToBe() != []
    {
      if Unrouted() {
        BodyFrames(src.frames);
      }
    }

    /** Receiving calls one after the other, up to the first error, none of them reading past the
        end of the message: they receive exactly what `Receiving.PerformAll` says. So the parts
        received and those left are together the message. */
    method PerformAll(ops: seq<Op>) returns (o: Outcome)
      requires Valid() && (Unrouted() ==> Complete(src.frames)) && Routable() && !isTerminal
      requires Complete(Stream()) && WithinMessage(Body(Stream()), ops)
      modifies this`isTerminal, storage.Repr, src, if routing == null then {} else routing.storage.Repr
      ensures Valid() && fresh(storage.Repr - old(storage.Repr)) && (Unrouted() ==> Complete(src.frames))
      ensures var fs, g := old(Stream()), Receiving.PerformAll(Body(old(Stream())), ops);
              && o == g.outcome && isTerminal == g.terminal
              && storage.View() == old(storage.View()) + Slots(g.parts)
              && |g.parts| <= |fs| && Stream() == fs[|g.parts|..]
              && g.parts + g.left == Body(fs) && (isTerminal <==> g.left == [])
    {
      ghost var fs, body, view := Stream(), Body(Stream()), storage.View();
      Start(fs);
      assert fs[0..] == fs && ops[..0] == [];
      ghost var g := Got([], body, false, Done);
      assert g == Receiving.PerformAll(body, ops[..0]);
      o := Done;
      hide Slots, Body, Complete, Envelope, EnvelopeParts, SlotsOf, CapacityAfter, MovedAfter, Distinct;
      hide Receiving.Perform, Receiving.PerformAll, WithinMessage, Reads, Header, HeaderToBe;
      NoSlots();
      var i := 0;
      while i < |ops|
        invariant 0 <= i <= |ops| && o == Done && g == Receiving.PerformAll(body, ops[..i]) && g.outcome == Done
        invariant Valid() && fresh(storage.Repr - old(storage.Repr)) && fresh(Own() - old(Own()))
        invariant Unrouted() ==> Complete(src.frames)
        invariant Routable() && isTerminal == g.terminal && storage.View() == view + Slots(g.parts)
        invariant |g.parts| <= |fs| && Stream() == fs[|g.parts|..]
      {
        o, g := PerformNext(ops, i, fs, body, view, g);
        i := i + 1;
        if o != Done {
          PerformStops(body, ops, i);
          NothingLostReceiving(body, ops);
          return;
        }
      }
      assert ops[..i] == ops;
      NothingLostReceiving(body, ops);
    }

    /** The next of them. */
    method PerformNext(ops: seq<Op>, i: nat, ghost fs: seq<Frame>, ghost body: seq<Content>, ghost view: seq<Slot>,
                       ghost g: Got)
      returns (o: Outcome, ghost g': Got)
      requires Valid() && (Unrouted() ==> Complete(src.frames)) && Routable()
      requires Complete(fs) && body == Body(fs) && i < |ops| && WithinMessage(body, ops)
      requires g == Receiving.PerformAll(body, ops[..i]) && g.outcome == Done
      requires isTerminal == g.terminal && storage.View() == view + Slots(g.parts)
      requires |g.parts| <= |fs| && Stream() == fs[|g.parts|..]
      modifies this`isTerminal, storage.Repr, src, if routing == null then {} else routing.storage.Repr
      ensures Valid() && fresh(storage.Repr - old(storage.Repr)) && fresh(Own() - old(Own())) && !Unrouted()
      ensures g' == Receiving.PerformAll(body, ops[..i + 1]) && o == g'.outcome
      ensures isTerminal == g'.terminal && storage.View() == view + Slots(g'.parts)
      ensures |g'.parts| <= |fs| && src.frames == fs[|g'.parts|..]
    {
      hide Body, Complete, Envelope, EnvelopeParts, Slots, SlotsOf, CapacityAfter, MovedAfter, Distinct;
      hide Receiving.Perform, Receiving.PerformAll, WithinMessage, Reads, Header, HeaderToBe;
      ghost var h := Receiving.Perform(Body(Stream()), g.terminal, ops[i]);
      NextOp(fs, ops, i, g);
      SlotsConcat(g.parts, h.parts);
      o := Perform(ops[i]);
      g' := Receiving.PerformAll(body, ops[..i + 1]);
      assert (view + Slots(g.parts)) + Slots(h.parts) == view + Slots(g'.parts);
      assert fs[|g.parts|..][|h.parts|..] == fs[|g'.parts|..];
    }

    /** Appends to `area` the part received last and, each behind the delimiter, all that is
        left of the message; returns how many parts that makes. The terminal flag stays. */
    method FetchTail(area: seq<byte>, delimiter: seq<byte>) returns (area': seq<byte>, num: nat)
      requires Valid() && storage.size > 0
      requires !isTerminal && src.rcvmore ==> Complete(src.frames)
      modifies src
      ensures Valid()
      ensures var left := if isTerminal then [] else old(src.Left());
              && area' == area + old(storage.parts[storage.size - 1].msg) + Tail(left, delimiter)
              && num == 1 + |left|
      ensures isTerminal ==> unchanged(src)
      ensures !isTerminal ==>
                !src.rcvmore && src.frames == if old(src.rcvmore) then Rest(old(src.frames)) else old(src.frames)
    {
      area', num := area + storage.parts[storage.size - 1].msg, 1;
      if !isTerminal {
        area', num := FetchLeft(src, area', delimiter);
      }
    }

    /** Drops what is left of the message, or all of one of which nothing was received yet;
        returns how many parts that makes. The terminal flag stays. */
    method DropTail() returns (num: nat)
      requires Valid()
      requires !isTerminal && (src.rcvmore || (storage.size == 0 && src.frames != [])) ==> Complete(src.frames)
      modifies src
      ensures Valid()
      ensures isTerminal ==> num == 0 && unchanged(src)
      ensures !isTerminal ==>
                var left := if storage.size == 0 then Body(old(src.frames)) else old(src.Left());
                && num == |left|
                && src.frames == if left == [] then old(src.frames) else Rest(old(src.frames))
    {
      num := 0;
      if isTerminal {
        return;
      }
      if storage.size == 0 {
        if src.frames == [] {
          return;
        }
        ReceiveFrame(src.frames);
        var _ := ReceiveAside(src);
        num := 1;
      }
      hide Body, Rest, Complete, Distinct, CapacityAfter, MovedAfter;
      var dropped := DropLeft(src);
      num := num + dropped;
    }

    /** The next part for extraction; it stays where it is. */
    method Extract() returns (p: Part?)
      requires Valid()
      modifies this`curExtractIdx
      ensures Valid() && (p != null <==> old(curExtractIdx) < storage.size && storage.View()[old(curExtractIdx)].Some?)
      ensures p != null ==> p.Slot() == storage.View()[old(curExtractIdx)] && curExtractIdx == old(curExtractIdx) + 1
      ensures p == null ==> curExtractIdx == old(curExtractIdx)
    {
      p := storage.At(curExtractIdx);
      if p != null {
        curExtractIdx := curExtractIdx + 1;
      }
    }
  }

  lemma SlotsConcat(a: seq<Content>, b: seq<Content>)
    ensures Slots(a + b) == Slots(a) + Slots(b)
  {
  }

  /** What the next call does, on the frames behind those received before. */
  lemma NextOp(fs: seq<Frame>, ops: seq<Op>, i: nat, g: Got)
    requires Complete(fs) && i < |ops| && WithinMessage(Body(fs), ops)
    requires g == Receiving.PerformAll(Body(fs), ops[..i]) && g.outcome == Done && |g.parts| <= |fs|
    ensures var here := fs[|g.parts|..];
            && (Reads(ops[i]) || !g.terminal ==> Complete(here))
            && var h := Receiving.Perform(Body(here), g.terminal, ops[i]);
               var g' := Receiving.PerformAll(Body(fs), ops[..i + 1]);
               g'.parts == g.parts + h.parts && g'.terminal == h.terminal && g'.outcome == h.outcome
  {
    var body, j := Body(fs), |g.parts|;
    Start(fs);
    Receiving.PerformNext(body, ops, i);
    NothingLostReceiving(body, ops[..i]);
    hide Receiving.Perform, Receiving.PerformAll, WithinMessage, Reads, Complete;
    assert g.left == body[j..];
    if j < |body| {
      BodySuffix(fs, j);
    } else {
      OverIsOver(g.left, Body(fs[j..]), ops[i]);
    }
  }

  /** The parts run together, each behind the delimiter. */
  function Tail(parts: seq<Content>, delimiter: seq<byte>): seq<byte> {
    if parts == [] then []
    else Tail(parts[..|parts| - 1], delimiter) + delimiter + parts[|parts| - 1]
  }

  /** Receives one frame of a message that goes on into a part of its own. */
  method ReceiveAside(src: InSocket) returns (part: Part)
    requires Complete(src.frames)
    modifies src
    ensures part.msg == Body(old(src.frames))[0] && src.Left() == Body(old(src.frames))[1..]
    ensures |src.frames| < |old(src.frames)| && (src.rcvmore ==> Complete(src.frames))
    ensures (if src.rcvmore then Rest(src.frames) else src.frames) == Rest(old(src.frames))
  {
    ReceiveFrame(src.frames);
    part := new Part();
    var _ := src.Receive(part);
  }

  /** The loop of `fetch_tail`, counting from one. */
  method FetchLeft(src: InSocket, area: seq<byte>, delimiter: seq<byte>) returns (area': seq<byte>, num: nat)
    requires src.rcvmore ==> Complete(src.frames)
    modifies src
    ensures area' == area + Tail(old(src.Left()), delimiter) && num == 1 + |old(src.Left())|
    ensures !src.rcvmore && src.frames == if old(src.rcvmore) then Rest(old(src.frames)) else old(src.frames)
  {
    hide Body, Rest, Complete, Tail;
    area', num := area, 1;
    ghost var left := src.Left();
    ghost var rest := if src.rcvmore then Rest(src.frames) else src.frames;
    TailOfNone(left, delimiter);
    var more := src.HasMore();
    while more
      invariant more == src.rcvmore && (more ==> Complete(src.frames))
      invariant 1 <= num <= 1 + |left| && src.Left() == left[num - 1..]
      invariant area' == area + Tail(left[..num - 1], delimiter)
      invariant (if more then Rest(src.frames) else src.frames) == rest
      decreases |src.frames|
    {
      area' := area' + delimiter;
      ReceiveFrame(src.frames);
      var part := ReceiveAside(src);
      more := src.HasMore();
      area' := area' + part.msg;
      TailNext(left, num - 1, area, delimiter);
      num := num + 1;
    }
    assert left[..num - 1] == left;
  }

  /** The loop of `drop_tail`. */
  method DropLeft(src: InSocket) returns (num: nat)
    requires src.rcvmore ==> Complete(src.frames)
    modifies src
    ensures num == |old(src.Left())| && !src.rcvmore
    ensures src.frames == if old(src.rcvmore) then Rest(old(src.frames)) else old(src.frames)
  {
    hide Body, Rest, Complete;
    num := 0;
    ghost var left := src.Left();
    ghost var rest := if src.rcvmore then Rest(src.frames) else src.frames;
    var more := src.HasMore();
    while more
      invariant more == src.rcvmore && (more ==> Complete(src.frames))
      invariant num <= |left| && src.Left() == left[num..]
      invariant (if more then Rest(src.frames) else src.frames) == rest
      decreases |src.frames|
    {
      ReceiveFrame(src.frames);
      var _ := ReceiveAside(src);
      more := src.HasMore();
      num := num + 1;
    }
  }

  lemma TailOfNone(parts: seq<Content>, delimiter: seq<byte>)
    ensures Tail(parts[..0], delimiter) == []
  {
  }

  /** The delimiter comes before each part, and the parts in order. */
  lemma {:induction false} TailInOrder(c: Content, parts: seq<Content>, delimiter: seq<byte>)
    ensures Tail([c] + parts, delimiter) == delimiter + c + Tail(parts, delimiter) && Tail([], delimiter) == []
  {
    if parts == [] {
      assert [c] + parts == [c] && [c][..0] == [];
    } else {
      assert ([c] + parts)[..|parts|] == [c] + parts[..|parts| - 1];
      TailInOrder(c, parts[..|parts| - 1], delimiter);
    }
  }

  lemma TailNext(parts: seq<Content>, i: nat, start: seq<byte>, delimiter: seq<byte>)
    requires i < |parts|
    ensures start + Tail(parts[..i + 1], delimiter) == start + Tail(parts[..i], delimiter) + delimiter + parts[i]
  {
    assert parts[..i + 1][..i] == parts[..i];
  }

  /** The parts are the contents of the first frames, which form the rest of a message. */
  ghost predicate OnStream(fs: seq<Frame>, left: seq<Content>) {
    && |left| <= |fs|
    && forall k :: 0 <= k < |left| ==> fs[k].content == left[k] && (fs[k].more <==> k < |left| - 1)
  }

  lemma Start(fs: seq<Frame>)
    requires Complete(fs)
    ensures OnStream(fs, Body(fs)) && Body(fs) != [] && fs[0..] == fs
    ensures Slots(Body(fs)[..0]) == []
  {
    BodyFrames(fs);
  }
}
