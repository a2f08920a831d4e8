/** Sending a detached multipart message, and why deferring a message changes nothing. */
module Resending {
  import opened Frames
  import opened Parts
  import opened PartsStorage
  import opened SinkSpec
  import opened Sockets
  import opened Transmissions
  import SinkSafety

  datatype Sending = Sending(events: seq<Event>, outcome: Outcome)

  function PartSent(slots: seq<Slot>, k: nat, nonblock: bool, observed: bool, a: Answer): Sending
    requires k < |slots|
  {
    match slots[k]
    case None => Sending([], NoSuchPartError)
    case Some(c) =>
      Sending((if observed then [OnSendPart(c)] else []) + [Attempt(c, k < |slots| - 1, nonblock, a)], Thrown(a))
  }

  /** The first parts of a multipart message, one answer each, up to the first error. */
  function SendUpTo(slots: seq<Slot>, nonblock: bool, observed: bool, answers: seq<Answer>): Sending
    requires |answers| <= |slots|
  {
    if answers == [] then Sending([], Done)
    else
      var k := |answers| - 1;
      var r := SendUpTo(slots, nonblock, observed, answers[..k]);
      if r.outcome != Done then r
      else
        var e := PartSent(slots, k, nonblock, observed, answers[k]);
        Sending(r.events + e.events, e.outcome)
  }

  /** What is left in the slots: the parts sent are still there, but empty. */
  function Emptied(slots: seq<Slot>, n: nat): seq<Slot>
    requires n <= |slots|
  {
    seq(|slots|, i requires 0 <= i < |slots| => if i < n then Some([]) else slots[i])
  }

  lemma SendSnoc(slots: seq<Slot>, nonblock: bool, observed: bool, answers: seq<Answer>, a: Answer)
    requires |answers| < |slots| && SendUpTo(slots, nonblock, observed, answers).outcome == Done
    ensures var e := PartSent(slots, |answers|, nonblock, observed, a);
            SendUpTo(slots, nonblock, observed, answers + [a]) ==
            Sending(SendUpTo(slots, nonblock, observed, answers).events + e.events, e.outcome)
  {
    assert (answers + [a])[..|answers|] == answers;
  }

  /** The answers are what the socket says from its `n`-th send on. */
  ghost predicate Answered(sock: OutSocket, n: nat, answers: seq<Answer>) {
    forall k :: 0 <= k < |answers| ==> answers[k] == sock.answers(n + k)
  }

  /** What is seen of sending the parts in `slots` one by one, so many as there are answers: with an
      observer each is announced just before its attempt; all attempts have the flags asked
      for, the last part of the message the only one without SNDMORE. */
  ghost predicate SentOneByOne(slots: seq<Slot>, nonblock: bool, observed: bool, answers: seq<Answer>,
                               events: seq<Event>)
  {
    && |answers| <= |slots| && |events| == (if observed then 2 * |answers| else |answers|)
    && forall k :: 0 <= k < |answers| ==> SentAt(slots, nonblock, observed, answers[k], events, k)
  }

  predicate SentAt(slots: seq<Slot>, nonblock: bool, observed: bool, a: Answer, events: seq<Event>, k: nat)
    requires k < |slots| && (if observed then 2 * k + 1 else k) < |events|
  {
    && slots[k].Some?
    && events[if observed then 2 * k + 1 else k] == Attempt(slots[k].value, k < |slots| - 1, nonblock, a)
    && (observed ==> events[2 * k] == OnSendPart(slots[k].value))
  }

  /** What is seen of the part at `k`. */
  function SeenPart(slots: seq<Slot>, k: nat, nonblock: bool, observed: bool, a: Answer): seq<Event>
    requires k < |slots| && slots[k].Some?
  {
    var attempt := Attempt(slots[k].value, k < |slots| - 1, nonblock, a);
    if observed then [OnSendPart(slots[k].value), attempt] else [attempt]
  }

  lemma OneMoreSent(slots: seq<Slot>, nonblock: bool, observed: bool, answers: seq<Answer>,
                    events: seq<Event>, a: Answer)
    requires SentOneByOne(slots, nonblock, observed, answers, events) && |answers| < |slots|
    requires slots[|answers|].Some?
    ensures SentOneByOne(slots, nonblock, observed, answers + [a],
                         events + SeenPart(slots, |answers|, nonblock, observed, a))
  {
    var n, all := |answers|, events + SeenPart(slots, |answers|, nonblock, observed, a);
    forall k | 0 <= k < n + 1 ensures SentAt(slots, nonblock, observed, (answers + [a])[k], all, k) {
      assert k < n ==> SentAt(slots, nonblock, observed, answers[k], events, k);
    }
  }

  /** The answers of the parts offered: all, unless the next one is not owned. */
  function Offered(slots: seq<Slot>, answers: seq<Answer>): seq<Answer>
    requires |answers| <= |slots|
  {
    if answers != [] && slots[|answers| - 1].None? then answers[..|answers| - 1] else answers
  }

  lemma NothingSent(slots: seq<Slot>, nonblock: bool, observed: bool)
    ensures SentOneByOne(slots, nonblock, observed, [], []) && Offered(slots, []) == []
    ensures SendUpTo(slots, nonblock, observed, []) == Sending([], Done)
  {
  }

  /** One more answer, and how it ends. */
  lemma SeenNext(slots: seq<Slot>, nonblock: bool, observed: bool, answers: seq<Answer>, a: Answer)
    requires |answers| < |slots| && SendUpTo(slots, nonblock, observed, answers).outcome == Done
    requires SentOneByOne(slots, nonblock, observed, answers, SendUpTo(slots, nonblock, observed, answers).events)
    ensures var r, n := SendUpTo(slots, nonblock, observed, answers + [a]), |answers|;
            && SentOneByOne(slots, nonblock, observed, Offered(slots, answers + [a]), r.events)
            && r.outcome == if slots[n].None? then NoSuchPartError
                            else match a
                                 case Accepted => Done
                                 case WouldBlock => BlockedError
                                 case Failed => SocketError
  {
    hide SendUpTo, SentOneByOne;
    var n, r := |answers|, SendUpTo(slots, nonblock, observed, answers);
    SendSnoc(slots, nonblock, observed, answers, a);
    assert (answers + [a])[..n] == answers;
    if slots[n].Some? {
      OneMoreSent(slots, nonblock, observed, answers, r.events, a);
      assert PartSent(slots, n, nonblock, observed, a).events == SeenPart(slots, n, nonblock, observed, a);
    } else {
      assert r.events + [] == r.events;
    }
  }

  /** All but the last were accepted; the last decides how it ends. */
  lemma {:induction false} SeenOneByOne(slots: seq<Slot>, nonblock: bool, observed: bool, answers: seq<Answer>)
    requires |answers| <= |slots| && AllTaken(answers[..if answers == [] then 0 else |answers| - 1])
    requires forall k :: 0 <= k < |answers| - 1 ==> slots[k].Some?
    ensures var r := SendUpTo(slots, nonblock, observed, answers);
            && SentOneByOne(slots, nonblock, observed, Offered(slots, answers), r.events)
            && r.outcome == if answers == [] then Done
                            else if slots[|answers| - 1].None? then NoSuchPartError
                            else match answers[|answers| - 1]
                                 case Accepted => Done
                                 case WouldBlock => BlockedError
                                 case Failed => SocketError
  {
    hide SendUpTo, SentOneByOne, PartSent;
    if answers == [] {
      NothingSent(slots, nonblock, observed);
    } else {
      var t := answers[..|answers| - 1];
      assert answers == t + [answers[|t|]];
      assert forall k :: 0 <= k < |t| ==> t[k] == Accepted;
      assert t != [] ==> t[|t| - 1] == Accepted && slots[|t| - 1].Some?;
      SeenOneByOne(slots, nonblock, observed, t);
      assert Offered(slots, t) == t;
      SeenNext(slots, nonblock, observed, t, answers[|t|]);
    }
  }

  /** Without an error all parts were owned; with one, all but the last. */
  lemma {:induction false} OwnedUpTo(slots: seq<Slot>, nonblock: bool, observed: bool, answers: seq<Answer>)
    requires |answers| <= |slots| && SendUpTo(slots, nonblock, observed, answers).outcome == Done
    ensures forall k :: 0 <= k < |answers| ==> slots[k].Some?
  {
    if answers != [] {
      OwnedUpTo(slots, nonblock, observed, answers[..|answers| - 1]);
    }
  }

  /** So it is for the answers that sending gets: nothing is offered after the first error. */
  lemma SeenOfSending(slots: seq<Slot>, nonblock: bool, observed: bool, answers: seq<Answer>)
    requires |answers| <= |slots|
    requires answers != [] ==> SendUpTo(slots, nonblock, observed, answers[..|answers| - 1]).outcome == Done
    ensures var r := SendUpTo(slots, nonblock, observed, answers);
            && SentOneByOne(slots, nonblock, observed, Offered(slots, answers), r.events)
            && AsFlagged(nonblock, r.events)
            && r.outcome == if answers == [] then Done
                            else if slots[|answers| - 1].None? then NoSuchPartError
                            else match answers[|answers| - 1]
                                 case Accepted => Done
                                 case WouldBlock => BlockedError
                                 case Failed => SocketError
  {
    hide SendUpTo, SentAt, SentOneByOne, PartSent;
    if answers != [] {
      var t := answers[..|answers| - 1];
      DoneMeansTaken(slots, nonblock, observed, t);
      OwnedUpTo(slots, nonblock, observed, t);
    }
    SeenOneByOne(slots, nonblock, observed, answers);
    FlagKept(slots, nonblock, observed, Offered(slots, answers), SendUpTo(slots, nonblock, observed, answers).events);
  }

  lemma DoneBefore(slots: seq<Slot>, nonblock: bool, observed: bool, answers: seq<Answer>)
    requires |answers| <= |slots| && SendUpTo(slots, nonblock, observed, answers).outcome == Done
    ensures answers != [] ==> SendUpTo(slots, nonblock, observed, answers[..|answers| - 1]).outcome == Done
  {
    hide PartSent;
  }

  /** Every attempt has the flag. */
  ghost predicate AsFlagged(noblock: bool, events: seq<Event>) {
    forall i :: 0 <= i < |events| && events[i].Attempt? ==> events[i].noblock == noblock
  }

  lemma FlagKept(slots: seq<Slot>, nonblock: bool, observed: bool, answers: seq<Answer>, events: seq<Event>)
    requires SentOneByOne(slots, nonblock, observed, answers, events)
    ensures AsFlagged(nonblock, events)
  {
    forall i | 0 <= i < |events| && events[i].Attempt? ensures events[i].noblock == nonblock {
      var k := if observed then i / 2 else i;
      assert SentAt(slots, nonblock, observed, answers[k], events, k);
    }
  }

  /** Sends one part of `m`, which stays there but is emptied if the socket takes it. */
  method SendPart(sock: OutSocket, m: DynamicPartsStorage, i: nat, nonblock: bool, observed: bool)
    returns (o: Outcome, ghost a: Answer)
    requires m.Valid() && i < m.size && sock !in m.Repr
    modifies sock, m.Repr
    ensures m.Valid() && unchanged(m) && a == old(sock.Next())
    ensures o == Done ==> Attempts(sock.timeline) == old(Attempts(sock.timeline)) + 1
    ensures var e := PartSent(old(m.View()), i, nonblock, observed, a);
            sock.timeline == old(sock.timeline) + e.events && o == e.outcome
    ensures m.View() == if o == Done then old(m.View())[i := Some([])] else old(m.View())
  {
    hide CapacityAfter, MovedAfter, Attempts;
    a := sock.Next();
    var p := m.At(i);
    if p == null {
      return NoSuchPartError, a;
    }
    if observed {
      AttemptsSnoc(sock.timeline, OnSendPart(p.msg));
      sock.Notice(OnSendPart(p.msg));
    }
    AttemptsSnoc(sock.timeline, Attempt(p.msg, i < m.size - 1, nonblock, a));
    var answer := sock.Send(p, i < m.size - 1, nonblock);
    o := Thrown(answer);
  }

  /** Sends all parts of `m` as one message. */
  method Send(sock: OutSocket, m: DynamicPartsStorage, nonblock: bool, observed: bool)
    returns (o: Outcome, ghost answers: seq<Answer>)
    requires m.Valid() && sock !in m.Repr
    modifies sock, m.Repr
    ensures m.Valid() && unchanged(m) && |answers| <= m.size && (o == Done ==> |answers| == m.size)
    ensures var r := SendUpTo(old(m.View()), nonblock, observed, answers);
            && o == r.outcome
            && sock.timeline == old(sock.timeline) + r.events + (if o == Done && observed then [OnFlush] else [])
    ensures answers != [] || o == Done
    ensures Answered(sock, old(Attempts(sock.timeline)), answers)
    ensures var events := SendUpTo(old(m.View()), nonblock, observed, answers).events;
            && SentOneByOne(old(m.View()), nonblock, observed, Offered(old(m.View()), answers), events)
            && AsFlagged(nonblock, events)
    ensures o == Done ==> Attempts(sock.timeline) == old(Attempts(sock.timeline)) + m.size
    ensures m.View() == Emptied(old(m.View()), if o == Done then m.size else |answers| - 1)
  {
    hide CapacityAfter, MovedAfter, PartSent, SendUpTo, Emptied, SlotsOf, Distinct, Attempts;
    hide SentOneByOne, AsFlagged, Offered;
    answers, o := [], Done;
    ghost var slots, log, a := m.View(), sock.timeline, Accepted;
    SendNothing(slots, nonblock, observed);
    var i := 0;
    while i < m.size
      invariant 0 <= i <= m.size && |answers| == i && o == Done
      invariant m.Valid() && unchanged(m)
      invariant Attempts(sock.timeline) == old(Attempts(sock.timeline)) + i
      invariant Answered(sock, old(Attempts(sock.timeline)), answers)
      invariant SendUpTo(slots, nonblock, observed, answers).outcome == Done
      invariant sock.timeline == log + SendUpTo(slots, nonblock, observed, answers).events
      invariant m.View() == Emptied(slots, i)
    {
      EmptiedNext(slots, i);
      o, a := SendPart(sock, m, i, nonblock, observed);
      SendSnoc(slots, nonblock, observed, answers, a);
      assert (answers + [a])[..i] == answers;
      answers := answers + [a];
      if o != Done {
        SeenOfSending(slots, nonblock, observed, answers);
        return;
      }
      i := i + 1;
    }
    DoneBefore(slots, nonblock, observed, answers);
    SeenOfSending(slots, nonblock, observed, answers);
    if observed {
      AttemptsSnoc(sock.timeline, OnFlush);
      sock.Notice(OnFlush);
    }
  }

  lemma SendNothing(slots: seq<Slot>, nonblock: bool, observed: bool)
    ensures SendUpTo(slots, nonblock, observed, []) == Sending([], Done) && Emptied(slots, 0) == slots
  {
  }

  lemma EmptiedNext(slots: seq<Slot>, i: nat)
    requires i < |slots|
    ensures Emptied(slots, i)[i := Some([])] == Emptied(slots, i + 1)
    ensures forall nonblock, observed, a ::
              PartSent(Emptied(slots, i), i, nonblock, observed, a) == PartSent(slots, i, nonblock, observed, a)
  {
  }

  /** Without an error every part was accepted. */
  lemma {:induction false} DoneMeansTaken(slots: seq<Slot>, nonblock: bool, observed: bool, answers: seq<Answer>)
    requires |answers| <= |slots| && SendUpTo(slots, nonblock, observed, answers).outcome == Done
    ensures AllTaken(answers)
  {
    if answers != [] {
      DoneMeansTaken(slots, nonblock, observed, answers[..|answers| - 1]);
    }
  }

  ghost predicate AllTaken(answers: seq<Answer>) {
    forall i :: 0 <= i < |answers| ==> answers[i] == Accepted
  }

  /** Parts that are all owned and all accepted go out in order, all flagged but the last of
      the message; with an observer each is announced. */
  lemma {:induction false} AcceptedUpTo(parts: seq<Content>, nonblock: bool, observed: bool, answers: seq<Answer>)
    requires |answers| <= |parts| && AllTaken(answers)
    ensures var r := SendUpTo(Slots(parts), nonblock, observed, answers);
            && r.outcome == Done
            && Wire(r.events) == Framed(parts[..|answers|], |answers| == |parts|)
            && Announced(r.events) == if observed then parts[..|answers|] else []
  {
    hide Wire, Announced, Flushes, Framed, PartSent;
    NothingSeen();
    if answers == [] {
      FramedNone();
    } else {
      var k := |answers| - 1;
      var sofar := SendUpTo(Slots(parts), nonblock, observed, answers[..k]);
      AcceptedUpTo(parts, nonblock, observed, answers[..k]);
      NextSent(sofar.events, parts, k, nonblock, observed);
    }
  }

  lemma FramedNone()
    ensures forall last :: Framed([], last) == []
  {
  }

  lemma NextSent(events: seq<Event>, parts: seq<Content>, k: nat, nonblock: bool, observed: bool)
    requires k < |parts| && Wire(events) == Framed(parts[..k], false)
    requires Announced(events) == if observed then parts[..k] else []
    ensures var e := PartSent(Slots(parts), k, nonblock, observed, Accepted);
            && e.outcome == Done
            && Wire(events + e.events) == Framed(parts[..k + 1], k + 1 == |parts|)
            && Announced(events + e.events) == if observed then parts[..k + 1] else []
  {
    hide Wire, Announced, Flushes, Framed;
    var c := parts[k];
    var attempt := Attempt(c, k < |parts| - 1, nonblock, Accepted);
    var told := if observed then events + [OnSendPart(c)] else events;
    WireSnoc(events, OnSendPart(c));
    WireSnoc(told, attempt);
    FramedSnoc(parts[..k], c, k + 1 == |parts|);
    assert parts[..k + 1] == parts[..k] + [c];
    assert events + PartSent(Slots(parts), k, nonblock, observed, Accepted).events == told + [attempt];
  }

  /** Sends a detached message whose parts are all owned: it is on the wire if and only if the
      socket accepts every part. */
  method DeliverQueue(dst: OutSocket, q: DynamicPartsStorage, nonblock: bool, ghost parts: seq<Content>)
    returns (o: Outcome)
    requires q.Valid() && dst !in q.Repr && q.View() == Slots(parts)
    modifies dst, q.Repr
    ensures q.Valid() && unchanged(q)
    ensures o == Done <==> dst.Accepts(old(Attempts(dst.timeline)), |parts|)
    ensures o == Done ==> Wire(dst.timeline) == Wire(old(dst.timeline)) + Message(parts)
    ensures o == Done ==> Attempts(dst.timeline) == old(Attempts(dst.timeline)) + |parts|
    ensures old(dst.timeline) <= dst.timeline && AsFlagged(nonblock, dst.timeline[|old(dst.timeline)|..])
  {
    hide Wire, Announced, Attempts, SlotsOf, Distinct, CapacityAfter, MovedAfter, SendUpTo, Emptied, PartSent;
    ghost var log, answers := dst.timeline, [];
    assert q.size == |parts|;
    o, answers := Send(dst, q, nonblock, false);
    Delivered(dst, log, parts, nonblock, answers);
    assert dst.timeline == log + SendUpTo(Slots(parts), nonblock, false, answers).events;
  }

  lemma Delivered(dst: OutSocket, log: seq<Event>, parts: seq<Content>, nonblock: bool, answers: seq<Answer>)
    requires |answers| <= |parts| && Answered(dst, Attempts(log), answers)
    ensures var r := SendUpTo(Slots(parts), nonblock, false, answers);
            && (dst.Accepts(Attempts(log), |parts|) ==> r.outcome == Done)
            && (r.outcome == Done && |answers| == |parts| ==>
                dst.Accepts(Attempts(log), |parts|) && Wire(log + r.events) == Wire(log) + Message(parts))
  {
    hide Wire, Announced, Flushes, Attempts, SendUpTo, PartSent;
    var n, r := Attempts(log), SendUpTo(Slots(parts), nonblock, false, answers);
    if dst.Accepts(n, |parts|) {
      AcceptedUpTo(parts, nonblock, false, answers);
    }
    if r.outcome == Done && |answers| == |parts| {
      DoneMeansTaken(Slots(parts), nonblock, false, answers);
      AcceptedUpTo(parts, nonblock, false, answers);
      assert parts[..|answers|] == parts;
      WireConcat(log, r.events);
      assert forall k :: n <= k < n + |parts| ==> answers[k - n] == dst.answers(k);
    }
  }

  /** Deferred sending equals direct sending: a message whose first send blocked is queued
      whole with nothing sent, and sending the detached queue later puts on the wire exactly
      the frames, flags included, of a run that never blocked. */
  lemma DeferredEqualsDirect(deferred: Plan, direct: Plan, nonblock: bool, observed: bool, answers: seq<Answer>)
    requires deferred.Valid() && deferred.FirstSendBlocks() && deferred.options.cacheOnBlock
    requires direct.Valid() && !direct.FirstSendBlocks() && direct.Whole().ok
    requires deferred.Parts() == direct.Parts()
    requires |answers| == |direct.Parts()| && AllTaken(answers)
    ensures var held := deferred.Whole();
            && held.ok && held.post.queue.Some? && |held.post.queue.value| == |answers| && Wire(held.events) == []
            && var later := SendUpTo(held.post.queue.value, nonblock, observed, answers);
               later.outcome == Done && Wire(later.events) == Wire(direct.Whole().events) == Message(direct.Parts())
  {
    hide Wire, Announced, Flushes, Framed, Run, Step, Plan.DirectEvents;
    AllOrNothing(deferred);
    AllOrNothing(direct);
    DirectSeen(direct);
    AcceptedUpTo(direct.Parts(), nonblock, observed, answers);
    assert direct.Parts()[..|answers|] == direct.Parts();
  }

  /** Not so for an observer: it hears of the routing parts too when the message is sent
      later, so it is told the same exactly when there are none. */
  lemma DeferredAnnouncesRouting(p: Plan, nonblock: bool, answers: seq<Answer>)
    requires p.Valid() && p.observed && p.AllAccepted(|p.answers|)
    requires |answers| == |p.Parts()| && AllTaken(answers)
    ensures var later := SendUpTo(Slots(p.Parts()), nonblock, true, answers);
            && Announced(later.events) == p.routing + p.user
            && Announced(p.Whole().events) == p.user
            && (Announced(later.events) == Announced(p.Whole().events) <==> p.routing == [])
  {
    hide Wire, Announced, Flushes, Framed, Run, Step, Plan.DirectEvents;
    Direct(p);
    DirectSeen(p);
    AcceptedUpTo(p.Parts(), nonblock, true, answers);
    assert p.Parts()[..|answers|] == p.Parts();
    assert |p.routing + p.user| == |p.routing| + |p.user|;
  }

  /** Sending again after an error part-way is not a retry: the parts that went out are still
      in the message, now empty, and go out again. The frames are those of the original
      message if and only if every part sent before was empty. */
  lemma SendingAgain(parts: seq<Content>, sent: nat, nonblock: bool, answers: seq<Answer>)
    requires 0 < sent < |parts| && |answers| == |parts| && AllTaken(answers)
    ensures var again := SendUpTo(Emptied(Slots(parts), sent), nonblock, false, answers);
            && Wire(again.events) == Message(seq(sent, _ => []) + parts[sent..])
            && (Wire(again.events) == Message(parts) <==> forall i :: 0 <= i < sent ==> parts[i] == [])
  {
    hide Wire, Announced, Flushes, SendUpTo;
    var left := seq(sent, _ => []) + parts[sent..];
    assert Emptied(Slots(parts), sent) == Slots(left);
    AcceptedUpTo(left, nonblock, false, answers);
    assert left[..|answers|] == left;
    if forall i :: 0 <= i < sent ==> parts[i] == [] {
      assert left == parts;
    }
    if Message(left) == Message(parts) {
      forall i | 0 <= i < sent ensures parts[i] == [] {
        assert Message(left)[i].content == Message(parts)[i].content;
      }
    }
  }
}
