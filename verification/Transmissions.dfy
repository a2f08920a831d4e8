/** Complete transmissions: the routing parts, the user's parts, one flush. */
module Transmissions {
  import opened Frames
  import opened SinkSpec
  import SinkSafety

  /** One message to send: what precedes the user's parts, the parts, and what the socket
      would answer during each call. */
  datatype Plan = Plan(options: Options, observed: bool,
                       routing: seq<Content>, user: seq<Content>, answers: seq<Answer>) {
    function Parts(): seq<Content> {
      routing + user
    }

    ghost predicate Valid() {
      Parts() != [] && |answers| == |Parts()| + 1
    }

    /** The first send happens at the second call: only then is the SNDMORE flag known. */
    predicate FirstSendBlocks()
      requires Valid()
    {
      options.emulateBlockSends || answers[1] == WouldBlock
    }

    ghost predicate AllAccepted(upTo: nat)
      requires Valid() && upTo <= |answers|
    {
      (upTo > 1 ==> !options.emulateBlockSends) && forall i :: 1 <= i < upTo ==> answers[i] == Accepted
    }

    function CallAt(i: nat): Call
      requires Valid() && i < |answers|
    {
      if i < |routing| then Route(Some(Parts()[i]), answers[i])
      else if i < |Parts()| then Insert(Some(Parts()[i]), answers[i])
      else Flushing(answers[i])
    }

    function Calls(k: nat): seq<Call>
      requires Valid() && k <= |answers|
    {
      seq(k, i requires 0 <= i < k => CallAt(i))
    }

    function After(k: nat): RunResult
      requires Valid() && k <= |answers|
    {
      Run(Init(options, observed), Calls(k))
    }

    function Whole(): RunResult
      requires Valid()
    {
      After(|answers|)
    }

    /** What is seen of part `i` when it is sent directly: user parts are announced just
        before their send, routing parts never. */
    function PartEvents(i: nat, last: bool): seq<Event>
      requires i < |Parts()|
    {
      (if observed && i >= |routing| then [OnSendPart(Parts()[i])] else []) +
      [Attempt(Parts()[i], !last, options.nonblock, Accepted)]
    }

    /** The first `m` parts sent directly, more to follow. */
    function Progress(m: nat): seq<Event>
      requires m <= |Parts()|
    {
      if m == 0 then [] else Progress(m - 1) + PartEvents(m - 1, false)
    }

    /** Everything seen of a message sent directly. */
    function DirectEvents(): seq<Event>
      requires Valid()
    {
      Progress(|Parts()| - 1) + PartEvents(|Parts()| - 1, true) + (if observed then [OnFlush] else [])
    }

    function PendingAt(k: nat): nat
      requires k > 0
    {
      if k <= |routing| then 1 else 0
    }

    /** The sink after `k` insertions of which all but the last part went out. */
    function SendingAt(k: nat): Sink
      requires 0 < k <= |Parts()|
    {
      Sink(options, observed, if k == 1 then NOTSENT else SENDING,
           Some(Parts()[k - 1]), None, PendingAt(k))
    }
  }

  lemma CallsSnoc(p: Plan, k: nat)
    requires p.Valid() && k < |p.answers|
    ensures p.After(k + 1) == WithCall(p.After(k), p.CallAt(k))
  {
    assert p.Calls(k + 1) == p.Calls(k) + [p.CallAt(k)];
    RunSnoc(Init(p.options, p.observed), p.Calls(k), p.CallAt(k));
  }

  /** Sending the part before the `k`-th while inserting the `k`-th. */
  lemma DirectStep(p: Plan, k: nat)
    requires p.Valid() && 0 < k < |p.Parts()|
    requires !p.options.emulateBlockSends && p.answers[k] == Accepted
    ensures Step(p.SendingAt(k), p.CallAt(k)) ==
            Effect(p.SendingAt(k + 1), p.PartEvents(k - 1, false), Done, None, [])
  {
  }

  lemma DirectFlush(p: Plan)
    requires p.Valid() && !p.options.emulateBlockSends && p.answers[|p.Parts()|] == Accepted
    ensures var n := |p.Parts()|;
            var e := Step(p.SendingAt(n), p.CallAt(n));
            && e.events == p.PartEvents(n - 1, true) + (if p.observed then [OnFlush] else [])
            && e.outcome == Done && e.post.state == FLUSHED && e.post.queue.None?
  {
    assert p.PartEvents(|p.Parts()| - 1, true) + [] == p.PartEvents(|p.Parts()| - 1, true);
  }

  lemma {:induction false} DirectPrefix(p: Plan, k: nat)
    requires p.Valid() && 0 < k <= |p.Parts()| && p.AllAccepted(k)
    ensures p.After(k).ok && p.After(k).post == p.SendingAt(k) && p.After(k).events == p.Progress(k - 1)
  {
    CallsSnoc(p, k - 1);
    if k > 1 {
      DirectPrefix(p, k - 1);
      DirectStep(p, k - 1);
    } else {
      assert p.Calls(0) == [];
    }
  }

  /** Queueing and dropping once the first send would block. */
  ghost predicate Diverted(p: Plan, k: nat, s: Sink)
    requires p.Valid() && k <= |p.Parts()|
  {
    && s.options == p.options && s.observed == p.observed
    && if p.options.cacheOnBlock then
         s.state == QUEUEING && s.cached.None? && s.queue == Some(Slots(p.Parts()[..k]))
       else
         s.state == DROPPING && s.queue.None?
  }

  /** The call during which the first send blocks. */
  lemma FirstBlock(p: Plan)
    requires p.Valid() && p.FirstSendBlocks() && |p.Parts()| > 1
    ensures var e := Step(p.SendingAt(1), p.CallAt(1));
            && Wire(e.events) == []
            && (e.outcome == Done <==> p.options.cacheOnBlock || p.options.dropOnBlock)
            && (e.outcome == Done ==> Diverted(p, 2, e.post))
  {
    hide Wire, Flushes, Slots;
    var s := p.SendingAt(1);
    var s' := if p.CallAt(1).Route? then s.(pendingRouting := s.pendingRouting + 1) else s;
    var first, second := p.Parts()[0], p.Parts()[1];
    SinkSafety.InsertionWire(s', Some(second), p.answers[1]);
    TwoSlots(p.Parts());
    FirstInsertionBlocked(s', second, p.answers[1]);
  }

  lemma TwoSlots(parts: seq<Content>)
    requires |parts| > 1
    ensures Slots(parts[..2]) == [Some(parts[0]), Some(parts[1])]
  {
  }

  lemma FirstInsertionBlocked(s: Sink, c: Content, a: Answer)
    requires s.state == NOTSENT && s.cached.Some? && s.queue.None?
    requires s.options.emulateBlockSends || a == WouldBlock
    ensures var e := SendOwned(s, Some(c), a);
            && (e.outcome == Done <==> s.options.cacheOnBlock || s.options.dropOnBlock)
            && (s.options.cacheOnBlock ==>
                e.post == s.(state := QUEUEING, cached := None, queue := Some([s.cached, Some(c)])))
            && (!s.options.cacheOnBlock && s.options.dropOnBlock ==> e.post == s.(state := DROPPING))
  {
    assert [s.cached] + [Some(c)] == [s.cached, Some(c)];
  }

  lemma DivertedStep(p: Plan, k: nat, s: Sink)
    requires p.Valid() && k < |p.Parts()| && Diverted(p, k, s)
    ensures var e := Step(s, p.CallAt(k));
            e.events == [] && e.outcome == Done && Diverted(p, k + 1, e.post)
  {
    SlotsNext(p.Parts(), k);
  }

  lemma {:induction false} DivertedPrefix(p: Plan, k: nat)
    requires p.Valid() && p.FirstSendBlocks() && 1 < k <= |p.Parts()|
    requires p.options.cacheOnBlock || p.options.dropOnBlock
    ensures p.After(k).ok && Wire(p.After(k).events) == [] && Diverted(p, k, p.After(k).post)
  {
    CallsSnoc(p, k - 1);
    if k == 2 {
      DirectPrefix(p, 1);
      FirstBlock(p);
      var e := Step(p.SendingAt(1), p.CallAt(1));
      assert p.Progress(0) + e.events == e.events;
    } else {
      DivertedPrefix(p, k - 1);
      DivertedStep(p, k - 1, p.After(k - 1).post);
      assert p.After(k - 1).events + [] == p.After(k - 1).events;
    }
  }

  /** Once something was thrown the run is not a clean one. */
  lemma {:induction false} ThrownStays(p: Plan, k: nat, m: nat)
    requires p.Valid() && k <= m <= |p.answers| && !p.After(k).ok
    ensures !p.After(m).ok
  {
    hide Run, Step;
    if k < m {
      ThrownStays(p, k, m - 1);
      CallsSnoc(p, m - 1);
    }
  }

  lemma Direct(p: Plan)
    requires p.Valid() && p.AllAccepted(|p.answers|)
    ensures var r := p.Whole();
            r.ok && r.events == p.DirectEvents() && r.post.state == FLUSHED && r.post.queue.None?
  {
    hide Run, Step, Wire, Plan.Progress, Plan.PartEvents;
    var n := |p.Parts()|;
    DirectPrefix(p, n);
    CallsSnoc(p, n);
    DirectFlush(p);
    var notice := if p.observed then [OnFlush] else [];
    assert p.Progress(n - 1) + (p.PartEvents(n - 1, true) + notice) == p.DirectEvents();
  }

  /** A first send that blocks inside the flush of a one-part message. */
  lemma BlockInFlush(p: Plan)
    requires p.Valid() && p.FirstSendBlocks() && |p.Parts()| == 1
    ensures var e := Step(p.SendingAt(1), p.CallAt(1));
            && Wire(e.events) == []
            && (e.outcome == Done <==> p.options.cacheOnBlock || p.options.dropOnBlock)
            && (e.outcome == Done ==>
                e.post.state == FLUSHED && e.post.cached.None? &&
                e.post.queue == if p.options.cacheOnBlock then Some(Slots(p.Parts())) else None)
  {
    SinkSafety.FlushWire(p.SendingAt(1), p.answers[1]);
    assert p.CallAt(1) == Flushing(p.answers[1]);
    assert Slots(p.Parts()) == [Some(p.Parts()[0])];
  }

  /** The outcome of a clean transmission whose first send blocks. */
  ghost predicate HeldBack(p: Plan, r: RunResult)
    requires p.Valid()
  {
    && r.ok && Wire(r.events) == []
    && if p.options.cacheOnBlock then
         r.post.state == FLUSHED && r.post.cached.None? && r.post.queue == Some(Slots(p.Parts()))
       else
         r.post.queue.None? && r.post.state == if |p.Parts()| == 1 then FLUSHED else DROPPING
  }

  lemma BlockedOnePart(p: Plan)
    requires p.Valid() && p.FirstSendBlocks() && |p.Parts()| == 1
    ensures if p.options.cacheOnBlock || p.options.dropOnBlock then HeldBack(p, p.Whole()) else !p.Whole().ok
  {
    DirectPrefix(p, 1);
    CallsSnoc(p, 1);
    BlockInFlush(p);
    var e := Step(p.SendingAt(1), p.CallAt(1));
    assert p.Progress(0) + e.events == e.events;
  }

  lemma BlockedAndHeld(p: Plan)
    requires p.Valid() && p.FirstSendBlocks() && |p.Parts()| > 1
    requires p.options.cacheOnBlock || p.options.dropOnBlock
    ensures HeldBack(p, p.Whole())
  {
    hide Run, Step, Wire;
    DivertedPrefix(p, |p.Parts()|);
    CallsSnoc(p, |p.Parts()|);
    DivertedFlush(p);
  }

  lemma BlockedAndThrown(p: Plan)
    requires p.Valid() && p.FirstSendBlocks() && |p.Parts()| > 1
    requires !p.options.cacheOnBlock && !p.options.dropOnBlock
    ensures !p.Whole().ok
  {
    hide Run, Wire;
    DirectPrefix(p, 1);
    CallsSnoc(p, 1);
    FirstBlock(p);
    ThrownStays(p, 2, |p.answers|);
  }

  lemma DivertedFlush(p: Plan)
    requires p.Valid() && Diverted(p, |p.Parts()|, p.After(|p.Parts()|).post)
    requires Wire(p.After(|p.Parts()|).events) == []
    ensures var r, q := p.After(|p.Parts()|), WithCall(p.After(|p.Parts()|), p.CallAt(|p.Parts()|));
            && q.ok == r.ok && Wire(q.events) == []
            && (p.options.cacheOnBlock ==>
                q.post.state == FLUSHED && q.post.cached.None? && q.post.queue == Some(Slots(p.Parts())))
            && (!p.options.cacheOnBlock ==> q.post.queue.None? && q.post.state == DROPPING)
  {
    var n := |p.Parts()|;
    assert p.Parts()[..n] == p.Parts();
    var r := p.After(n);
    SinkSafety.FlushWire(r.post, p.answers[n]);
    WireConcat(r.events, Flush(r.post, p.answers[n]).events);
  }

  lemma Refused(p: Plan, i: nat)
    requires p.Valid() && 0 < i < |p.answers| && p.AllAccepted(i) && p.answers[i] != Accepted
    requires !p.FirstSendBlocks()
    ensures !p.Whole().ok
  {
    DirectPrefix(p, i);
    CallsSnoc(p, i);
    assert Step(p.SendingAt(i), p.CallAt(i)).outcome != Done;
    ThrownStays(p, i + 1, |p.answers|);
  }

  /** All or nothing. A transmission is clean exactly when its first send blocks and the
      options say what to do then, or every send is accepted. In the latter case everything
      seen is known: the parts in order with the flag on all but the last, each user part
      announced just before its send, no routing part announced, one flush notice. In the
      former nothing reaches the socket and the queue holds exactly the parts in order, or
      (dropping) there is no queue. */
  lemma AllOrNothing(p: Plan)
    requires p.Valid()
    ensures var r := p.Whole();
            && (r.ok <==> if p.FirstSendBlocks() then p.options.cacheOnBlock || p.options.dropOnBlock
                          else p.AllAccepted(|p.answers|))
            && (r.ok && p.FirstSendBlocks() ==> HeldBack(p, r))
            && (r.ok && !p.FirstSendBlocks() ==>
                r.events == p.DirectEvents() && r.post.state == FLUSHED && r.post.queue.None?)
  {
    if p.FirstSendBlocks() {
      if |p.Parts()| == 1 {
        BlockedOnePart(p);
      } else if p.options.cacheOnBlock || p.options.dropOnBlock {
        BlockedAndHeld(p);
      } else {
        BlockedAndThrown(p);
      }
    } else if p.AllAccepted(|p.answers|) {
      Direct(p);
    } else {
      var i := FirstRefusal(p, 1);
      Refused(p, i);
    }
  }

  lemma FirstRefusal(p: Plan, from: nat) returns (i: nat)
    requires p.Valid() && !p.options.emulateBlockSends && !p.AllAccepted(|p.answers|)
    requires 0 < from <= |p.answers| && p.AllAccepted(from)
    ensures 0 < i < |p.answers| && p.AllAccepted(i) && p.answers[i] != Accepted
    decreases |p.answers| - from
  {
    if p.answers[from] != Accepted {
      i := from;
    } else {
      i := FirstRefusal(p, from + 1);
    }
  }

  // --- what the socket and the observer make of a direct transmission -----------------

  lemma PartEventsSeen(p: Plan, i: nat, last: bool)
    requires i < |p.Parts()|
    ensures Wire(p.PartEvents(i, last)) == [Frame(p.Parts()[i], !last)]
    ensures Announced(p.PartEvents(i, last)) == if p.observed && i >= |p.routing| then [p.Parts()[i]] else []
  {
    var c := p.Parts()[i];
    var notice: seq<Event> := if p.observed && i >= |p.routing| then [OnSendPart(c)] else [];
    WireSnoc([], OnSendPart(c));
    assert [] + [OnSendPart(c)] == [OnSendPart(c)];
    assert Wire(notice) == [];
    hide Wire, Announced, Flushes;
    WireSnoc(notice, Attempt(c, !last, p.options.nonblock, Accepted));
  }

  /** One more frame on the wire. */
  lemma NextFrame(a: seq<Event>, b: seq<Event>, parts: seq<Content>, c: Content, last: bool)
    requires Wire(a) == Framed(parts, false) && Wire(b) == [Frame(c, !last)]
    ensures Wire(a + b) == Framed(parts + [c], last)
  {
    hide Wire, Announced, Flushes, Framed;
    WireConcat(a, b);
    FramedSnoc(parts, c, last);
  }

  lemma {:induction false} ProgressOnWire(p: Plan, m: nat)
    requires m <= |p.Parts()|
    ensures Wire(p.Progress(m)) == Framed(p.Parts()[..m], false)
  {
    hide Wire, Announced, Flushes;
    NothingSeen();
    if m > 0 {
      var parts, c := p.Parts()[..m - 1], p.Parts()[m - 1];
      assert p.Parts()[..m] == parts + [c];
      ProgressOnWire(p, m - 1);
      PartEventsSeen(p, m - 1, false);
      NextFrame(p.Progress(m - 1), p.PartEvents(m - 1, false), parts, c, false);
      assert p.Progress(m) == p.Progress(m - 1) + p.PartEvents(m - 1, false);
    }
  }

  lemma NextAnnounced(p: Plan, a: seq<Event>, b: seq<Event>, i: nat)
    requires i < |p.Parts()| && p.observed
    requires Announced(a) == p.user[..if i > |p.routing| then i - |p.routing| else 0]
    requires Announced(b) == if i >= |p.routing| then [p.Parts()[i]] else []
    ensures Announced(a + b) == p.user[..if i + 1 > |p.routing| then i + 1 - |p.routing| else 0]
  {
    hide Announced, Wire, Flushes;
    WireConcat(a, b);
    var k := i - |p.routing|;
    if k >= 0 {
      assert p.user[..k + 1] == p.user[..k] + [p.user[k]];
    }
  }

  lemma {:induction false} ProgressAnnounced(p: Plan, m: nat)
    requires m <= |p.Parts()| && p.observed
    ensures Announced(p.Progress(m)) == p.user[..if m > |p.routing| then m - |p.routing| else 0]
  {
    hide Wire, Announced, Flushes;
    NothingSeen();
    if m > 0 {
      ProgressAnnounced(p, m - 1);
      PartEventsSeen(p, m - 1, false);
      NextAnnounced(p, p.Progress(m - 1), p.PartEvents(m - 1, false), m - 1);
      assert p.Progress(m) == p.Progress(m - 1) + p.PartEvents(m - 1, false);
    }
  }

  lemma NoticeSilent(t: seq<Event>, observed: bool)
    ensures var notice: seq<Event> := if observed then [OnFlush] else [];
            Wire(t + notice) == Wire(t) && Announced(t + notice) == Announced(t)
  {
    WireSnoc(t, OnFlush);
    assert t + [] == t;
  }

  /** A direct transmission is one message on the wire; an observer hears of exactly the
      user's parts, in order. */
  lemma DirectSeen(p: Plan)
    requires p.Valid()
    ensures Wire(p.DirectEvents()) == Message(p.Parts())
    ensures p.observed ==> Announced(p.DirectEvents()) == p.user
  {
    hide Wire, Announced, Flushes, Plan.Progress, Plan.PartEvents;
    var n := |p.Parts()| - 1;
    var a, b := p.Progress(n), p.PartEvents(n, true);
    var parts, c := p.Parts()[..n], p.Parts()[n];
    assert p.Parts() == parts + [c];
    ProgressOnWire(p, n);
    PartEventsSeen(p, n, true);
    NextFrame(a, b, parts, c, true);
    NoticeSilent(a + b, p.observed);
    assert p.DirectEvents() == a + b + (if p.observed then [OnFlush] else []);
    if p.observed {
      ProgressAnnounced(p, n);
      NextAnnounced(p, a, b, n);
      assert p.user[..n + 1 - |p.routing|] == p.user;
    }
  }

  // --- after an error part-way --------------------------------------------------------

  /** The part before the `i`-th is refused while the `i`-th is inserted, and once more offered
      by the destructor's flush. */
  lemma RefusedThenFlushed(p: Plan, i: nat, b: Answer)
    requires p.Valid() && 1 < i < |p.Parts()| && p.answers[i] != Accepted
    ensures var e := Step(p.SendingAt(i), p.CallAt(i));
            var f := Flush(e.post, b);
            && e.outcome != Done && Wire(e.events) == []
            && Wire(f.events) == (if b == Accepted then [Frame(p.Parts()[i - 1], false)] else [])
            && (b == Accepted ==> f.post.state == FLUSHED)
  {
    hide Wire, Flushes, Announced;
    var s := p.SendingAt(i);
    var s' := if p.CallAt(i).Route? then s.(pendingRouting := s.pendingRouting + 1) else s;
    SinkSafety.InsertionWire(s', Some(p.Parts()[i]), p.answers[i]);
    SinkSafety.FlushWire(s', b);
  }

  /** An error part-way does not take back what was sent: when a part behind the first is
      refused, and the destructor's flush that follows is accepted, the wire has a message that
      is complete in form but ends early, with the parts up to the one refused. If that flush is
      refused too, the message is left open. */
  lemma AbandonedEndsEarly(p: Plan, i: nat, b: Answer)
    requires p.Valid() && 1 < i < |p.Parts()| && !p.FirstSendBlocks()
    requires p.AllAccepted(i) && p.answers[i] != Accepted
    ensures var r := Run(Init(p.options, p.observed), p.Calls(i + 1) + [Flushing(b)]);
            && !r.ok
            && (b == Accepted ==> r.post.state == FLUSHED && Wire(r.events) == Message(p.Parts()[..i]))
            && (b != Accepted ==> Wire(r.events) == Framed(p.Parts()[..i - 1], false))
            && Message(p.Parts()[..i]) != Message(p.Parts())
  {
    hide Run, Step, Wire, Announced, Flushes, Framed, Flush;
    var z, parts := Init(p.options, p.observed), p.Parts();
    var before := p.After(i);
    var e := Step(p.SendingAt(i), p.CallAt(i));
    DirectPrefix(p, i);
    CallsSnoc(p, i);
    RunSnoc(z, p.Calls(i + 1), Flushing(b));
    FlushingIsFlush(e.post, b);
    RefusedThenFlushed(p, i, b);
    ProgressOnWire(p, i - 1);
    WireConcat(before.events, e.events);
    WireConcat(before.events + e.events, Flush(e.post, b).events);
    FramedSnoc(parts[..i - 1], parts[i - 1], true);
    assert parts[..i] == parts[..i - 1] + [parts[i - 1]];
    MessageLength(parts[..i]);
    MessageLength(parts);
    assert Wire(before.events) + [] + [] == Wire(before.events);
  }

  lemma FlushingIsFlush(s: Sink, b: Answer)
    ensures Step(s, Flushing(b)) == Flush(s, b)
  {
  }

  lemma MessageLength(parts: seq<Content>)
    ensures |Message(parts)| == |parts|
  {
  }
}
