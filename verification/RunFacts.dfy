/** Further facts about all runs: the routing counter, and when a message is closed. */
module RunFacts {
  import opened Frames
  import opened SinkSpec
  import opened SinkSafety

  function Routes(calls: seq<Call>): nat {
    if calls == [] then 0
    else Routes(calls[..|calls| - 1]) + (if calls[|calls| - 1].Route? then 1 else 0)
  }

  /** Routing parts are inserted by the constructor, before anything else. */
  ghost predicate RoutesFirst(calls: seq<Call>) {
    forall i, j :: 0 <= i < j < |calls| && calls[j].Route? ==> calls[i].Route?
  }

  lemma {:induction false} OnlyRoutes(calls: seq<Call>)
    requires RoutesFirst(calls)
    ensures Routes(calls) <= |calls|
    ensures calls != [] && calls[|calls| - 1].Route? ==> Routes(calls) == |calls|
  {
    if calls != [] {
      var t := calls[..|calls| - 1];
      OnlyRoutes(t);
      if calls[|calls| - 1].Route? && t != [] {
        assert calls[|t| - 1].Route?;
      }
    }
  }

  lemma PendingAfterInsertion(s: Sink, owned: Slot, a: Answer)
    ensures var q, f := SendOwned(s, owned, a).post, FrameSent(s, false, a);
            && q.pendingRouting == (if f != [] && s.pendingRouting > 0 then s.pendingRouting - 1 else s.pendingRouting)
            && |f| <= |Optional(s.cached)|
  {
  }

  lemma PendingAfterFlush(s: Sink, a: Answer)
    ensures var q, f := Flush(s, a).post, FrameSent(s, true, a);
            && q.pendingRouting == (if f != [] && s.pendingRouting > 0 then s.pendingRouting - 1 else s.pendingRouting)
            && |f| <= |Optional(s.cached)|
  {
  }

  /** The frames one call puts on the wire, and the counter after it. */
  lemma PendingStep(r: RunResult, c: Call)
    ensures var q := WithCall(r, c);
            var s := if c.Route? then r.post.pendingRouting + 1 else r.post.pendingRouting;
            var n := |Wire(q.events)| - |Wire(r.events)|;
            && 0 <= n <= |Optional(r.post.cached)|
            && q.post.pendingRouting == if n > 0 && s > 0 then s - 1 else s
  {
    hide SendOwned, SinkSpec.Flush, Wire, FrameSent, Flushes;
    var e := Step(r.post, c);
    WireConcat(r.events, e.events);
    match c {
      case Route(p, a) =>
        InsertionWire(r.post.(pendingRouting := r.post.pendingRouting + 1), p, a);
        PendingAfterInsertion(r.post.(pendingRouting := r.post.pendingRouting + 1), p, a);
      case Insert(p, a) =>
        InsertionWire(r.post, p, a);
        PendingAfterInsertion(r.post, p, a);
      case Flushing(a) =>
        FlushWire(r.post, a);
        PendingAfterFlush(r.post, a);
      case Detach =>
        NothingSeen();
    }
  }

  /** The counter of routing parts still to be sent is exact in every run, errors and retries
      included: it is what remains of the routing parts after the frames sent. */
  lemma {:induction false} PendingRoutingIsExact(options: Options, observed: bool, calls: seq<Call>)
    requires RoutesFirst(calls)
    ensures var r := Run(Init(options, observed), calls);
            var sent := |Wire(r.events)|;
            && r.post.pendingRouting == (if Routes(calls) > sent then Routes(calls) - sent else 0)
            && (Routes(calls) == |calls| ==> sent + |Optional(r.post.cached)| <= |calls|)
  {
    if calls != [] {
      var t, c := calls[..|calls| - 1], calls[|calls| - 1];
      var r := Run(Init(options, observed), t);
      PendingRoutingIsExact(options, observed, t);
      OnlyRoutes(t);
      OnlyRoutes(calls);
      PendingStep(r, c);
      assert |Optional(WithCall(r, c).post.cached)| <= 1;
    }
  }

  /** A flush of an invalid look-ahead part leaves the message on the wire without a last
      frame: a run that inserts a valid part and then an already released one does it. */
  lemma ReleasedPartLeavesMessageOpen(options: Options, c: Content)
    requires !options.emulateBlockSends
    ensures var r := Run(Init(options, false), [Insert(Some(c), Accepted), Insert(None, Accepted), Flushing(Accepted)]);
            r.ok && r.post.state == FLUSHED && Wire(r.events) == [Frame(c, true)]
  {
    var s := Init(options, false);
    var i, j, k := Insert(Some(c), Accepted), Insert(None, Accepted), Flushing(Accepted);
    ReleasedSteps(options, c);
    hide Run, Step, Wire, Announced, Flushes;
    RunThree(s, i, j, k);
    var e1 := Step(s, i);
    var e2 := Step(e1.post, j);
    assert [] + e2.events + [] == e2.events;
  }

  lemma ReleasedSteps(options: Options, c: Content)
    requires !options.emulateBlockSends
    ensures var e1 := Step(Init(options, false), Insert(Some(c), Accepted));
            var e2 := Step(e1.post, Insert(None, Accepted));
            var e3 := Step(e2.post, Flushing(Accepted));
            && e1.outcome == e2.outcome == e3.outcome == Done && e3.post.state == FLUSHED
            && e1.events == [] && e3.events == [] && Wire(e2.events) == [Frame(c, true)]
  {
    var s := Init(options, false).(cached := Some(c));
    InsertionWire(s, None, Accepted);
    hide Wire, Announced, Flushes;
    assert Step(Init(options, false), Insert(Some(c), Accepted)) == Effect(s, [], Done, None, []);
    assert Step(s, Insert(None, Accepted)).post == s.(state := SENDING, cached := None);
  }

  lemma RunThree(s: Sink, i: Call, j: Call, k: Call)
    ensures var e1 := Step(s, i);
            var e2 := Step(e1.post, j);
            var e3 := Step(e2.post, k);
            var r := Run(s, [i, j, k]);
            && r.post == e3.post && r.events == e1.events + e2.events + e3.events
            && (r.ok <==> e1.outcome == Done && e2.outcome == Done && e3.outcome == Done)
  {
    hide Step, Run;
    var r0 := Run(s, []);
    RunNothing(s);
    RunSnoc(s, [], i);
    RunSnoc(s, [] + [i], j);
    RunSnoc(s, [] + [i] + [j], k);
    assert [] + [i] + [j] + [k] == [i, j, k];
    assert r0.events + Step(s, i).events == Step(s, i).events;
  }

  /** Exactly when: once a message is under way, an accepted flush closes it if and only if
      the part inserted last was valid. */
  lemma ClosedIffLastPartValid(options: Options, observed: bool, calls: seq<Call>, last: Slot, a: Answer)
    requires var s := Run(Init(options, observed), calls).post;
             && Step(s, Insert(last, a)).outcome == Done && Step(s, Insert(last, a)).post.state == SENDING
    ensures var r := Run(Init(options, observed), calls + [Insert(last, a)] + [Flushing(Accepted)]);
            var w := Wire(r.events);
            && r.post.state == FLUSHED && w != []
            && (!w[|w| - 1].more <==> last.Some?)
            && (last.Some? ==> w[|w| - 1].content == last.value)
  {
    hide Run, Wire, Flushes, Announced;
    var z := Init(options, observed);
    var before := calls + [Insert(last, a)];
    RunSnoc(z, calls, Insert(last, a));
    RunSnoc(z, before, Flushing(Accepted));
    EveryRunIsSafe(options, observed, before);
    var r := Run(z, before);
    SendingCachesLast(Run(z, calls).post, last, a);
    FlushWire(r.post, Accepted);
    WireConcat(r.events, Flush(r.post, Accepted).events);
  }

  lemma SendingCachesLast(s: Sink, last: Slot, a: Answer)
    requires SendOwned(s, last, a).outcome == Done && SendOwned(s, last, a).post.state == SENDING
    ensures SendOwned(s, last, a).post.cached == last
  {
  }

  // --- runs with valid parts only ------------------------------------------------------

  /** Every part offered is a valid one. */
  ghost predicate ValidParts(calls: seq<Call>) {
    forall i :: 0 <= i < |calls| && IsInsertion(calls[i]) ==> calls[i].part.Some?
  }

  /** A message under way has a part to close it with, and a flushed one was closed. */
  ghost predicate Closable(s: Sink, w: seq<Frame>) {
    && (s.state == SENDING ==> s.cached.Some?)
    && (s.state == FLUSHED && w != [] ==> !w[|w| - 1].more)
  }

  lemma InsertionClosable(s: Sink, c: Content, a: Answer, w: seq<Frame>)
    requires Reachable(s, w) && Closable(s, w)
    ensures Closable(SendOwned(s, Some(c), a).post, w + FrameSent(s, false, a))
  {
    assert w + [] == w;
  }

  lemma FlushClosable(s: Sink, a: Answer, w: seq<Frame>)
    requires Reachable(s, w) && Closable(s, w)
    ensures Closable(SinkSpec.Flush(s, a).post, w + FrameSent(s, true, a))
  {
    assert w + [] == w;
  }

  lemma CallClosable(r: RunResult, c: Call)
    requires Reachable(r.post, Wire(r.events)) && Closable(r.post, Wire(r.events))
    requires IsInsertion(c) ==> c.part.Some?
    ensures Closable(WithCall(r, c).post, Wire(WithCall(r, c).events))
  {
    hide Wire, Announced, Flushes, FrameSent, SendOwned, SinkSpec.Flush;
    var w := Wire(r.events);
    WireConcat(r.events, Step(r.post, c).events);
    match c {
      case Route(p, a) =>
        var s := r.post.(pendingRouting := r.post.pendingRouting + 1);
        InsertionWire(s, p, a);
        InsertionClosable(s, p.value, a, w);
      case Insert(p, a) =>
        InsertionWire(r.post, p, a);
        InsertionClosable(r.post, p.value, a, w);
      case Flushing(a) =>
        FlushWire(r.post, a);
        FlushClosable(r.post, a, w);
      case Detach =>
        NothingSeen();
        assert w + [] == w;
    }
  }

  lemma {:induction false} RunsStayClosable(options: Options, observed: bool, calls: seq<Call>)
    requires ValidParts(calls)
    ensures var r := Run(Init(options, observed), calls); Closable(r.post, Wire(r.events))
  {
    if calls != [] {
      var t := calls[..|calls| - 1];
      RunsStayClosable(options, observed, t);
      EveryRunIsSafe(options, observed, t);
      hide Step, Wire;
      CallClosable(Run(Init(options, observed), t), calls[|calls| - 1]);
    }
  }

  /** A flushed message is whole: if anything of it is on the wire, then the wire holds exactly
      one complete message with the parts taken over, in order, but for those given up before
      the first frame; otherwise all of them are in the queue. It is never split between the
      two. */
  ghost predicate WholeIfFlushed(r: RunResult) {
    r.post.state == FLUSHED ==>
      if Wire(r.events) != [] then
        |r.lost| <= |r.taken| && Wire(r.events) == Message(r.taken[|r.lost|..]) &&
        r.taken[..|r.lost|] == r.lost && r.released == [] && Held(r.post) == []
      else
        r.taken == r.lost + r.released + Held(r.post)
  }

  lemma ClosedIsWhole(r: RunResult)
    requires RunInvariant(r) && Closable(r.post, Wire(r.events))
    ensures WholeIfFlushed(r)
  {
    hide Wire, Flushes;
    var w := Wire(r.events);
    assert r.lost + ContentsOf(w) + [] + [] == r.lost + ContentsOf(w);
    if r.post.state == FLUSHED && w != [] {
      assert r.taken[|r.lost|..] == ContentsOf(w);
      assert w == Message(ContentsOf(w));
    } else {
      assert r.lost + [] == r.lost;
    }
  }

  /** A flushed message is whole, whatever errors were thrown and whatever was tried again on
      the way. */
  lemma FlushedIsWhole(options: Options, observed: bool, calls: seq<Call>)
    requires ValidParts(calls)
    ensures WholeIfFlushed(Run(Init(options, observed), calls))
  {
    hide Run, Wire;
    EveryRunIsSafe(options, observed, calls);
    RunsStayClosable(options, observed, calls);
    ClosedIsWhole(Run(Init(options, observed), calls));
  }

  // --- detaching in time --------------------------------------------------------------

  /** Only a detach while still queueing makes a later call fail the assert of the original. */
  lemma QueueStays(s: Sink, c: Call)
    requires s.state == QUEUEING ==> s.queue.Some?
    requires c.Detach? ==> s.state != QUEUEING
    ensures Step(s, c).outcome != AssertionFailed
    ensures Step(s, c).post.state == QUEUEING ==> Step(s, c).post.queue.Some?
  {
  }

  /** No call detaches while parts are being queued. */
  ghost predicate DetachesLate(s: Sink, calls: seq<Call>) {
    forall k :: 0 <= k < |calls| && calls[k].Detach? ==> StateAfter(s, calls, k) != QUEUEING
  }

  ghost function StateAfter(s: Sink, calls: seq<Call>, k: nat): State
    requires k <= |calls|
  {
    Run(s, calls[..k]).post.state
  }

  ghost function OutcomeOf(s: Sink, calls: seq<Call>, k: nat): Outcome
    requires k < |calls|
  {
    Step(Run(s, calls[..k]).post, calls[k]).outcome
  }

  lemma PrefixStates(s: Sink, t: seq<Call>, c: Call)
    ensures forall k :: 0 <= k <= |t| ==> StateAfter(s, t + [c], k) == StateAfter(s, t, k)
    ensures forall k :: 0 <= k < |t| ==> OutcomeOf(s, t + [c], k) == OutcomeOf(s, t, k)
    ensures OutcomeOf(s, t + [c], |t|) == Step(Run(s, t).post, c).outcome
    ensures StateAfter(s, t, |t|) == Run(s, t).post.state
  {
    hide Run, Step;
    assert forall k :: 0 <= k <= |t| ==> (t + [c])[..k] == t[..k];
    assert t[..|t|] == t;
  }

  /** While parts are being queued there is a queue, in every run that detaches only later; so
      no assert fails. */
  lemma {:induction false} QueueingHasQueue(options: Options, observed: bool, calls: seq<Call>)
    requires DetachesLate(Init(options, observed), calls)
    ensures var z := Init(options, observed);
            var s := Run(z, calls).post;
            && (s.state == QUEUEING ==> s.queue.Some?)
            && forall k :: 0 <= k < |calls| ==> OutcomeOf(z, calls, k) != AssertionFailed
  {
    hide Run, Step, StateAfter, OutcomeOf;
    var z := Init(options, observed);
    if calls == [] {
      RunNothing(z);
    } else {
      var t, c := calls[..|calls| - 1], calls[|calls| - 1];
      assert calls == t + [c];
      PrefixStates(z, t, c);
      QueueingHasQueue(options, observed, t);
      RunSnoc(z, t, c);
      QueueStays(Run(z, t).post, c);
    }
  }

  // --- replies --------------------------------------------------------------------------

  function ReleasedRoutes(answers: seq<Answer>): seq<Call> {
    seq(|answers|, i requires 0 <= i < |answers| => Route(None, answers[i]))
  }

  /** A second reply made without copying finds the envelope released: it sends none of it,
      but still counts it as pending. */
  lemma {:induction false} SecondReplyHasNoEnvelope(options: Options, observed: bool, answers: seq<Answer>)
    ensures var r := Run(Init(options, observed), ReleasedRoutes(answers));
            r.ok && r.events == [] && r.post == Init(options, observed).(pendingRouting := |answers|)
  {
    hide Run, Step, Contents;
    var s := Init(options, observed);
    if answers == [] {
      assert ReleasedRoutes(answers) == [];
      RunNothing(s);
    } else {
      var n := |answers| - 1;
      SecondReplyHasNoEnvelope(options, observed, answers[..n]);
      assert ReleasedRoutes(answers) == ReleasedRoutes(answers[..n]) + [Route(None, answers[n])];
      RunSnoc(s, ReleasedRoutes(answers[..n]), Route(None, answers[n]));
      ReleasedRoute(options, observed, n, answers[n]);
    }
  }

  lemma ReleasedRoute(options: Options, observed: bool, n: nat, a: Answer)
    ensures var s := Init(options, observed);
            Step(s.(pendingRouting := n), Route(None, a)) ==
            Effect(s.(pendingRouting := n + 1), [], Done, None, [])
  {
  }

  /** Parts inserted while the socket accepts everything. */
  function Inserts(user: seq<Content>): seq<Call> {
    seq(|user|, i requires 0 <= i < |user| => Insert(Some(user[i]), Accepted))
  }

  /** With `n` routing parts pending: the sink after the insertion of `user`. */
  function Behind(options: Options, n: nat, user: seq<Content>): Sink
    requires user != []
  {
    var k := |user|;
    Sink(options, true, if k == 1 then NOTSENT else SENDING, Some(user[k - 1]), None,
         if n > k - 1 then n - (k - 1) else 0)
  }

  /** What is announced of the first `k` parts. */
  function Heard(n: nat, user: seq<Content>, k: nat): seq<Content>
    requires k <= |user|
  {
    if n <= k then user[n..k] else []
  }

  lemma BehindStep(options: Options, n: nat, user: seq<Content>, c: Content)
    requires user != [] && !options.emulateBlockSends
    ensures var s, x := Behind(options, n, user), user[|user| - 1];
            Step(s, Insert(Some(c), Accepted)) ==
            Effect(Behind(options, n, user + [c]), SendEvents(s, x, false, Accepted), Done, None, [])
    ensures var s, x := Behind(options, n, user), user[|user| - 1];
            var e := Step(s, Flushing(Accepted));
            && e.events == SendEvents(s, x, true, Accepted) + [OnFlush] && e.outcome == Done
            && e.post.state == FLUSHED && e.post.queue.None?
  {
  }

  lemma SendEventsHeard(options: Options, n: nat, user: seq<Content>, last: bool, before: seq<Event>)
    requires user != []
    requires Wire(before) == Framed(user[..|user| - 1], false) && Announced(before) == Heard(n, user, |user| - 1)
    ensures var after := before + SendEvents(Behind(options, n, user), user[|user| - 1], last, Accepted);
            && Wire(after) == Framed(user, last) && Announced(after) == Heard(n, user, |user|)
            && Wire(after + [OnFlush]) == Wire(after) && Announced(after + [OnFlush]) == Announced(after)
  {
    hide Wire, Announced, Flushes, Framed;
    var k, s, c := |user| - 1, Behind(options, n, user), user[|user| - 1];
    var told := if n <= k then before + [OnSendPart(c)] else before;
    var attempt := Attempt(c, !last, options.nonblock, Accepted);
    WireSnoc(before, OnSendPart(c));
    WireSnoc(told, attempt);
    assert told + [attempt] == before + SendEvents(s, c, last, Accepted);
    WireSnoc(told + [attempt], OnFlush);
    FramedSnoc(user[..k], c, last);
    assert user == user[..k] + [c];
    assert n <= k ==> user[n..k] + [c] == user[n..];
  }

  lemma {:induction false} BehindPending(options: Options, n: nat, user: seq<Content>)
    requires user != [] && !options.emulateBlockSends
    ensures var r := Run(Init(options, true).(pendingRouting := n), Inserts(user));
            && r.ok && r.post == Behind(options, n, user)
            && Wire(r.events) == Framed(user[..|user| - 1], false)
            && Announced(r.events) == Heard(n, user, |user| - 1)
  {
    hide Run, Step, Wire, Announced, Flushes, Framed;
    var s, k := Init(options, true).(pendingRouting := n), |user| - 1;
    assert Inserts(user) == Inserts(user[..k]) + [Insert(Some(user[k]), Accepted)];
    RunSnoc(s, Inserts(user[..k]), Insert(Some(user[k]), Accepted));
    if k == 0 {
      assert Inserts(user[..k]) == [];
      RunNothing(s);
      NothingSeen();
      FirstBehind(options, n, user[0]);
    } else {
      var t := user[..k];
      BehindPending(options, n, t);
      BehindStep(options, n, t, user[k]);
      assert user == t + [user[k]];
      SendEventsHeard(options, n, t, false, Run(s, Inserts(t)).events);
      assert Heard(n, t, k) == Heard(n, user, k);
    }
  }

  lemma FirstBehind(options: Options, n: nat, c: Content)
    ensures Step(Init(options, true).(pendingRouting := n), Insert(Some(c), Accepted)) ==
            Effect(Behind(options, n, [c]), [], Done, None, [])
    ensures Framed([c][..0], false) == [] && Heard(n, [c], 0) == []
  {
  }

  /** Such a reply is sent without its envelope, and its first parts, as many as the envelope
      had, go out as if they were routing: the observer only hears of those that follow. */
  lemma SecondReplyAnnouncesLess(options: Options, answers: seq<Answer>, user: seq<Content>)
    requires user != [] && !options.emulateBlockSends
    ensures var n := |answers|;
            var r := Run(Init(options, true), ReleasedRoutes(answers) + (Inserts(user) + [Flushing(Accepted)]));
            && r.ok && r.post.state == FLUSHED && Wire(r.events) == Message(user)
            && Announced(r.events) == if n <= |user| then user[n..] else []
  {
    hide Run, Step, Wire, Announced, Flushes, Framed;
    var n, z := |answers|, Init(options, true);
    var s := z.(pendingRouting := n);
    SecondReplyHasNoEnvelope(options, true, answers);
    RunConcat(z, ReleasedRoutes(answers), Inserts(user) + [Flushing(Accepted)]);
    RunSnoc(s, Inserts(user), Flushing(Accepted));
    BehindPending(options, n, user);
    BehindStep(options, n, user, []);
    var r := Run(s, Inserts(user));
    var x := SendEvents(Behind(options, n, user), user[|user| - 1], true, Accepted);
    SendEventsHeard(options, n, user, true, r.events);
    assert r.events + (x + [OnFlush]) == (r.events + x) + [OnFlush];
    assert [] + (r.events + x + [OnFlush]) == r.events + x + [OnFlush];
  }
}
