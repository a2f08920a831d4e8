/** What single calls do case by case, and two facts about all runs: a call that would block
    leaves no trace, and what is seen is in order. */
module StepFacts {
  import opened Frames
  import opened SinkSpec
  import opened SinkSafety
  import opened Transmissions

  /** What is seen of one send: the notice, unless routing is pending, then the attempt. */
  function Tried(s: Sink, more: bool, a: Answer): seq<Event>
    requires s.cached.Some?
  {
    var attempt := Attempt(s.cached.value, more, s.options.nonblock, a);
    if s.observed && s.pendingRouting == 0 then [OnSendPart(s.cached.value), attempt] else [attempt]
  }

  /** The first send of the message is due: it is skipped, or refused for now. */
  predicate FirstBlocks(s: Sink, a: Answer) {
    s.state == NOTSENT && s.cached.Some? && (s.options.emulateBlockSends || a == WouldBlock)
  }

  /** The look-ahead part is offered to the socket. */
  predicate Sends(s: Sink) {
    s.cached.Some? && (s.state == SENDING || (s.state == NOTSENT && !s.options.emulateBlockSends))
  }

  function OneLessPending(s: Sink): nat {
    if s.pendingRouting > 0 then s.pendingRouting - 1 else 0
  }

  /** Exactly when an insertion throws, and what it leaves: everything as it was, except that
      the first part of a message is given up if the socket fails. */
  lemma InsertionErrors(s: Sink, owned: Slot, a: Answer)
    ensures var e := SendOwned(s, owned, a);
            && (e.outcome == BlockedError <==>
                  (FirstBlocks(s, a) && !s.options.cacheOnBlock && !s.options.dropOnBlock) ||
                  (s.state == SENDING && s.cached.Some? && a == WouldBlock))
            && (e.outcome == SocketError <==> Sends(s) && a == Failed)
            && (e.outcome == AssertionFailed <==> s.state == QUEUEING && s.queue.None?)
            && e.outcome != NoSuchPartError && e.outcome != MessageFormatError
            && (e.outcome != Done ==> e.owned == owned)
            && (e.outcome != Done && e.outcome != SocketError ==> e.post == s && e.lost == [])
            && (e.outcome == SocketError ==>
                if s.state == NOTSENT then e.post == s.(cached := None) && e.lost == [s.cached.value]
                else e.post == s && e.lost == [])
  {
  }

  /** The same for a flush. */
  lemma FlushErrors(s: Sink, a: Answer)
    ensures var e := Flush(s, a);
            && (e.outcome == BlockedError <==>
                  (FirstBlocks(s, a) && !s.options.cacheOnBlock && !s.options.dropOnBlock) ||
                  (s.state == SENDING && s.cached.Some? && a == WouldBlock))
            && (e.outcome == SocketError <==> Sends(s) && a == Failed)
            && (e.outcome == Done || e.outcome == BlockedError || e.outcome == SocketError)
            && (e.outcome == BlockedError ==> e.post == s && e.lost == [])
            && (e.outcome == SocketError ==>
                if s.state == NOTSENT then e.post == s.(cached := None) && e.lost == [s.cached.value]
                else e.post == s && e.lost == [])
  {
  }

  /** An insertion free of errors, state by state. */
  lemma InsertionDone(s: Sink, owned: Slot, a: Answer)
    requires SendOwned(s, owned, a).outcome == Done
    ensures var e := SendOwned(s, owned, a);
            && e.lost == []
            && match s.state
               case NOTSENT =>
                 if s.cached.None? then e.owned.None? && e.post == s.(cached := owned)
                 else if !FirstBlocks(s, a) then
                   e.owned.None? && e.post == s.(state := SENDING, cached := owned, pendingRouting := OneLessPending(s))
                 else if s.options.cacheOnBlock then
                   e.owned.None? && e.post == s.(state := QUEUEING, cached := None, queue := Some([s.cached, owned]))
                 else
                   s.options.dropOnBlock && e.owned == owned && e.post == s.(state := DROPPING)
               case SENDING =>
                 && e.owned.None?
                 && e.post == s.(cached := owned,
                                 pendingRouting := if s.cached.Some? then OneLessPending(s) else s.pendingRouting)
               case QUEUEING =>
                 s.queue.Some? && e.owned.None? && e.post == s.(queue := Some(s.queue.value + [owned]))
               case DROPPING => e.owned == owned && e.post == s
               case FLUSHED => e.owned == owned && e.post == s
  {
    if s.cached.Some? {
      assert [s.cached] + [owned] == [s.cached, owned];
    }
  }

  /** A flush free of errors, state by state. */
  lemma FlushDone(s: Sink, a: Answer)
    requires Flush(s, a).outcome == Done
    ensures var e := Flush(s, a);
            match s.state
            case DROPPING => e.post == s && e.lost == []
            case NOTSENT =>
              if s.cached.None? then e.post == s.(state := FLUSHED) && e.lost == []
              else if !FirstBlocks(s, a) then
                e.post == s.(state := FLUSHED, cached := None, pendingRouting := OneLessPending(s)) && e.lost == []
              else if s.options.cacheOnBlock then
                e.post == s.(state := FLUSHED, cached := None, queue := Some([s.cached])) && e.lost == []
              else
                e.post == s.(state := FLUSHED, cached := None) && e.lost == [s.cached.value]
            case SENDING =>
              && e.post.pendingRouting == (if s.cached.Some? then OneLessPending(s) else s.pendingRouting)
              && e.post == s.(state := FLUSHED, cached := None, pendingRouting := e.post.pendingRouting) && e.lost == []
            case _ => e.post == s.(state := FLUSHED, cached := None) && e.lost == []
  {
  }

  /** What is seen of one call, and when. */
  lemma InsertionSeen(s: Sink, owned: Slot, a: Answer)
    ensures SendOwned(s, owned, a).events == if Sends(s) then Tried(s, true, a) else []
  {
  }

  lemma FlushSeen(s: Sink, a: Answer)
    ensures var e := Flush(s, a);
            e.events == (if Sends(s) then Tried(s, false, a) else []) +
                        (if s.observed && e.outcome == Done && s.state != FLUSHED && s.state != DROPPING
                         then [OnFlush] else [])
  {
    FlushEvents(s, a);
    FlushGoesOn(s, a);
    hide Flush;
    assert Sends(s) ==> SendEvents(s, s.cached.value, true, a) == Tried(s, false, a);
  }

  lemma FlushGoesOn(s: Sink, a: Answer)
    ensures var e := Flush(s, a);
            s.state != FLUSHED && e.post.state == FLUSHED <==>
              e.outcome == Done && s.state != FLUSHED && s.state != DROPPING
  {
  }

  // --- calls that would block ----------------------------------------------------------

  /** The calls without those insertions of user parts and flushes that threw because they
      would block. */
  function WithoutBlocked(s: Sink, calls: seq<Call>): seq<Call> {
    if calls == [] then []
    else
      var t, c := calls[..|calls| - 1], calls[|calls| - 1];
      WithoutBlocked(s, t) +
      (if !c.Route? && Step(Run(s, t).post, c).outcome == BlockedError then [] else [c])
  }

  ghost predicate SameButForNotices(r: RunResult, q: RunResult) {
    && r.post == q.post && Wire(r.events) == Wire(q.events)
    && r.taken == q.taken && r.lost == q.lost && r.released == q.released
  }

  /** Such a call leaves no trace but its attempt: it can be made again as if it had not been. */
  lemma BlockedLeavesNothing(r: RunResult, c: Call)
    requires !c.Route? && Step(r.post, c).outcome == BlockedError
    ensures SameButForNotices(WithCall(r, c), r)
  {
    hide Wire, Announced, Flushes, SendOwned, SinkSpec.Flush;
    var e := Step(r.post, c);
    WireConcat(r.events, e.events);
    match c {
      case Insert(p, a) =>
        InsertionErrors(r.post, p, a);
        InsertionWire(r.post, p, a);
        assert p.Some? ==> e.owned == p;
      case Flushing(a) =>
        FlushErrors(r.post, a);
        FlushWire(r.post, a);
      case _ =>
    }
    assert r.taken + [] == r.taken && r.lost + [] == r.lost && r.released + [] == r.released;
    assert Wire(r.events) + [] == Wire(r.events);
  }

  /** Calls that would block, and are made again or given up, do not change what a run comes to:
      state, wire, and what became of every part are those of the run without them. */
  lemma {:induction false} BlockedCallsVanish(s: Sink, calls: seq<Call>)
    ensures SameButForNotices(Run(s, calls), Run(s, WithoutBlocked(s, calls)))
  {
    if calls != [] {
      hide Step, Wire;
      var t, c := calls[..|calls| - 1], calls[|calls| - 1];
      var less := WithoutBlocked(s, t);
      BlockedCallsVanish(s, t);
      if !c.Route? && Step(Run(s, t).post, c).outcome == BlockedError {
        BlockedLeavesNothing(Run(s, t), c);
        assert less + [] == less;
      } else {
        RunSnoc(s, less, c);
        WireConcat(Run(s, t).events, Step(Run(s, t).post, c).events);
        WireConcat(Run(s, less).events, Step(Run(s, t).post, c).events);
      }
    }
  }

  /** So a message whose first send would block and throws can be inserted and flushed again and
      again: if the calls are, but for those, a message that meets no error, it is on the wire
      as a whole. */
  lemma TriedAgain(p: Plan, calls: seq<Call>)
    requires p.Valid() && p.AllAccepted(|p.answers|)
    requires WithoutBlocked(Init(p.options, p.observed), calls) == p.Calls(|p.answers|)
    ensures var r := Run(Init(p.options, p.observed), calls);
            Wire(r.events) == Message(p.Parts()) && r.post.state == FLUSHED && r.lost == []
  {
    hide Run, Step, Wire, Announced, Flushes, Plan.DirectEvents, Framed, WithoutBlocked;
    BlockedCallsVanish(Init(p.options, p.observed), calls);
    Direct(p);
    DirectSeen(p);
    NothingLost(p);
  }

  lemma NothingLost(p: Plan)
    requires p.Valid() && p.AllAccepted(|p.answers|)
    ensures p.Whole().lost == []
  {
    hide Run, Wire;
    var n := |p.Parts()|;
    LostNothing(p, n);
    DirectPrefix(p, n);
    CallsSnoc(p, n);
  }

  lemma {:induction false} LostNothing(p: Plan, k: nat)
    requires p.Valid() && k <= |p.Parts()| && p.AllAccepted(k)
    ensures p.After(k).lost == []
  {
    hide Run, Wire;
    if k == 0 {
      assert p.Calls(0) == [];
      RunNothing(Init(p.options, p.observed));
    } else {
      LostNothing(p, k - 1);
      CallsSnoc(p, k - 1);
      if k > 1 {
        DirectPrefix(p, k - 1);
        DirectStep(p, k - 1);
      } else {
        assert p.Calls(0) == [];
        RunNothing(Init(p.options, p.observed));
      }
    }
  }

  // --- order of what is seen -----------------------------------------------------------

  /** Every attempt is made as the options say, every notice of a part is directly followed by
      the attempt to send it, and nothing follows the notice of a flush. */
  ghost predicate InOrder(options: Options, events: seq<Event>) {
    forall i :: 0 <= i < |events| ==> InPlace(options, events, i)
  }

  predicate InPlace(options: Options, events: seq<Event>, i: nat)
    requires i < |events|
  {
    match events[i]
    case Attempt(_, _, noblock, _) => noblock == options.nonblock && !options.emulateBlockSends
    case OnSendPart(c) => i + 1 < |events| && events[i + 1].Attempt? && events[i + 1].content == c
    case OnFlush => i + 1 == |events|
  }

  ghost predicate Settled(r: RunResult) {
    && InOrder(r.post.options, r.events)
    && (r.post.options.emulateBlockSends ==> r.post.state != SENDING)
    && (r.events != [] && r.events[|r.events| - 1] == OnFlush ==> r.post.state == FLUSHED)
    && (r.post.state == FLUSHED ==> r.post.cached.None?)
  }

  lemma InOrderConcat(options: Options, a: seq<Event>, b: seq<Event>)
    requires InOrder(options, a) && InOrder(options, b)
    requires a != [] && a[|a| - 1] == OnFlush ==> b == []
    ensures InOrder(options, a + b)
  {
    var n := |a|;
    forall i | 0 <= i < |a + b| ensures InPlace(options, a + b, i) {
      if i < n {
        assert InPlace(options, a, i);
      } else {
        assert InPlace(options, b, i - n);
        assert (a + b)[n..] == b;
      }
    }
  }

  lemma NothingInOrder(options: Options)
    ensures InOrder(options, [])
  {
  }

  lemma TriedInOrder(s: Sink, more: bool, a: Answer)
    requires Sends(s) && !s.options.emulateBlockSends
    ensures InOrder(s.options, Tried(s, more, a)) && InOrder(s.options, Tried(s, more, a) + [OnFlush])
    ensures InOrder(s.options, [OnFlush]) && InOrder(s.options, [])
  {
  }

  lemma CallSettled(r: RunResult, c: Call)
    requires Settled(r)
    ensures Settled(WithCall(r, c)) && WithCall(r, c).post.options == r.post.options
  {
    hide SendOwned, SinkSpec.Flush, InOrder;
    var s := r.post;
    var e := Step(s, c);
    NothingInOrder(s.options);
    match c {
      case Route(p, a) => InsertionSettled(s.(pendingRouting := s.pendingRouting + 1), p, a);
      case Insert(p, a) => InsertionSettled(s, p, a);
      case Flushing(a) => FlushSettled(s, a);
      case Detach =>
    }
    assert r.events + [] == r.events;
    InOrderConcat(s.options, r.events, e.events);
  }

  lemma InsertionSettled(s: Sink, p: Slot, a: Answer)
    requires s.options.emulateBlockSends ==> s.state != SENDING
    requires s.state == FLUSHED ==> s.cached.None?
    ensures var e := SendOwned(s, p, a);
            && e.post.options == s.options && InOrder(s.options, e.events)
            && (s.options.emulateBlockSends ==> e.post.state != SENDING)
            && (s.state == FLUSHED <==> e.post.state == FLUSHED) && (s.state == FLUSHED ==> e.events == [])
            && (e.post.state == FLUSHED ==> e.post.cached.None?)
            && (e.events != [] ==> e.events[|e.events| - 1] != OnFlush)
  {
    InsertionSeen(s, p, a);
    if Sends(s) {
      TriedInOrder(s, true, a);
    }
  }

  lemma FlushSettled(s: Sink, a: Answer)
    requires s.options.emulateBlockSends ==> s.state != SENDING
    requires s.state == FLUSHED ==> s.cached.None?
    ensures var e := Flush(s, a);
            && e.post.options == s.options && InOrder(s.options, e.events)
            && (s.options.emulateBlockSends ==> e.post.state != SENDING)
            && (s.state == FLUSHED ==> e.post.state == FLUSHED && e.events == [])
            && (e.post.state == FLUSHED ==> e.post.cached.None?)
            && (e.events != [] && e.events[|e.events| - 1] == OnFlush ==> e.post.state == FLUSHED)
  {
    FlushSeen(s, a);
    if Sends(s) {
      TriedInOrder(s, false, a);
      assert Tried(s, false, a) + [] == Tried(s, false, a);
    }
  }

  /** In every run all attempts have the flag the options ask for, none is made when blocking is
      emulated, each notice of a part comes just before its attempt, and nothing comes after
      the notice of a flush. */
  lemma {:induction false} EveryRunIsInOrder(options: Options, observed: bool, calls: seq<Call>)
    ensures var r := Run(Init(options, observed), calls); InOrder(options, r.events) && r.post.options == options
    ensures Settled(Run(Init(options, observed), calls))
  {
    if calls != [] {
      hide Step;
      EveryRunIsInOrder(options, observed, calls[..|calls| - 1]);
      CallSettled(Run(Init(options, observed), calls[..|calls| - 1]), calls[|calls| - 1]);
    }
  }
}
