/** What every run of the outgoing state machine keeps: any calls in any order,
    any socket answers, thrown errors and retries included. */
module SinkSafety {
  import opened Frames
  import opened SinkSpec

  function Optional(s: Slot): seq<Content> {
    if s.Some? then [s.value] else []
  }

  /** What the sink itself still holds. */
  function Held(s: Sink): seq<Content> {
    if s.queue.None? then Optional(s.cached)
    else Optional(s.cached) + Contents(s.queue.value)
  }

  /** Every frame but the last asks for more. */
  ghost predicate OpenUpToLast(w: seq<Frame>) {
    forall i :: 0 <= i < |w| - 1 ==> w[i].more
  }

  /** The state tells what has been sent so far and where the parts are. */
  ghost predicate Reachable(s: Sink, w: seq<Frame>) {
    && OpenUpToLast(w)
    && (s.queue.Some? ==> w == [] && s.queue.value != [] && (s.state == QUEUEING || s.state == FLUSHED))
    && match s.state
       case NOTSENT => w == []
       case SENDING => w != [] && w[|w| - 1].more
       case QUEUEING => w == [] && s.cached.None?
       case DROPPING => w == [] && s.cached.Some?
       case FLUSHED => s.cached.None?
  }

  /** The look-ahead part is offered to the socket, by an insertion or a flush. */
  predicate Tries(s: Sink) {
    s.cached.Some? && (s.state == SENDING || (s.state == NOTSENT && !s.options.emulateBlockSends))
  }

  /** The frame, if any, that the look-ahead part becomes in one call. */
  function FrameSent(s: Sink, last: bool, a: Answer): seq<Frame> {
    if Tries(s) && a == Accepted then [Frame(s.cached.value, !last)] else []
  }

  lemma ContentsSnoc(slots: seq<Slot>, x: Slot)
    ensures Contents(slots + [x]) == Contents(slots) + Optional(x)
  {
    assert (slots + [x])[..|slots|] == slots;
  }

  lemma ContentsPair(x: Slot, y: Slot)
    ensures Contents([x]) == Optional(x) && Contents([x, y]) == Optional(x) + Optional(y)
  {
    ContentsSnoc([], x);
    assert [] + [x] == [x] && [x] + [y] == [x, y];
    ContentsSnoc([x], y);
  }

  lemma SendEventsWire(s: Sink, c: Content, last: bool, a: Answer)
    ensures Wire(SendEvents(s, c, last, a)) == if a == Accepted then [Frame(c, !last)] else []
    ensures Flushes(SendEvents(s, c, last, a)) == 0
  {
    var pre := if s.observed && s.pendingRouting == 0 then [OnSendPart(c)] else [];
    WireSnoc([], OnSendPart(c));
    assert [] + [OnSendPart(c)] == [OnSendPart(c)];
    WireSnoc(pre, Attempt(c, !last, s.options.nonblock, a));
  }

  /** Which events one insertion causes. */
  lemma InsertionEvents(s: Sink, owned: Slot, a: Answer)
    ensures SendOwned(s, owned, a).events ==
            if Tries(s)
            then SendEvents(s, s.cached.value, false, a) else []
  {
  }

  lemma InsertionWire(s: Sink, owned: Slot, a: Answer)
    ensures Wire(SendOwned(s, owned, a).events) == FrameSent(s, false, a)
    ensures Flushes(SendOwned(s, owned, a).events) == 0
  {
    InsertionEvents(s, owned, a);
    if s.cached.Some? {
      SendEventsWire(s, s.cached.value, false, a);
    }
  }

  /** Which events one flush causes: the look-ahead part's, then the flush notice. */
  lemma FlushEvents(s: Sink, a: Answer)
    ensures var sent := if Tries(s)
                        then SendEvents(s, s.cached.value, true, a) else [];
            Flush(s, a).events ==
            if s.observed && s.state != FLUSHED && Flush(s, a).post.state == FLUSHED
            then sent + [OnFlush] else sent
  {
  }

  lemma FlushWire(s: Sink, a: Answer)
    ensures Wire(Flush(s, a).events) == FrameSent(s, true, a)
    ensures Flushes(Flush(s, a).events) ==
            if s.observed && s.state != FLUSHED && Flush(s, a).post.state == FLUSHED then 1 else 0
  {
    FlushEvents(s, a);
    NothingSeen();
    hide Flush, Wire, Flushes, Announced;
    var none: seq<Event> := [];
    WireSnoc(none, OnFlush);
    assert none + [OnFlush] == [OnFlush];
    if s.cached.Some? {
      SendEventsWire(s, s.cached.value, true, a);
      WireSnoc(SendEvents(s, s.cached.value, true, a), OnFlush);
    }
  }

  lemma InsertionReachable(s: Sink, owned: Slot, a: Answer, w: seq<Frame>)
    requires Reachable(s, w)
    ensures Reachable(SendOwned(s, owned, a).post, w + FrameSent(s, false, a))
  {
    assert w + [] == w;
  }

  lemma FlushReachable(s: Sink, a: Answer, w: seq<Frame>)
    requires Reachable(s, w)
    ensures Reachable(Flush(s, a).post, w + FrameSent(s, true, a))
  {
    assert w + [] == w;
  }

  /** Where the look-ahead part and the new part are after the first send was due. */
  lemma FirstInsertion(s: Sink, owned: Slot, a: Answer)
    requires s.state == NOTSENT && s.cached.Some? && s.queue.None?
    ensures var e, f := SendOwned(s, owned, a), FrameSent(s, false, a);
            || (f != [] && e.lost == [] && e.owned.None? && e.post.cached == owned && e.post.queue.None?)
            || (f == [] && e.lost == [] && e.owned.None? && e.post.cached.None? &&
                e.post.queue == Some([s.cached, owned]))
            || (f == [] && e.lost == [] && e.owned == owned && e.post.cached == s.cached && e.post.queue.None?)
            || (f == [] && e.lost == [s.cached.value] && e.owned == owned && e.post.cached.None? && e.post.queue.None?)
  {
    assert [s.cached] + [owned] == [s.cached, owned];
  }

  lemma FirstInsertionConserves(s: Sink, owned: Slot, a: Answer)
    requires s.state == NOTSENT && s.queue.None?
    ensures var e := SendOwned(s, owned, a);
            Held(s) + (if e.owned.None? then Optional(owned) else []) ==
            e.lost + ContentsOf(FrameSent(s, false, a)) + Held(e.post)
  {
    if s.cached.Some? {
      FirstInsertion(s, owned, a);
      ContentsPair(s.cached, owned);
    }
  }

  lemma LaterInsertionConserves(s: Sink, owned: Slot, a: Answer)
    requires s.state == SENDING && s.queue.None?
    ensures var e := SendOwned(s, owned, a);
            && Held(s) + (if e.owned.None? then Optional(owned) else []) ==
               ContentsOf(FrameSent(s, false, a)) + Held(e.post)
            && e.lost == []
  {
  }

  lemma OtherInsertionConserves(s: Sink, owned: Slot, a: Answer, w: seq<Frame>)
    requires Reachable(s, w) && s.state != NOTSENT && s.state != SENDING
    ensures var e := SendOwned(s, owned, a);
            && Held(s) + (if e.owned.None? then Optional(owned) else []) ==
               e.lost + ContentsOf(FrameSent(s, false, a)) + Held(e.post)
            && e.lost == []
  {
    if s.queue.Some? {
      ContentsSnoc(s.queue.value, owned);
    }
  }

  /** Taking a part in moves nothing else: what was held and the new part are together what
      was given up, what went out and what is held now. */
  lemma InsertionConserves(s: Sink, owned: Slot, a: Answer, w: seq<Frame>)
    requires Reachable(s, w)
    ensures var e := SendOwned(s, owned, a);
            && Held(s) + (if e.owned.None? then Optional(owned) else []) ==
               e.lost + ContentsOf(FrameSent(s, false, a)) + Held(e.post)
            && (e.lost != [] ==> s.state == NOTSENT)
  {
    hide SendOwned, FrameSent;
    if s.state == NOTSENT {
      FirstInsertionConserves(s, owned, a);
    } else if s.state == SENDING {
      LaterInsertionConserves(s, owned, a);
    } else {
      OtherInsertionConserves(s, owned, a, w);
    }
  }

  lemma FlushConserves(s: Sink, a: Answer, w: seq<Frame>)
    requires Reachable(s, w)
    ensures var e := Flush(s, a);
            && Held(s) == e.lost + ContentsOf(FrameSent(s, true, a)) + Held(e.post)
            && (e.lost != [] ==> s.state == NOTSENT)
  {
    if s.state == NOTSENT && s.cached.Some? {
      FirstFlush(s, a);
      ContentsPair(s.cached, s.cached);
    }
  }

  /** The look-ahead part of an unsent message leaves by exactly one door. */
  lemma FirstFlush(s: Sink, a: Answer)
    requires s.state == NOTSENT && s.cached.Some? && s.queue.None?
    ensures var e := Flush(s, a);
            || (e.lost == [] && FrameSent(s, true, a) != [] && e.post.cached.None? && e.post.queue.None?)
            || (FrameSent(s, true, a) == [] && e.lost == [] && e.post.cached.None? && e.post.queue == Some([s.cached]))
            || (FrameSent(s, true, a) == [] && e.lost == [s.cached.value] && e.post.cached.None? && e.post.queue.None?)
            || (FrameSent(s, true, a) == [] && e.lost == [] && e.post.cached == s.cached && e.post.queue.None?)
  {
  }

  // --- whole runs ---------------------------------------------------------------------

  /** The joint invariant of a run from a fresh sink. */
  ghost predicate RunInvariant(r: RunResult) {
    && Reachable(r.post, Wire(r.events))
    && r.taken == r.lost + ContentsOf(Wire(r.events)) + r.released + Held(r.post)
    && (r.released != [] ==> Wire(r.events) == [] && (r.post.state == QUEUEING || r.post.state == FLUSHED))
    && Flushes(r.events) == (if r.post.observed && r.post.state == FLUSHED then 1 else 0)
  }

  lemma ContentsOfConcat(a: seq<Frame>, b: seq<Frame>)
    ensures ContentsOf(a + b) == ContentsOf(a) + ContentsOf(b)
  {
  }

  /** Rearranging what was taken over: parts are given up only before any went out, and
      detached only when none went out. */
  lemma Regroup<T>(taken: seq<T>, lost: seq<T>, w: seq<T>, released: seq<T>, held: seq<T>,
                   given: seq<T>, l: seq<T>, f: seq<T>, held': seq<T>)
    requires taken == lost + w + released + held
    requires held + given == l + f + held'
    requires l != [] ==> w == [] && released == []
    requires f != [] ==> released == []
    ensures taken + given == (lost + l) + (w + f) + released + held'
  {
    var x := lost + w + released;
    assert taken + given == x + (held + given);
    if l != [] {
      assert x == lost && w + f == f;
      assert x + (l + f + held') == (lost + l) + f + held';
    } else if f != [] {
      assert l + f == f && lost + l == lost && x == lost + w;
      assert x + (f + held') == lost + (w + f) + held';
    } else {
      assert l + f + held' == held' && lost + l == lost && w + f == w;
    }
  }

  /** What one effect does to the account of a run. */
  lemma Account(r: RunResult, held: seq<Content>, e: Effect, given: seq<Content>, f: seq<Frame>)
    requires r.taken == r.lost + ContentsOf(Wire(r.events)) + r.released + held
    requires Wire(e.events) == f && held + given == e.lost + ContentsOf(f) + Held(e.post)
    requires e.lost != [] ==> Wire(r.events) == [] && r.released == []
    requires f != [] ==> r.released == []
    ensures Wire(r.events + e.events) == Wire(r.events) + f
    ensures Flushes(r.events + e.events) == Flushes(r.events) + Flushes(e.events)
    ensures r.taken + given ==
            (r.lost + e.lost) + ContentsOf(Wire(r.events + e.events)) + r.released + Held(e.post)
  {
    WireConcat(r.events, e.events);
    ContentsOfConcat(Wire(r.events), f);
    Regroup(r.taken, r.lost, ContentsOf(Wire(r.events)), r.released, held,
            given, e.lost, ContentsOf(f), Held(e.post));
  }

  /** An insertion into `s`, the state in which the part arrives, after the run `r`. */
  lemma InsertionKeeps(r: RunResult, s: Sink, owned: Slot, a: Answer)
    requires RunInvariant(r)
    requires s == r.post || s == r.post.(pendingRouting := r.post.pendingRouting + 1)
    ensures var e := SendOwned(s, owned, a);
            var given := if owned.Some? && e.owned.None? then [owned.value] else [];
            RunInvariant(RunResult(e.post, r.events + e.events, r.taken + given, r.lost + e.lost,
                                   r.released, r.kept + [e.owned], r.ok && e.outcome == Done))
  {
    hide Wire, Flushes, Announced, SendOwned, ContentsOf, Contents, OpenUpToLast;
    var w, e := Wire(r.events), SendOwned(s, owned, a);
    InsertionConserves(s, owned, a, w);
    InsertionWire(s, owned, a);
    InsertionReachable(s, owned, a, w);
    InsertionStays(s, owned, a);
    Account(r, Held(s), e, if e.owned.None? then Optional(owned) else [], FrameSent(s, false, a));
  }

  lemma InsertionStays(s: Sink, owned: Slot, a: Answer)
    ensures var q := SendOwned(s, owned, a).post;
            && q.options == s.options && q.observed == s.observed
            && (q.state != s.state ==> s.state == NOTSENT && q.state != FLUSHED)
  {
  }

  lemma FlushKeeps(r: RunResult, a: Answer)
    requires RunInvariant(r)
    ensures var e := Flush(r.post, a);
            RunInvariant(RunResult(e.post, r.events + e.events, r.taken, r.lost + e.lost,
                                   r.released, r.kept + [e.owned], r.ok && e.outcome == Done))
  {
    hide Wire, Flushes, Announced, Flush, Held, ContentsOf, OpenUpToLast;
    FlushConserves(r.post, a, Wire(r.events));
    FlushWire(r.post, a);
    FlushReachable(r.post, a, Wire(r.events));
    FlushStays(r.post, a);
    assert Held(r.post) + [] == Held(r.post) && r.taken + [] == r.taken;
    Account(r, Held(r.post), Flush(r.post, a), [], FrameSent(r.post, true, a));
  }

  lemma FlushStays(s: Sink, a: Answer)
    ensures var q := Flush(s, a).post;
            && q.options == s.options && q.observed == s.observed
            && (s.state == FLUSHED ==> q.state == FLUSHED)
            && (q.state != s.state ==> q.state == FLUSHED || q.state == s.state)
  {
  }

  lemma DetachKeeps(r: RunResult)
    requires RunInvariant(r)
    ensures RunInvariant(WithCall(r, Detach))
  {
    hide Wire, Flushes, Contents, ContentsOf, OpenUpToLast;
    var s, q := r.post, WithCall(r, Detach);
    var x := r.lost + ContentsOf(Wire(r.events));
    assert q.events == r.events && q.lost == r.lost && q.taken == r.taken;
    if s.queue.Some? {
      assert Optional(s.cached) == [] && Held(s) == Contents(s.queue.value) && Held(q.post) == [];
      assert q.released == r.released + Held(s);
      assert x + r.released + Held(s) == x + q.released == x + q.released + [];
    } else {
      assert q.released == r.released && q.post == s;
    }
  }

  lemma InsertionStep(r: RunResult, s: Sink, c: Call)
    requires RunInvariant(r) && IsInsertion(c) && Step(r.post, c) == SendOwned(s, c.part, c.answer)
    requires s == r.post || s == r.post.(pendingRouting := r.post.pendingRouting + 1)
    ensures RunInvariant(WithCall(r, c))
  {
    hide Wire, Flushes, Announced, SendOwned, Reachable, Held, ContentsOf, Contents;
    var e := SendOwned(s, c.part, c.answer);
    var given := if c.part.Some? && e.owned.None? then [c.part.value] else [];
    InsertionKeeps(r, s, c.part, c.answer);
    assert Taken(c, e) == given && Released(r.post, c) == [];
    assert r.released + [] == r.released;
    assert WithCall(r, c) == RunResult(e.post, r.events + e.events, r.taken + given, r.lost + e.lost,
                                       r.released, r.kept + [e.owned], r.ok && e.outcome == Done);
  }

  lemma FlushStep(r: RunResult, a: Answer)
    requires RunInvariant(r)
    ensures RunInvariant(WithCall(r, Flushing(a)))
  {
    var e := Flush(r.post, a);
    FlushKeeps(r, a);
    assert r.released + [] == r.released && r.taken + [] == r.taken;
    assert WithCall(r, Flushing(a)) ==
           RunResult(e.post, r.events + e.events, r.taken, r.lost + e.lost,
                     r.released, r.kept + [e.owned], r.ok && e.outcome == Done);
  }

  /** Safety of every run: whatever the calls and the answers, the parts taken over are, in
      order, those given up before anything was sent, those on the wire, those detached and
      those still held; frames leave in that order with the flag on all but the last, and the
      flush notice comes at most once. */
  lemma {:induction false} EveryRunIsSafe(options: Options, observed: bool, calls: seq<Call>)
    ensures RunInvariant(Run(Init(options, observed), calls))
  {
    var s := Init(options, observed);
    if calls != [] {
      EveryRunIsSafe(options, observed, calls[..|calls| - 1]);
      var r := Run(s, calls[..|calls| - 1]);
      match calls[|calls| - 1] {
        case Route(_, _) =>
          InsertionStep(r, r.post.(pendingRouting := r.post.pendingRouting + 1), calls[|calls| - 1]);
        case Insert(_, _) => InsertionStep(r, r.post, calls[|calls| - 1]);
        case Flushing(a) => FlushStep(r, a);
        case Detach => DetachKeeps(r);
      }
    }
  }

  /** A part whose insertion throws stays with its caller, untouched; so do parts inserted
      into a dropped or flushed message. Every other part is taken over. */
  lemma WhoOwnsAfterInsertion(s: Sink, owned: Slot, a: Answer)
    ensures var e := SendOwned(s, owned, a);
            e.owned == if e.outcome != Done || e.post.state == DROPPING || e.post.state == FLUSHED
                       then owned else None
  {
  }

  lemma FinalStep(s: Sink, c: Call)
    requires s.state == DROPPING || (s.state == FLUSHED && s.cached.None?)
    ensures var e := Step(s, c);
            && e.events == [] && Taken(c, e) == [] && e.lost == [] && e.outcome == Done
            && e.post.state == s.state && e.post.cached == s.cached
  {
  }

  /** Dropped and flushed messages stay so: no call sends, announces or takes anything. */
  lemma {:induction false} DroppedAndFlushedAreFinal(s: Sink, calls: seq<Call>)
    requires s.state == DROPPING || (s.state == FLUSHED && s.cached.None?)
    ensures var r := Run(s, calls);
            r.events == [] && r.taken == [] && r.lost == [] && r.ok
            && r.post.state == s.state && r.post.cached == s.cached
  {
    hide Step;
    if calls != [] {
      DroppedAndFlushedAreFinal(s, calls[..|calls| - 1]);
      FinalStep(Run(s, calls[..|calls| - 1]).post, calls[|calls| - 1]);
    }
  }

  ghost predicate Subsequence<T>(a: seq<T>, b: seq<T>) {
    a == [] || (b != [] && (Subsequence(a, b[..|b| - 1]) ||
      (a[|a| - 1] == b[|b| - 1] && Subsequence(a[..|a| - 1], b[..|b| - 1]))))
  }

  function Offered(calls: seq<Call>): seq<Content> {
    if calls == [] then []
    else Offered(calls[..|calls| - 1]) +
         (var c := calls[|calls| - 1]; if IsInsertion(c) then Optional(c.part) else [])
  }

  /** After every run each part offered is the sink's or still its owner's, and not both. */
  lemma {:induction false} TakenOrKept(s: Sink, calls: seq<Call>)
    ensures multiset(Offered(calls)) == multiset(Run(s, calls).taken) + multiset(Contents(Run(s, calls).kept))
  {
    if calls != [] {
      var t, c := calls[..|calls| - 1], calls[|calls| - 1];
      var r := Run(s, t);
      TakenOrKept(s, t);
      OneTakenOrKept(r.post, c);
      ContentsSnoc(r.kept, Step(r.post, c).owned);
    }
  }

  lemma OneTakenOrKept(s: Sink, c: Call)
    ensures var e := Step(s, c);
            (if IsInsertion(c) then Optional(c.part) else []) == Taken(c, e) + Optional(e.owned)
  {
    match c
    case Route(p, a) => WhoOwnsAfterInsertion(s.(pendingRouting := s.pendingRouting + 1), p, a);
    case Insert(p, a) => WhoOwnsAfterInsertion(s, p, a);
    case _ =>
  }

  /** Every content has exactly one owner, in every run: its caller, the wire, a detached
      message, the queue or the look-ahead part, unless it was given up before the first
      frame. */
  lemma OneOwner(options: Options, observed: bool, calls: seq<Call>)
    ensures var r := Run(Init(options, observed), calls);
            multiset(Offered(calls)) ==
            multiset(Contents(r.kept)) + multiset(ContentsOf(Wire(r.events))) + multiset(r.released) +
            multiset(Held(r.post)) + multiset(r.lost)
  {
    hide Run, Wire, Offered, Contents, Held;
    EveryRunIsSafe(options, observed, calls);
    TakenOrKept(Init(options, observed), calls);
  }

  lemma SubsequenceSnoc<T>(a: seq<T>, b: seq<T>, x: T)
    requires Subsequence(a, b)
    ensures Subsequence(a, b + [x]) && Subsequence(a + [x], b + [x])
  {
    assert (b + [x])[..|b|] == b && (a + [x])[..|a|] == a;
  }

  /** Parts are taken over in the order offered, none twice. */
  lemma {:induction false} TakenInOrder(s: Sink, calls: seq<Call>)
    ensures Subsequence(Run(s, calls).taken, Offered(calls))
  {
    if calls != [] {
      var r, c := Run(s, calls[..|calls| - 1]), calls[|calls| - 1];
      TakenInOrder(s, calls[..|calls| - 1]);
      TakenStep(r, c, Offered(calls[..|calls| - 1]));
    }
  }

  lemma TakenStep(r: RunResult, c: Call, offered: seq<Content>)
    requires Subsequence(r.taken, offered)
    ensures Subsequence(WithCall(r, c).taken, offered + (if IsInsertion(c) then Optional(c.part) else []))
  {
    var given := Taken(c, Step(r.post, c));
    assert r.taken + [] == r.taken && offered + [] == offered;
    if IsInsertion(c) && c.part.Some? {
      SubsequenceSnoc(r.taken, offered, c.part.value);
      assert given == [] || given == [c.part.value];
    }
  }
}
