/** The outgoing state machine as a function: one call and one socket answer give
    the next state, what the outside sees and what became of the part. */
module SinkSpec {
  import opened Frames

  /** How the socket answers one send; a refused send leaves the part intact. */
  datatype Answer = Accepted | WouldBlock | Failed

  datatype Outcome =
    | Done
    | BlockedError      // thrown: the send would block
    | SocketError       // thrown: the socket failed
    | NoSuchPartError   // thrown: the requested part is missing or not owned
    | MessageFormatError
    | AssertionFailed   // an assert of the original does not hold

  /** What the socket and the send observer see, in the order they see it. */
  datatype Event =
    | OnSendPart(content: Content)
    | OnFlush
    | Attempt(content: Content, more: bool, noblock: bool, answer: Answer)

  datatype Options = Options(
    nonblock: bool, cacheOnBlock: bool, dropOnBlock: bool,
    copyIncoming: bool, emulateBlockSends: bool)

  datatype State = NOTSENT | SENDING | QUEUEING | DROPPING | FLUSHED

  datatype Sink = Sink(
    options: Options,
    observed: bool,
    state: State,
    cached: Slot,
    queue: Option<seq<Slot>>,
    pendingRouting: nat)

  /** `owned` is the caller's slot after the call; `lost` is what the sink gave up. */
  datatype Effect = Effect(
    post: Sink, events: seq<Event>, outcome: Outcome, owned: Slot, lost: seq<Content>)

  function Init(options: Options, observed: bool): Sink {
    Sink(options, observed, NOTSENT, None, None, 0)
  }

  function SendEvents(s: Sink, c: Content, last: bool, a: Answer): seq<Event> {
    (if s.observed && s.pendingRouting == 0 then [OnSendPart(c)] else []) +
    [Attempt(c, !last, s.options.nonblock, a)]
  }

  function Thrown(a: Answer): Outcome {
    match a
    case Accepted => Done
    case WouldBlock => BlockedError
    case Failed => SocketError
  }

  /** After an accepted send the part is still valid but empty. */
  function AfterAccepted(s: Sink): Sink {
    s.(cached := Some([]),
       pendingRouting := if s.pendingRouting > 0 then s.pendingRouting - 1 else 0)
  }

  /** Sending the looked-ahead part once the message is under way. */
  function DoSendOne(s: Sink, last: bool, a: Answer): Effect
    requires s.cached.Some?
  {
    Effect(if a == Accepted then AfterAccepted(s) else s,
           SendEvents(s, s.cached.value, last, a), Thrown(a), None, [])
  }

  /** What happens when the first send of a message would block. */
  function OnBlock(s: Sink, events: seq<Event>): Effect
    requires s.cached.Some?
  {
    if s.options.cacheOnBlock then
      Effect(s.(state := QUEUEING, queue := Some([s.cached]), cached := None), events, Done, None, [])
    else if s.options.dropOnBlock then
      Effect(s.(state := DROPPING), events, Done, None, [])
    else
      Effect(s, events, BlockedError, None, [])
  }

  function TrySendFirst(s: Sink, last: bool, a: Answer): Effect
    requires s.cached.Some?
  {
    if s.options.emulateBlockSends then OnBlock(s, [])
    else
      var events := SendEvents(s, s.cached.value, last, a);
      match a
      case Accepted => Effect(AfterAccepted(s).(state := SENDING), events, Done, None, [])
      case WouldBlock => OnBlock(s, events)
      case Failed => Effect(s.(cached := None), events, SocketError, None, [s.cached.value])
  }

  /** Inserting one part the sink may take over. */
  function SendOwned(s: Sink, owned: Slot, a: Answer): Effect {
    match s.state
    case NOTSENT =>
      if s.cached.None? then Effect(s.(cached := owned), [], Done, None, [])
      else
        var e := TrySendFirst(s, false, a);
        if e.outcome != Done then e.(owned := owned)
        else if e.post.state == SENDING then e.(post := e.post.(cached := owned))
        else if e.post.state == QUEUEING then
          e.(post := e.post.(queue := Some(e.post.queue.value + [owned])))
        else e.(owned := owned)
    case SENDING =>
      if s.cached.None? then Effect(s.(cached := owned), [], Done, None, [])
      else
        var e := DoSendOne(s, false, a);
        if e.outcome != Done then e.(owned := owned)
        else e.(post := e.post.(cached := owned))
    case QUEUEING =>
      if s.queue.None? then Effect(s, [], AssertionFailed, owned, [])
      else Effect(s.(queue := Some(s.queue.value + [owned])), [], Done, None, [])
    case DROPPING => Effect(s, [], Done, owned, [])
    case FLUSHED => Effect(s, [], Done, owned, [])
  }

  /** The look-ahead part as `flush` deals with it. */
  function FlushCached(s: Sink, a: Answer): Effect {
    if s.cached.None? then Effect(s, [], Done, None, [])
    else
      var e := match s.state
               case NOTSENT => TrySendFirst(s, true, a)
               case SENDING => DoSendOne(s, true, a)
               case _ => Effect(s, [], Done, None, []);
      if e.outcome != Done then e
      else e.(post := e.post.(cached := None),
              lost := if e.post.state == DROPPING then [s.cached.value] else e.lost)
  }

  function Flush(s: Sink, a: Answer): Effect {
    if s.state == DROPPING then Effect(s, [], Done, None, [])
    else
      var e := FlushCached(s, a);
      if e.outcome != Done || e.post.state == FLUSHED then e
      else Effect(e.post.(state := FLUSHED),
                  e.events + (if s.observed then [OnFlush] else []), Done, None, e.lost)
  }

  // --- runs ---------------------------------------------------------------------------

  /** One public call together with the answer the socket would give during it. */
  datatype Call =
    | Route(part: Slot, answer: Answer)    // a routing part, sent by the constructor
    | Insert(part: Slot, answer: Answer)
    | Flushing(answer: Answer)             // also the destructor, which swallows the error
    | Detach

  function Step(s: Sink, c: Call): Effect {
    match c
    case Route(p, a) => SendOwned(s.(pendingRouting := s.pendingRouting + 1), p, a)
    case Insert(p, a) => SendOwned(s, p, a)
    case Flushing(a) => Flush(s, a)
    case Detach => Effect(s.(queue := None), [], Done, None, [])
  }

  predicate IsInsertion(c: Call) {
    c.Route? || c.Insert?
  }

  /** The content a call takes over from its caller. */
  function Taken(c: Call, e: Effect): seq<Content> {
    if IsInsertion(c) && c.part.Some? && e.owned.None? then [c.part.value] else []
  }

  function Released(s: Sink, c: Call): seq<Content> {
    if c.Detach? && s.queue.Some? then Contents(s.queue.value) else []
  }

  /** `kept` holds the callers' slots after each call; `ok` says that nothing was thrown. */
  datatype RunResult = RunResult(
    post: Sink, events: seq<Event>, taken: seq<Content>, lost: seq<Content>,
    released: seq<Content>, kept: seq<Slot>, ok: bool)

  function WithCall(r: RunResult, c: Call): RunResult {
    var e := Step(r.post, c);
    RunResult(e.post, r.events + e.events, r.taken + Taken(c, e), r.lost + e.lost,
              r.released + Released(r.post, c), r.kept + [e.owned], r.ok && e.outcome == Done)
  }

  function Run(s: Sink, calls: seq<Call>): RunResult {
    if calls == [] then RunResult(s, [], [], [], [], [], true)
    else WithCall(Run(s, calls[..|calls| - 1]), calls[|calls| - 1])
  }

  // --- projections of what happened ---------------------------------------------------

  function WireOf(e: Event): seq<Frame> {
    if e.Attempt? && e.answer == Accepted then [Frame(e.content, e.more)] else []
  }

  /** The frames the socket accepted. */
  function Wire(events: seq<Event>): seq<Frame> {
    if events == [] then []
    else Wire(events[..|events| - 1]) + WireOf(events[|events| - 1])
  }

  /** The contents announced to the observer. */
  function Announced(events: seq<Event>): seq<Content> {
    if events == [] then []
    else Announced(events[..|events| - 1]) +
         (match events[|events| - 1] case OnSendPart(c) => [c] case _ => [])
  }

  function Flushes(events: seq<Event>): nat {
    if events == [] then 0
    else Flushes(events[..|events| - 1]) + (if events[|events| - 1] == OnFlush then 1 else 0)
  }

  /** How often the socket was asked to take a part. */
  function Attempts(events: seq<Event>): nat {
    if events == [] then 0
    else Attempts(events[..|events| - 1]) + (if events[|events| - 1].Attempt? then 1 else 0)
  }

  lemma AttemptsSnoc(t: seq<Event>, e: Event)
    ensures Attempts(t + [e]) == Attempts(t) + (if e.Attempt? then 1 else 0)
  {
    assert (t + [e])[..|t|] == t;
  }

  lemma {:induction false} AttemptsConcat(a: seq<Event>, b: seq<Event>)
    ensures Attempts(a + b) == Attempts(a) + Attempts(b)
  {
    if b == [] {
      assert a + b == a;
    } else {
      var t, e := b[..|b| - 1], b[|b| - 1];
      assert b == t + [e] && a + b == (a + t) + [e];
      AttemptsConcat(a, t);
      AttemptsSnoc(t, e);
      AttemptsSnoc(a + t, e);
    }
  }

  function ContentsOf(fs: seq<Frame>): seq<Content> {
    seq(|fs|, i requires 0 <= i < |fs| => fs[i].content)
  }

  lemma NothingSeen()
    ensures Wire([]) == [] && Announced([]) == [] && Flushes([]) == 0
  {
  }

  lemma WireSnoc(t: seq<Event>, e: Event)
    ensures Wire(t + [e]) == Wire(t) + WireOf(e)
    ensures Announced(t + [e]) == Announced(t) + (match e case OnSendPart(c) => [c] case _ => [])
    ensures Flushes(t + [e]) == Flushes(t) + (if e == OnFlush then 1 else 0)
  {
    assert (t + [e])[..|t|] == t;
  }

  lemma {:induction false} WireConcat(a: seq<Event>, b: seq<Event>)
    ensures Wire(a + b) == Wire(a) + Wire(b)
    ensures Announced(a + b) == Announced(a) + Announced(b)
    ensures Flushes(a + b) == Flushes(a) + Flushes(b)
  {
    if b == [] {
      assert a + b == a;
    } else {
      var t, e := b[..|b| - 1], b[|b| - 1];
      assert b == t + [e] && a + b == (a + t) + [e];
      WireConcat(a, t);
      WireSnoc(t, e);
      WireSnoc(a + t, e);
    }
  }

  lemma RunNothing(s: Sink)
    ensures Run(s, []) == RunResult(s, [], [], [], [], [], true)
  {
  }

  /** A run and one more call. */
  lemma RunSnoc(s: Sink, calls: seq<Call>, c: Call)
    ensures Run(s, calls + [c]) == WithCall(Run(s, calls), c)
  {
    assert (calls + [c])[..|calls|] == calls;
  }

  function Join(r: RunResult, q: RunResult): RunResult {
    RunResult(q.post, r.events + q.events, r.taken + q.taken, r.lost + q.lost,
              r.released + q.released, r.kept + q.kept, r.ok && q.ok)
  }

  /** Running `a` and then `b` from where it ended is running both. */
  lemma {:induction false} RunConcat(s: Sink, a: seq<Call>, b: seq<Call>)
    ensures Run(s, a + b) == Join(Run(s, a), Run(Run(s, a).post, b))
  {
    var r := Run(s, a);
    if b == [] {
      assert a + b == a;
    } else {
      var t, c := b[..|b| - 1], b[|b| - 1];
      assert b == t + [c] && a + b == (a + t) + [c];
      RunConcat(s, a, t);
      RunSnoc(s, a + t, c);
      RunSnoc(r.post, t, c);
      JoinAssociates(r, Run(r.post, t), c);
    }
  }

  lemma JoinAssociates(r: RunResult, q: RunResult, c: Call)
    ensures Join(r, WithCall(q, c)) == WithCall(Join(r, q), c)
  {
    hide Step, Run, Contents;
    var e := Step(q.post, c);
    assert r.events + (q.events + e.events) == (r.events + q.events) + e.events;
    assert r.taken + (q.taken + Taken(c, e)) == (r.taken + q.taken) + Taken(c, e);
    assert r.lost + (q.lost + e.lost) == (r.lost + q.lost) + e.lost;
    assert r.released + (q.released + Released(q.post, c)) == (r.released + q.released) + Released(q.post, c);
    assert r.kept + (q.kept + [e.owned]) == (r.kept + q.kept) + [e.owned];
  }
}
