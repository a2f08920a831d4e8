/** Complete outgoing messages: the routing, sent first, the user's parts, the flush. */
module Outgoings {
  import opened Frames
  import opened Parts
  import opened PartsStorage
  import opened SinkSpec
  import opened Sockets
  import opened Transmissions
  import Sinks
  import SinkSafety

  function AnswersOf(calls: seq<Call>): seq<Answer> {
    seq(|calls|, i requires 0 <= i < |calls| => if calls[i].Detach? then Accepted else calls[i].answer)
  }

  /** The calls begin the transmission of an envelope and a body. */
  ghost predicate Begun(calls: seq<Call>, envelope: seq<Content>, body: seq<Content>) {
    var parts := envelope + body;
    && parts != [] && |calls| <= |parts| + 1
    && forall i :: 0 <= i < |calls| ==>
         if i < |envelope| then calls[i].Route? && calls[i].part == Some(parts[i])
         else if i < |parts| then calls[i].Insert? && calls[i].part == Some(parts[i])
         else calls[i].Flushing?
  }

  /** The transmission the calls begin; which answers the rest would get does not matter. */
  function PlanOf(options: Options, observed: bool, envelope: seq<Content>, body: seq<Content>, calls: seq<Call>): Plan
    requires |calls| <= |envelope + body| + 1
  {
    Plan(options, observed, envelope, body,
         AnswersOf(calls) + seq(|envelope + body| + 1 - |calls|, _ => Accepted))
  }

  lemma BegunIsPlan(options: Options, observed: bool, envelope: seq<Content>, body: seq<Content>, calls: seq<Call>)
    requires Begun(calls, envelope, body)
    ensures var p, r := PlanOf(options, observed, envelope, body, calls), Run(Init(options, observed), calls);
            && p.Valid() && p.After(|calls|) == r
            && (!r.ok ==> !p.Whole().ok)
  {
    hide Run, Step;
    var p := PlanOf(options, observed, envelope, body, calls);
    assert p.Calls(|calls|) == calls;
    if !p.After(|calls|).ok {
      ThrownStays(p, |calls|, |p.answers|);
    }
  }

  /** A transmission carried out to its end or to the first error is that of a plan. */
  lemma Transmitted(options: Options, observed: bool, envelope: seq<Content>, body: seq<Content>, calls: seq<Call>)
    requires Begun(calls, envelope, body)
    requires Run(Init(options, observed), calls).ok ==> |calls| == |envelope| + |body| + 1
    ensures var p, r := PlanOf(options, observed, envelope, body, calls), Run(Init(options, observed), calls);
            p.Valid() && (p.Whole().ok <==> r.ok) && (r.ok ==> p.Whole() == r)
  {
    hide Run, Step;
    BegunIsPlan(options, observed, envelope, body, calls);
  }

  /** Every call asks the socket at most once, the first never. */
  lemma {:induction false} AtMostOneEach(options: Options, observed: bool, calls: seq<Call>)
    ensures Attempts(Run(Init(options, observed), calls).events) <= if calls == [] then 0 else |calls| - 1
  {
    hide Attempts, Step, Run;
    var s := Init(options, observed);
    RunNothing(s);
    NoAttempts();
    if calls != [] {
      var t, c := calls[..|calls| - 1], calls[|calls| - 1];
      assert calls == t + [c];
      RunSnoc(s, t, c);
      AttemptsConcat(Run(s, t).events, Step(Run(s, t).post, c).events);
      if t == [] {
        FirstCall(options, observed, c);
      } else {
        AtMostOneEach(options, observed, t);
        AtMostOne(Run(s, t).post, c);
      }
    }
  }

  /** The first call only looks at its part. */
  lemma FirstCall(options: Options, observed: bool, c: Call)
    ensures Attempts(Step(Init(options, observed), c).events) == 0
    ensures Step(Init(options, observed), c).outcome == Done
  {
    NoAttempts();
    AttemptsSnoc([], OnFlush);
  }

  lemma NoAttempts()
    ensures Attempts([]) == 0
  {
  }

  lemma AtMostOne(s: SinkSpec.Sink, c: Call)
    ensures Attempts(Step(s, c).events) <= 1
  {
    match c {
      case Route(p, a) => InsertedOnce(s.(pendingRouting := s.pendingRouting + 1), p, a);
      case Insert(p, a) => InsertedOnce(s, p, a);
      case Flushing(a) =>
        SinkSafety.FlushEvents(s, a);
        if s.cached.Some? {
          SentOnce(s, s.cached.value, true, a);
        }
        NoAttempts();
        AttemptsSnoc([], OnFlush);
      case Detach =>
    }
  }

  lemma InsertedOnce(s: SinkSpec.Sink, p: Slot, a: Answer)
    ensures Attempts(SendOwned(s, p, a).events) <= 1
  {
    SinkSafety.InsertionEvents(s, p, a);
    if s.cached.Some? {
      SentOnce(s, s.cached.value, false, a);
    }
  }

  lemma SentOnce(s: SinkSpec.Sink, c: Content, last: bool, a: Answer)
    ensures var e := SendEvents(s, c, last, a); Attempts(e) == 1 && Attempts(e + [OnFlush]) == 1
  {
    hide Attempts;
    var pre := if s.observed && s.pendingRouting == 0 then [OnSendPart(c)] else [];
    NoAttempts();
    AttemptsSnoc([], OnSendPart(c));
    assert [] + [OnSendPart(c)] == [OnSendPart(c)];
    AttemptsSnoc(pre, Attempt(c, !last, s.options.nonblock, a));
    AttemptsSnoc(SendEvents(s, c, last, a), OnFlush);
  }

  // --- what a transmission comes to ---------------------------------------------------

  /** The first send of a message is refused for now, or is not tried. */
  predicate Blocks(options: Options, answers: nat -> Answer, n: nat) {
    options.emulateBlockSends || answers(n) == WouldBlock
  }

  /** No error while sending so many parts from the `n`-th send on. */
  ghost predicate Goes(options: Options, answers: nat -> Answer, n: nat, parts: nat) {
    if Blocks(options, answers, n) then options.cacheOnBlock || options.dropOnBlock
    else Accepting(answers, n, parts)
  }

  predicate IsDropped(options: Options, answers: nat -> Answer, n: nat) {
    Blocks(options, answers, n) && !options.cacheOnBlock && options.dropOnBlock
  }

  /** How many sends that takes. */
  function SendsTaken(options: Options, answers: nat -> Answer, n: nat, parts: nat): nat {
    if !Blocks(options, answers, n) then parts else if options.emulateBlockSends then 0 else 1
  }

  /** Where the parts are after it: on the wire as one message, or all in the queue, or
      dropped. */
  ghost predicate Landed(options: Options, answers: nat -> Answer, n: nat, parts: seq<Content>,
                         queue: Option<seq<Slot>>, frames: seq<Frame>) {
    if !Blocks(options, answers, n) then queue.None? && frames == Message(parts)
    else frames == [] && queue == if options.cacheOnBlock then Some(Slots(parts)) else None
  }

  lemma OnePartAsked(p: Plan, i: nat, last: bool)
    requires i < |p.Parts()|
    ensures Attempts(p.PartEvents(i, last)) == 1 && Attempts(p.PartEvents(i, last) + [OnFlush]) == 1
  {
    hide Attempts;
    var c := p.Parts()[i];
    var notice := if p.observed && i >= |p.routing| then [OnSendPart(c)] else [];
    NoAttempts();
    AttemptsSnoc([], OnSendPart(c));
    assert [] + [OnSendPart(c)] == [OnSendPart(c)];
    AttemptsSnoc(notice, Attempt(c, !last, p.options.nonblock, Accepted));
    AttemptsSnoc(p.PartEvents(i, last), OnFlush);
  }

  /** Sent directly, every part takes one send. */
  lemma {:induction false} ProgressAsked(p: Plan, m: nat)
    requires m <= |p.Parts()|
    ensures Attempts(p.Progress(m)) == m
  {
    hide Attempts, Plan.PartEvents;
    NoAttempts();
    if m > 0 {
      ProgressAsked(p, m - 1);
      OnePartAsked(p, m - 1, false);
      AttemptsConcat(p.Progress(m - 1), p.PartEvents(m - 1, false));
    }
  }

  lemma DirectAsked(p: Plan)
    requires p.Valid()
    ensures Attempts(p.DirectEvents()) == |p.Parts()|
  {
    hide Attempts, Plan.PartEvents, Plan.Progress;
    var n := |p.Parts()|;
    ProgressAsked(p, n - 1);
    OnePartAsked(p, n - 1, true);
    AttemptsConcat(p.Progress(n - 1), p.PartEvents(n - 1, true));
    AttemptsSnoc(p.Progress(n - 1) + p.PartEvents(n - 1, true), OnFlush);
    assert p.Progress(n - 1) + p.PartEvents(n - 1, true) + [] == p.Progress(n - 1) + p.PartEvents(n - 1, true);
  }

  /** Held back, the message took one send, or none if blocking is emulated. */
  lemma BlockedAsked(p: Plan)
    requires p.Valid() && p.FirstSendBlocks() && p.Whole().ok
    ensures Attempts(p.Whole().events) == if p.options.emulateBlockSends then 0 else 1
  {
    hide Run, Step, Attempts, Wire;
    var n := |p.Parts()|;
    AllOrNothing(p);
    CallsSnoc(p, n);
    AttemptsConcat(p.After(n).events, Step(p.After(n).post, p.CallAt(n)).events);
    NoAttempts();
    if n == 1 {
      DirectPrefix(p, 1);
      FlushAsked(p.SendingAt(1), p.answers[1]);
    } else {
      DivertedAsked(p, n);
      DivertedPrefix(p, n);
      FlushAsked(p.After(n).post, p.answers[n]);
    }
  }

  lemma FlushAsked(s: SinkSpec.Sink, a: Answer)
    ensures Attempts(Step(s, Flushing(a)).events) ==
            if SinkSafety.Tries(s) then 1 else 0
  {
    SinkSafety.FlushEvents(s, a);
    NoAttempts();
    AttemptsSnoc([], OnFlush);
    if s.cached.Some? {
      SentOnce(s, s.cached.value, true, a);
    }
  }

  lemma InsertionAsked(s: SinkSpec.Sink, p: Slot, a: Answer)
    ensures Attempts(SendOwned(s, p, a).events) ==
            if SinkSafety.Tries(s) then 1 else 0
  {
    SinkSafety.InsertionEvents(s, p, a);
    NoAttempts();
    if s.cached.Some? {
      SentOnce(s, s.cached.value, false, a);
    }
  }

  lemma {:induction false} DivertedAsked(p: Plan, k: nat)
    requires p.Valid() && p.FirstSendBlocks() && 1 < k <= |p.Parts()|
    requires p.options.cacheOnBlock || p.options.dropOnBlock
    ensures Attempts(p.After(k).events) == if p.options.emulateBlockSends then 0 else 1
  {
    hide Run, Attempts, Wire, SendOwned;
    CallsSnoc(p, k - 1);
    AttemptsConcat(p.After(k - 1).events, Step(p.After(k - 1).post, p.CallAt(k - 1)).events);
    NoAttempts();
    if k == 2 {
      var s := p.SendingAt(1);
      DirectPrefix(p, 1);
      InsertionAsked(s, Some(p.Parts()[1]), p.answers[1]);
      InsertionAsked(s.(pendingRouting := s.pendingRouting + 1), Some(p.Parts()[1]), p.answers[1]);
    } else {
      DivertedAsked(p, k - 1);
      DivertedPrefix(p, k - 1);
      DivertedStep(p, k - 1, p.After(k - 1).post);
    }
  }

  /** The answers of the plan, from the second on, are what the socket says. */
  lemma AskedAt(dst: OutSocket, log: seq<Event>, options: Options, observed: bool,
                envelope: seq<Content>, body: seq<Content>, calls: seq<Call>, i: nat)
    requires Begun(calls, envelope, body) && Sinks.Asked(dst, Attempts(log), Init(options, observed), calls)
    requires 0 < i < |calls|
    ensures var p := PlanOf(options, observed, envelope, body, calls);
            && p.Valid() && p.Calls(i) == calls[..i] && Attempts(p.After(i).events) < i
            && p.answers[i] == dst.answers(Attempts(log) + Attempts(p.After(i).events))
  {
    hide Run, Attempts;
    var p := PlanOf(options, observed, envelope, body, calls);
    assert p.Calls(i) == calls[..i];
    AtMostOneEach(options, observed, calls[..i]);
  }

  lemma SecondCallAsked(dst: OutSocket, log: seq<Event>, options: Options, observed: bool,
                        envelope: seq<Content>, body: seq<Content>, calls: seq<Call>, o: Outcome)
    requires Begun(calls, envelope, body) && Sinks.Asked(dst, Attempts(log), Init(options, observed), calls)
    requires Sinks.EndsWith(Init(options, observed), calls, o)
    requires o == Done ==> |calls| == |envelope| + |body| + 1
    ensures var p := PlanOf(options, observed, envelope, body, calls);
            p.Valid() && (p.FirstSendBlocks() <==> Blocks(options, dst.answers, Attempts(log)))
  {
    hide Run, Step, Attempts, Wire;
    if calls != [] {
      RunNothing(Init(options, observed));
      FirstCall(options, observed, calls[0]);
      assert calls[..0] == [];
    }
    AskedAt(dst, log, options, observed, envelope, body, calls, 1);
  }

  /** When nothing blocks, the plan's sends are all accepted if and only if the socket accepts
      so many. */
  lemma AcceptedByPlan(dst: OutSocket, log: seq<Event>, options: Options, observed: bool,
                       envelope: seq<Content>, body: seq<Content>, calls: seq<Call>)
    requires Begun(calls, envelope, body) && Sinks.Asked(dst, Attempts(log), Init(options, observed), calls)
    requires !options.emulateBlockSends && Accepting(dst.answers, Attempts(log), |envelope| + |body|)
    ensures var p := PlanOf(options, observed, envelope, body, calls);
            p.Valid() && p.AllAccepted(|p.answers|)
  {
    hide Run, Step, Attempts, Begun, Sinks.Asked, Plan.After;
    PlanIsValid(options, observed, envelope, body, calls);
    var p := PlanOf(options, observed, envelope, body, calls);
    forall i | 1 <= i < |p.answers| ensures p.answers[i] == Accepted {
      if i < |calls| {
        AskedAt(dst, log, options, observed, envelope, body, calls, i);
      }
    }
  }

  lemma PlanIsValid(options: Options, observed: bool, envelope: seq<Content>, body: seq<Content>, calls: seq<Call>)
    requires Begun(calls, envelope, body)
    ensures |calls| <= |envelope + body| + 1 == |envelope| + |body| + 1
    ensures var p := PlanOf(options, observed, envelope, body, calls);
            p.Valid() && p.Parts() == envelope + body
  {
  }

  lemma AcceptedBySocket(dst: OutSocket, log: seq<Event>, options: Options, observed: bool,
                         envelope: seq<Content>, body: seq<Content>, calls: seq<Call>)
    requires Begun(calls, envelope, body) && Sinks.Asked(dst, Attempts(log), Init(options, observed), calls)
    requires |calls| == |envelope| + |body| + 1
    requires var p := PlanOf(options, observed, envelope, body, calls);
             p.Valid() && p.AllAccepted(|p.answers|)
    ensures Accepting(dst.answers, Attempts(log), |envelope| + |body|)
  {
    hide Run, Step, Attempts, Begun, Sinks.Asked, Plan.After, Plan.Progress, PlanOf;
    PlanIsValid(options, observed, envelope, body, calls);
    var p, n := PlanOf(options, observed, envelope, body, calls), Attempts(log);
    forall k | n <= k < n + |envelope| + |body| ensures dst.answers(k) == Accepted {
      var i := k - n + 1;
      AskedAt(dst, log, options, observed, envelope, body, calls, i);
      DirectPrefix(p, i);
      ProgressAsked(p, i - 1);
    }
  }

  /** What a transmission comes to is decided by the options and the socket's answers: whether
      there is an error, how many sends it takes, and where the parts are afterwards. */
  lemma TransmissionOutcome(dst: OutSocket, log: seq<Event>, options: Options, observed: bool,
                            envelope: seq<Content>, body: seq<Content>, calls: seq<Call>, o: Outcome)
    requires Begun(calls, envelope, body) && Sinks.Asked(dst, Attempts(log), Init(options, observed), calls)
    requires Sinks.EndsWith(Init(options, observed), calls, o)
    requires o == Done ==> |calls| == |envelope| + |body| + 1
    ensures var n, m, r := Attempts(log), |envelope| + |body|, Run(Init(options, observed), calls);
            && (o == Done <==> Goes(options, dst.answers, n, m))
            && (o == Done ==>
                && Attempts(log + r.events) == n + SendsTaken(options, dst.answers, n, m)
                && Landed(options, dst.answers, n, envelope + body, r.post.queue, Wire(r.events)))
  {
    PlanIsValid(options, observed, envelope, body, calls);
    hide Run, Step, Attempts, Begun, Sinks.Asked, Sinks.EndsWith, Accepting, Wire, Announced, Plan.DirectEvents, Framed;
    var p, r := PlanOf(options, observed, envelope, body, calls), Run(Init(options, observed), calls);
    EndedOk(options, observed, calls, o);
    SecondCallAsked(dst, log, options, observed, envelope, body, calls, o);
    Transmitted(options, observed, envelope, body, calls);
    AllOrNothing(p);
    AttemptsConcat(log, r.events);
    if p.FirstSendBlocks() {
      if o == Done {
        BlockedAsked(p);
      }
    } else {
      if Goes(options, dst.answers, Attempts(log), |envelope| + |body|) {
        AcceptedByPlan(dst, log, options, observed, envelope, body, calls);
      }
      if o == Done {
        AcceptedBySocket(dst, log, options, observed, envelope, body, calls);
        DirectAsked(p);
        DirectSeen(p);
      }
    }
  }

  lemma EndedOk(options: Options, observed: bool, calls: seq<Call>, o: Outcome)
    requires Sinks.EndsWith(Init(options, observed), calls, o)
    ensures Run(Init(options, observed), calls).ok <==> o == Done
  {
  }

  lemma BegunRouted(useCopy: bool, calls: seq<Call>, envelope: seq<Content>, body: seq<Content>,
                    kept: seq<Slot>, after: seq<Slot>)
    requires envelope != [] && Sinks.Sent(calls, Slots(envelope), useCopy, true, kept, after)
    ensures Begun(calls, envelope, body) && |calls| <= |envelope|
  {
  }

  lemma RoutedKept(useCopy: bool, calls: seq<Call>, envelope: seq<Content>, kept: seq<Slot>, after: seq<Slot>)
    requires Sinks.Sent(calls, Slots(envelope), useCopy, true, kept, after)
    ensures !useCopy && |calls| == |envelope| ==> after == kept
  {
  }

  /** `part` is what comes in `body` after its first `m` parts. */
  predicate PartOf(part: seq<Content>, body: seq<Content>, m: nat) {
    m + |part| <= |body| && part == body[m..m + |part|]
  }

  lemma BegunMore(first: seq<Call>, calls: seq<Call>, envelope: seq<Content>, body: seq<Content>,
                  part: seq<Content>, m: nat)
    requires Begun(first, envelope, body) && |first| == |envelope| + m && PartOf(part, body, m)
    requires |calls| <= |part|
    requires forall i :: 0 <= i < |calls| ==> calls[i].Insert? && calls[i].part == Some(part[i])
    ensures Begun(first + calls, envelope, body)
  {
    var parts := envelope + body;
    assert forall i :: 0 <= i < |calls| ==> parts[|first| + i] == part[i];
  }

  lemma BegunSent(first: seq<Call>, calls: seq<Call>, envelope: seq<Content>, body: seq<Content>,
                  part: seq<Content>, m: nat, kept: seq<Slot>, after: seq<Slot>)
    requires Begun(first, envelope, body) && |first| == |envelope| + m && PartOf(part, body, m)
    requires Sinks.Sent(calls, Slots(part), false, false, kept, after)
    ensures Begun(first + calls, envelope, body) && |calls| <= |part|
  {
    hide Begun;
    BegunMore(first, calls, envelope, body, part, m);
  }

  lemma BegunRelayed(first: seq<Call>, calls: seq<Call>, envelope: seq<Content>, body: seq<Content>,
                     part: seq<Content>, m: nat, left: seq<Content>)
    requires Begun(first, envelope, body) && |first| == |envelope| + m && PartOf(part, body, m)
    requires Sinks.Relayed(calls, part, left)
    ensures Begun(first + calls, envelope, body) && |calls| == |part| - |left|
  {
    hide Begun;
    BegunMore(first, calls, envelope, body, part, m);
  }

  lemma BegunFlushed(calls: seq<Call>, envelope: seq<Content>, body: seq<Content>, c: Call)
    requires Begun(calls, envelope, body) && |calls| == |envelope| + |body| && c.Flushing?
    ensures Begun(calls + [c], envelope, body)
  {
  }

  /** A new outgoing message, its envelope, or the delimiter alone, sent first. */
  method Open(dst: OutSocket, options: Options, observed: bool, incoming: DynamicPartsStorage?,
              routing: seq<Part>, ghost envelope: seq<Content>, ghost body: seq<Content>)
    returns (o: Outcome, sink: Sinks.Sink, ghost calls: seq<Call>)
    requires Distinct(routing)
    requires if routing == [] then envelope == [[]] else SlotsOf(routing) == Slots(envelope)
    modifies dst, routing
    ensures sink.Valid() && fresh(sink.Own()) && sink.dst == dst
    ensures Begun(calls, envelope, body) && sink.So(Init(options, observed), calls, old(dst.timeline), o)
    ensures o == Done ==> UnderWay(sink, Init(options, observed), calls, old(dst.timeline), envelope, body, 0)
    ensures o == Done ==> |calls| == |envelope|
    ensures options.copyIncoming ==> SlotsOf(routing) == old(SlotsOf(routing))
    ensures !options.copyIncoming && routing != [] && o == Done ==>
              SlotsOf(routing) == Run(Init(options, observed), calls).kept
  {
    hide Run, Step, Attempts, Sinks.Asked, Sinks.Sent, Contents, CapacityAfter, MovedAfter;
    sink := new Sinks.Sink(dst, options, observed, incoming);
    o, calls := sink.SendRouting(routing);
    if routing != [] {
      ghost var kept := Run(Init(options, observed), calls).kept;
      BegunRouted(options.copyIncoming, calls, envelope, body, kept, SlotsOf(routing));
      RoutedKept(options.copyIncoming, calls, envelope, kept, SlotsOf(routing));
    }
  }

  /** A message under way: the calls made so far, `m` of them for parts of the body. */
  ghost predicate UnderWay(sink: Sinks.Sink, s: SinkSpec.Sink, calls: seq<Call>, log: seq<Event>,
                           envelope: seq<Content>, body: seq<Content>, m: nat)
    reads sink, sink.queue, sink.Own(), sink.dst
  {
    && sink.Valid() && (sink.state == QUEUEING ==> sink.queue != null) && sink.So(s, calls, log, Done)
    && Begun(calls, envelope, body) && |calls| == |envelope| + m
  }

  /** The next parts of the body, up to the first error. */
  method InsertParts(sink: Sinks.Sink, user: seq<Part>, ghost s: SinkSpec.Sink, ghost first: seq<Call>,
                     ghost log: seq<Event>, ghost envelope: seq<Content>, ghost body: seq<Content>,
                     ghost part: seq<Content>, ghost m: nat)
    returns (o: Outcome, ghost calls: seq<Call>)
    requires UnderWay(sink, s, first, log, envelope, body, m) && PartOf(part, body, m)
    requires Distinct(user) && (forall p :: p in user ==> p !in sink.Own()) && SlotsOf(user) == Slots(part)
    modifies sink.Own(), sink.dst, user
    ensures sink.Valid() && fresh(sink.Own() - old(sink.Own()))
    ensures Begun(calls, envelope, body) && sink.So(s, calls, log, o)
    ensures o == Done ==> UnderWay(sink, s, calls, log, envelope, body, m + |part|)
    ensures first <= calls
  {
    hide Run, Step, Attempts, Sinks.Sink.So, Sinks.Sent, Begun, Slots, SlotsOf, PartOf;
    ghost var more, kept;
    o, more, kept := SendMore(sink, user, s, first, log, part);
    calls := first + more;
    BegunSent(first, more, envelope, body, part, m, kept, SlotsOf(user));
  }

  /** More parts, after calls that met no error. */
  method SendMore(sink: Sinks.Sink, user: seq<Part>, ghost s: SinkSpec.Sink, ghost first: seq<Call>,
                  ghost log: seq<Event>, ghost part: seq<Content>)
    returns (o: Outcome, ghost more: seq<Call>, ghost kept: seq<Slot>)
    requires sink.Valid() && (sink.state == QUEUEING ==> sink.queue != null) && sink.So(s, first, log, Done)
    requires Distinct(user) && (forall p :: p in user ==> p !in sink.Own()) && SlotsOf(user) == Slots(part)
    modifies sink.Own(), sink.dst, user
    ensures sink.Valid() && fresh(sink.Own() - old(sink.Own())) && (sink.state == QUEUEING ==> sink.queue != null)
    ensures sink.So(s, first + more, log, o) && (o == Done ==> |more| == |part|)
    ensures Sinks.Sent(more, Slots(part), false, false, kept, SlotsOf(user))
  {
    assert |user| == |part|;
    hide Run, Step, Attempts, Sinks.Asked, Sinks.Sent, Slots, SlotsOf, CapacityAfter, MovedAfter;
    o, more := sink.SendParts(user, false, false);
    kept := Run(Run(s, first).post, more).kept;
    Sinks.EndsWithOk(s, first);
    sink.SoConcat(s, first, more, log, o);
  }

  /** What is left of the message on `src` as the next parts of the body, up to the first
      error. */
  method InsertRelayed(sink: Sinks.Sink, src: InSocket, ghost s: SinkSpec.Sink, ghost first: seq<Call>,
                       ghost log: seq<Event>, ghost envelope: seq<Content>, ghost body: seq<Content>, ghost m: nat)
    returns (o: Outcome, ghost calls: seq<Call>)
    requires UnderWay(sink, s, first, log, envelope, body, m) && PartOf(src.Left(), body, m)
    requires src !in sink.Own() && (src.rcvmore ==> Complete(src.frames))
    modifies sink.Own(), sink.dst, src
    ensures sink.Valid() && fresh(sink.Own() - old(sink.Own()))
    ensures Begun(calls, envelope, body) && sink.So(s, calls, log, o)
    ensures o == Done ==>
              && UnderWay(sink, s, calls, log, envelope, body, m + old(|src.Left()|)) && !src.rcvmore
              && src.frames == if old(src.rcvmore) then Rest(old(src.frames)) else old(src.frames)
  {
    hide Run, Step, Attempts, Sinks.Asked, Sinks.Relayed, Begun, PartOf;
    hide Body, Rest, Complete, CapacityAfter, MovedAfter;
    ghost var more, left := [], src.Left();
    o, more := sink.RelayFrom(src);
    calls := first + more;
    BegunRelayed(first, more, envelope, body, left, m, src.Left());
    Sinks.EndsWithOk(s, first);
    sink.SoConcat(s, first, more, log, o);
  }

  /** The flush, once all parts are in. */
  method Finish(sink: Sinks.Sink, ghost s: SinkSpec.Sink, ghost first: seq<Call>, ghost log: seq<Event>,
                ghost envelope: seq<Content>, ghost body: seq<Content>)
    returns (o: Outcome, ghost calls: seq<Call>)
    requires UnderWay(sink, s, first, log, envelope, body, |body|)
    modifies sink.Own(), sink.dst
    ensures sink.Valid() && fresh(sink.Own() - old(sink.Own()))
    ensures Begun(calls, envelope, body) && |calls| == |envelope| + |body| + 1 && sink.So(s, calls, log, o)
    ensures first <= calls
  {
    hide Run, Step, Attempts, Sinks.Asked, Sinks.EndsWith, Begun, CapacityAfter, MovedAfter;
    ghost var c;
    o, c := sink.FlushNext(s, first, log);
    BegunFlushed(first, envelope, body, c);
    calls := first + [c];
  }

  /** A new outgoing message with simple routing: nothing is sent first. */
  method OpenSimple(dst: OutSocket, options: Options, observed: bool, incoming: DynamicPartsStorage?,
                    ghost body: seq<Content>)
    returns (sink: Sinks.Sink)
    requires body != []
    ensures UnderWay(sink, Init(options, observed), [], dst.timeline, [], body, 0)
    ensures fresh(sink.Own()) && sink.dst == dst
  {
    hide Run, Step, Attempts, Sinks.Asked, Sinks.EndsWith;
    sink := new Sinks.Sink(dst, options, observed, incoming);
    sink.SoNothing();
  }

  /** The body and the flush, up to the first error. */
  method Close(sink: Sinks.Sink, user: seq<Part>, ghost s: SinkSpec.Sink, ghost first: seq<Call>,
               ghost log: seq<Event>, ghost envelope: seq<Content>, ghost body: seq<Content>)
    returns (o: Outcome, ghost calls: seq<Call>)
    requires UnderWay(sink, s, first, log, envelope, body, 0)
    requires Distinct(user) && (forall p :: p in user ==> p !in sink.Own()) && SlotsOf(user) == Slots(body)
    modifies sink.Own(), sink.dst, user
    ensures sink.Valid() && fresh(sink.Own() - old(sink.Own()))
    ensures Begun(calls, envelope, body) && (o == Done ==> |calls| == |envelope| + |body| + 1)
    ensures sink.So(s, calls, log, o) && first <= calls
  {
    hide Run, Step, Attempts, Sinks.Sink.So, Begun, Slots, SlotsOf, Distinct, UnderWay;
    o, calls := InsertParts(sink, user, s, first, log, envelope, body, body, 0);
    if o == Done {
      o, calls := Finish(sink, s, calls, log, envelope, body);
    }
  }

  /** Sends one message: the envelope, or the delimiter alone if it has no parts; the body; and
      the flush, up to the first error. With copying the envelope stays as it was. */
  method Transmit(dst: OutSocket, options: Options, observed: bool, incoming: DynamicPartsStorage?,
                  routing: seq<Part>, user: seq<Part>, ghost envelope: seq<Content>, ghost body: seq<Content>)
    returns (o: Outcome, sink: Sinks.Sink, ghost calls: seq<Call>)
    requires Distinct(routing) && Distinct(user) && forall p :: p in user ==> p !in routing
    requires SlotsOf(user) == Slots(body)
    requires if routing == [] then envelope == [[]] else SlotsOf(routing) == Slots(envelope)
    modifies dst, routing, user
    ensures sink.Valid() && fresh(sink.Own()) && sink.dst == dst
    ensures Begun(calls, envelope, body) && (o == Done ==> |calls| == |envelope| + |body| + 1)
    ensures sink.So(Init(options, observed), calls, old(dst.timeline), o)
    ensures options.copyIncoming ==> SlotsOf(routing) == old(SlotsOf(routing))
    ensures Outcomes(dst, sink, o, options, old(dst.timeline), envelope + body)
    ensures !options.copyIncoming && o == Done && !IsDropped(options, dst.answers, old(Attempts(dst.timeline))) ==>
              SlotsOf(routing) == Gone(|routing|)
  {
    hide Run, Step, Attempts, Sinks.Sink.So, Sinks.Asked, Sinks.EndsWith, Wire;
    hide Begun, UnderWay, Outcomes, Slots, SlotsOf, Distinct;
    ghost var log := dst.timeline;
    o, sink, calls := Open(dst, options, observed, incoming, routing, envelope, body);
    ghost var first := calls;
    if o == Done {
      o, calls := Close(sink, user, Init(options, observed), calls, log, envelope, body);
      if o == Done {
        AllTaken(dst, log, options, observed, envelope, body, calls, first, sink);
      }
    }
    OutcomeOf(dst, sink, o, options, observed, log, envelope, body, calls);
  }

  /** Slots that hold no part any more. */
  function Gone(n: nat): seq<Slot> {
    seq(n, _ => None)
  }

  /** A transmission free of errors that is not dropped has taken all its parts over: the slots
      they came from hold none of them any more. */
  lemma AllTaken(dst: OutSocket, log: seq<Event>, options: Options, observed: bool, envelope: seq<Content>,
                 body: seq<Content>, calls: seq<Call>, first: seq<Call>, sink: Sinks.Sink)
    requires sink.Valid() && sink.dst == dst && sink.So(Init(options, observed), calls, log, Done)
    requires Begun(calls, envelope, body) && |calls| == |envelope| + |body| + 1
    requires first <= calls && |first| == |envelope|
    ensures !IsDropped(options, dst.answers, Attempts(log)) ==>
              Run(Init(options, observed), first).kept == Gone(|envelope|)
  {
    hide Run, Step, Attempts, Sinks.Asked, Sinks.EndsWith, Slots, Goes, Wire, Message, SendsTaken, Begun;
    TransmissionOutcome(dst, log, options, observed, envelope, body, calls, Done);
    if !IsDropped(options, dst.answers, Attempts(log)) {
      LandedTakes(dst, log, options, observed, envelope, body, calls);
      KeptPrefix(Init(options, observed), first, calls[|first|..]);
      assert first + calls[|first|..] == calls;
    }
  }

  lemma LandedTakes(dst: OutSocket, log: seq<Event>, options: Options, observed: bool, envelope: seq<Content>,
                    body: seq<Content>, calls: seq<Call>)
    requires Begun(calls, envelope, body) && |calls| == |envelope| + |body| + 1
    requires var r, n := Run(Init(options, observed), calls), Attempts(log);
             && Landed(options, dst.answers, n, envelope + body, r.post.queue, Wire(r.events))
             && Goes(options, dst.answers, n, |envelope| + |body|) && !IsDropped(options, dst.answers, n)
    ensures var kept := Run(Init(options, observed), calls).kept;
            |kept| == |calls| && forall i :: 0 <= i < |kept| ==> kept[i].None?
  {
    hide Run, Step, Attempts, Wire, Flushes, Accepting;
    var s, parts := Init(options, observed), envelope + body;
    var r := Run(s, calls);
    OfferedAtMost(calls, envelope, body);
    SinkSafety.TakenOrKept(s, calls);
    SinkSafety.EveryRunIsSafe(options, observed, calls);
    KeptLength(s, calls);
    ContentsOfSlots(parts);
    assert |SinkSafety.Offered(calls)| == |r.taken| + |Contents(r.kept)| by {
      assert |multiset(SinkSafety.Offered(calls))| == |multiset(r.taken)| + |multiset(Contents(r.kept))|;
    }
    NoneLeft(r.kept);
  }

  lemma {:induction false} OfferedAtMost(calls: seq<Call>, envelope: seq<Content>, body: seq<Content>)
    requires Begun(calls, envelope, body)
    ensures |SinkSafety.Offered(calls)| <= |envelope| + |body|
    ensures |calls| <= |envelope| + |body| ==> |SinkSafety.Offered(calls)| <= |calls|
  {
    if calls != [] {
      OfferedAtMost(calls[..|calls| - 1], envelope, body);
    }
  }

  lemma {:induction false} KeptLength(s: SinkSpec.Sink, calls: seq<Call>)
    ensures |Run(s, calls).kept| == |calls|
  {
    hide Step;
    if calls != [] {
      KeptLength(s, calls[..|calls| - 1]);
    }
  }

  lemma KeptPrefix(s: SinkSpec.Sink, a: seq<Call>, b: seq<Call>)
    ensures Run(s, a).kept <= Run(s, a + b).kept && |Run(s, a).kept| == |a|
  {
    hide Run, Step;
    RunConcat(s, a, b);
    KeptLength(s, a);
  }

  lemma {:induction false} ContentsOfSlots(parts: seq<Content>)
    ensures |Contents(Slots(parts))| == |parts|
  {
    if parts != [] {
      assert Slots(parts)[..|parts| - 1] == Slots(parts[..|parts| - 1]);
      ContentsOfSlots(parts[..|parts| - 1]);
    }
  }

  lemma {:induction false} NoneLeft(slots: seq<Slot>)
    ensures Contents(slots) == [] ==> forall i :: 0 <= i < |slots| ==> slots[i].None?
  {
    if slots != [] {
      NoneLeft(slots[..|slots| - 1]);
      assert forall i :: 0 <= i < |slots| - 1 ==> slots[i] == slots[..|slots| - 1][i];
    }
  }

  /** A message with a relay in its middle: parts of its own, then what is left of the message on
      `src`, then parts of its own again, and the flush, up to the first error. All of it is
      one message. */
  method TransmitAround(dst: OutSocket, options: Options, observed: bool, incoming: DynamicPartsStorage?,
                        simple: bool, routing: seq<Part>, before: seq<Part>, src: InSocket, after: seq<Part>,
                        ghost envelope: seq<Content>, ghost b: seq<Content>, ghost a: seq<Content>)
    returns (o: Outcome, sink: Sinks.Sink, ghost calls: seq<Call>)
    requires Distinct(routing) && Distinct(before) && Distinct(after)
    requires (forall p :: p in before ==> p !in routing) && (forall p :: p in after ==> p !in routing && p !in before)
    requires SlotsOf(before) == Slots(b) && SlotsOf(after) == Slots(a)
    requires if simple then routing == [] && envelope == [] && b + src.Left() + a != []
             else if routing == [] then envelope == [[]] else SlotsOf(routing) == Slots(envelope)
    requires src.rcvmore ==> Complete(src.frames)
    modifies dst, routing, before, src, after
    ensures var body := b + old(src.Left()) + a;
            && sink.Valid() && fresh(sink.Own()) && sink.dst == dst
            && Begun(calls, envelope, body) && (o == Done ==> |calls| == |envelope| + |body| + 1)
            && sink.So(Init(options, observed), calls, old(dst.timeline), o)
            && Outcomes(dst, sink, o, options, old(dst.timeline), envelope + body)
    ensures o == Done ==>
              !src.rcvmore && src.frames == if old(src.rcvmore) then Rest(old(src.frames)) else old(src.frames)
  {
    hide Run, Step, Attempts, Sinks.Sink.So, Sinks.Asked, Sinks.EndsWith, Wire;
    hide Begun, UnderWay, Outcomes, Slots, SlotsOf, Distinct;
    ghost var log, s, left := dst.timeline, Init(options, observed), src.Left();
    ghost var body := b + left + a;
    o, calls := Done, [];
    if simple {
      sink := OpenSimple(dst, options, observed, incoming, body);
    } else {
      o, sink, calls := Open(dst, options, observed, incoming, routing, envelope, body);
    }
    if o == Done {
      o, calls := CloseAround(sink, before, src, after, s, calls, log, envelope, b, a);
    }
    OutcomeOf(dst, sink, o, options, observed, log, envelope, body, calls);
  }

  /** The body around a relay and the flush, up to the first error. */
  method CloseAround(sink: Sinks.Sink, before: seq<Part>, src: InSocket, after: seq<Part>,
                     ghost s: SinkSpec.Sink, ghost first: seq<Call>, ghost log: seq<Event>,
                     ghost envelope: seq<Content>, ghost b: seq<Content>, ghost a: seq<Content>)
    returns (o: Outcome, ghost calls: seq<Call>)
    requires UnderWay(sink, s, first, log, envelope, b + src.Left() + a, 0)
    requires Distinct(before) && Distinct(after) && forall p :: p in after ==> p !in before
    requires src !in sink.Own() && forall p :: p in before + after ==> p !in sink.Own()
    requires SlotsOf(before) == Slots(b) && SlotsOf(after) == Slots(a)
    requires src.rcvmore ==> Complete(src.frames)
    modifies sink.Own(), sink.dst, before, src, after
    ensures var body := b + old(src.Left()) + a;
            && sink.Valid() && fresh(sink.Own() - old(sink.Own()))
            && Begun(calls, envelope, body) && (o == Done ==> |calls| == |envelope| + |body| + 1)
            && sink.So(s, calls, log, o)
    ensures o == Done ==>
              !src.rcvmore && src.frames == if old(src.rcvmore) then Rest(old(src.frames)) else old(src.frames)
  {
    hide Run, Step, Attempts, Sinks.Sink.So, Begun, Slots, SlotsOf, Distinct, UnderWay, Body, Rest, Complete;
    ghost var left := src.Left();
    ghost var body := b + left + a;
    assert PartOf(b, body, 0) && PartOf(left, body, |b|) && PartOf(a, body, |b| + |left|);
    hide PartOf;
    o, calls := InsertParts(sink, before, s, first, log, envelope, body, b, 0);
    if o == Done {
      o, calls := InsertRelayed(sink, src, s, calls, log, envelope, body, |b|);
    }
    if o == Done {
      o, calls := InsertParts(sink, after, s, calls, log, envelope, body, a, |b| + |left|);
    }
    if o == Done {
      o, calls := Finish(sink, s, calls, log, envelope, body);
    }
  }

  /** The transmission ended as the options and the socket's answers say. */
  ghost predicate Outcomes(dst: OutSocket, sink: Sinks.Sink, o: Outcome, options: Options,
                           log: seq<Event>, parts: seq<Content>)
    requires sink.Valid()
    reads dst, sink, sink.queue, sink.Own()
  {
    var n := Attempts(log);
    && (o == Done <==> Goes(options, dst.answers, n, |parts|))
    && (o == Done ==>
        && Attempts(dst.timeline) == n + SendsTaken(options, dst.answers, n, |parts|)
        && Wire(dst.timeline) == Wire(log) + (if Blocks(options, dst.answers, n) then [] else Message(parts))
        && sink.Abs().queue ==
           if Blocks(options, dst.answers, n) && options.cacheOnBlock then Some(Slots(parts)) else None)
  }

  lemma OutcomeOf(dst: OutSocket, sink: Sinks.Sink, o: Outcome, options: Options, observed: bool,
                  log: seq<Event>, envelope: seq<Content>, body: seq<Content>, calls: seq<Call>)
    requires sink.Valid() && sink.dst == dst && sink.So(Init(options, observed), calls, log, o)
    requires Begun(calls, envelope, body) && (o == Done ==> |calls| == |envelope| + |body| + 1)
    ensures Outcomes(dst, sink, o, options, log, envelope + body)
  {
    hide Run, Step, Attempts, Sinks.Asked, Sinks.EndsWith, Begun, Slots, Goes, Wire, Message, SendsTaken;
    TransmissionOutcome(dst, log, options, observed, envelope, body, calls, o);
    WireConcat(log, Run(Init(options, observed), calls).events);
    assert |envelope + body| == |envelope| + |body|;
    assert Wire(log) + [] == Wire(log);
  }
}
