/** The worker of the asynchronous example as an object, built on the outgoing message. */
module AsyncWorker {
  import opened Frames
  import opened Parts
  import opened PartsStorage
  import opened SinkSpec
  import opened Sockets
  import opened AsyncSpec
  import Sinks
  import Incomings
  import Receiving
  import Resending

  const FINISHED: Content := [102, 105, 110, 105, 115, 104, 101, 100]

  const RESULT_OPTIONS := Options(true, true, false, false, false)

  /** What telling about finished tasks comes to: what is seen, for which results there was
      room, and the outcome. */
  datatype Told = Told(events: seq<Event>, room: seq<bool>, outcome: Outcome)

  /** Telling that one task is done, with the answers the socket gives from its `n`-th send on.
      The message is put off if its first send would block. After an error at the second part
      the destructor tries that part once more. */
  function TellOne(answers: nat -> Answer, n: nat, id: Content): Told {
    var a, b := answers(n), answers(n + 1);
    var first, second := Attempt(FINISHED, true, true, a), Attempt(id, false, true, b);
    match a
    case WouldBlock => Told([first], [false], Done)
    case Failed => Told([first], [], SocketError)
    case Accepted =>
      if b == Accepted then Told([first, second], [true], Done)
      else Told([first, second, Attempt(id, false, true, answers(n + 2))], [], Thrown(b))
  }

  /** The outgoing message under way, and the one put off. */
  function InFlight(id: Content): Sink {
    Sink(RESULT_OPTIONS, false, SENDING, Some(id), None, 0)
  }

  function PutOff(id: Content): Sink {
    Sink(RESULT_OPTIONS, false, QUEUEING, None, Some(Slots([FINISHED, id])), 0)
  }

  /** The first part is only looked at: it is kept until the next call. */
  lemma FirstIsKept(s: Sink, c: Content, a: Answer)
    requires s == Init(s.options, s.observed)
    ensures SinkSpec.SendOwned(s, Some(c), a) == Effect(s.(cached := Some(c)), [], Done, None, [])
  {
  }

  lemma SecondInserted(id: Content, a: Answer)
    ensures var e := SinkSpec.SendOwned(Init(RESULT_OPTIONS, false).(cached := Some(FINISHED)), Some(id), a);
            && e.events == [Attempt(FINISHED, true, true, a)]
            && match a
               case Accepted => e.outcome == Done && e.post == InFlight(id)
               case WouldBlock => e.outcome == Done && e.post == PutOff(id)
               case Failed => e.outcome == SocketError && e.post == Init(RESULT_OPTIONS, false)
  {
    assert [Some(FINISHED)] + [Some(id)] == Slots([FINISHED, id]);
  }

  lemma Flushed(id: Content, a: Answer)
    ensures var e := SinkSpec.Flush(InFlight(id), a);
            && e.events == [Attempt(id, false, true, a)] && e.outcome == Thrown(a)
            && (a == Accepted ==> e.post == InFlight(id).(state := FLUSHED, cached := None))
            && (a != Accepted ==> e.post == InFlight(id))
    ensures SinkSpec.Flush(PutOff(id), a) == Effect(PutOff(id).(state := FLUSHED), [], Done, None, [])
  {
  }

  lemma NothingToFlush(s: Sink)
    requires !s.observed && s.cached.None?
    ensures forall a :: SinkSpec.Flush(s, a).events == []
  {
  }

  lemma Appended(log: seq<Event>, x: Event, y: Event, z: Event)
    requires x.Attempt? && y.Attempt?
    ensures Attempts(log + [x]) == Attempts(log) + 1 && Attempts(log + [x] + [y]) == Attempts(log) + 2
    ensures log + [x] + [] + [] == log + [x] && log + [x] + [y] + [] == log + [x, y]
    ensures log + [x] + [y] + [z] == log + [x, y, z]
  {
    AttemptsSnoc(log, x);
    AttemptsSnoc(log + [x], y);
  }

  /** A new outgoing message with its first part inserted. */
  method BeginResult(sRes: OutSocket) returns (egress: Sinks.Sink)
    modifies sRes
    ensures egress.Valid() && fresh(egress.Own()) && egress.dst == sRes
    ensures egress.Abs() == Init(RESULT_OPTIONS, false).(cached := Some(FINISHED))
    ensures sRes.timeline == old(sRes.timeline)
  {
    hide SinkSpec.SendOwned;
    egress := new Sinks.Sink(sRes, RESULT_OPTIONS, false, null);
    FirstIsKept(egress.Abs(), FINISHED, sRes.Next());
    var part := new Part.Of(FINISHED);
    var _ := egress.SendOwned(part);
  }

  /** Flushes, and detaches the message if it was queued; then the destructor. */
  method EndResult(egress: Sinks.Sink) returns (o: Outcome, q: DynamicPartsStorage?)
    requires egress.Valid()
    modifies egress.Own(), egress.dst
    ensures var dst, e := egress.dst, SinkSpec.Flush(old(egress.Abs()), old(egress.dst.Next()));
            var left := if o == Done then e.post.(queue := None) else e.post;
            && o == e.outcome
            && dst.timeline == old(egress.dst.timeline) + e.events +
               SinkSpec.Flush(left, dst.answers(Attempts(old(egress.dst.timeline) + e.events))).events
            && (q != null <==> o == Done && e.post.queue.Some?)
            && (q != null ==>
                q.Valid() && q.parts != null && fresh(q.Repr - old(egress.Own())) && q.View() == e.post.queue.value)
  {
    hide SinkSpec.Flush, Attempts, CapacityAfter, MovedAfter;
    q := null;
    o := egress.Flush();
    if o == Done && egress.queue != null {
      q := egress.Detach();
    }
    egress.Dispose();
  }

  /** What the steps from the second insertion to the destructor come to. */
  lemma ResultSteps(answers: nat -> Answer, log: seq<Event>, id: Content)
    ensures var t := TellOne(answers, Attempts(log), id);
            var s1 := Init(RESULT_OPTIONS, false).(cached := Some(FINISHED));
            var e2 := SinkSpec.SendOwned(s1, Some(id), answers(Attempts(log)));
            var e3 := SinkSpec.Flush(e2.post, answers(Attempts(log + e2.events)));
            var left := if e3.outcome == Done then e3.post.(queue := None) else e3.post;
            && (e2.outcome != Done ==>
                t.outcome == e2.outcome && t.room == [] && log + e2.events + e3.events == log + t.events)
            && (e2.outcome == Done ==>
                && t.outcome == e3.outcome && (t.room == [false] <==> e3.outcome == Done && e3.post.queue.Some?)
                && (e3.post.queue.Some? ==> e3.post.queue.value == Slots([FINISHED, id]))
                && log + e2.events + e3.events +
                   SinkSpec.Flush(left, answers(Attempts(log + e2.events + e3.events))).events == log + t.events)
  {
    hide SinkSpec.SendOwned, SinkSpec.Flush, Attempts, Slots;
    var a, b, c := answers(Attempts(log)), answers(Attempts(log) + 1), answers(Attempts(log) + 2);
    Appended(log, Attempt(FINISHED, true, true, a), Attempt(id, false, true, b), Attempt(id, false, true, c));
    SecondInserted(id, a);
    Flushed(id, b);
    Flushed(id, c);
    NothingToFlush(InFlight(id).(state := FLUSHED, cached := None));
    NothingToFlush(PutOff(id).(state := FLUSHED, queue := None));
    NothingToFlush(Init(RESULT_OPTIONS, false));
  }

  /** Sends the result of a task, or returns the message for later if it would block. */
  method SendResult(sRes: OutSocket, id: Content) returns (o: Outcome, q: DynamicPartsStorage?)
    modifies sRes
    ensures var t := TellOne(sRes.answers, old(Attempts(sRes.timeline)), id);
            && o == t.outcome && sRes.timeline == old(sRes.timeline) + t.events
            && (q != null <==> t.room == [false])
    ensures q != null ==> q.Valid() && q.parts != null && fresh(q.Repr) && q.View() == Slots([FINISHED, id])
  {
    hide SinkSpec.SendOwned, SinkSpec.Flush, TellOne, Attempts, Slots, SlotsOf, CapacityAfter, MovedAfter, Distinct;
    q := null;
    ResultSteps(sRes.answers, sRes.timeline, id);
    var egress := BeginResult(sRes);
    var part := new Part.Of(id);
    o := egress.SendOwned(part);
    if o == Done {
      o, q := EndResult(egress);
    } else {
      egress.Dispose();
    }
  }

  /** The frames of the results of some tasks, one message each. */
  function Results(ids: seq<Content>): seq<Frame> {
    if ids == [] then []
    else Results(ids[..|ids| - 1]) + Message([FINISHED, ids[|ids| - 1]])
  }

  lemma ResultsSnoc(ids: seq<Content>, id: Content)
    ensures Results(ids + [id]) == Results(ids) + Message([FINISHED, id])
  {
    assert (ids + [id])[..|ids|] == ids;
  }

  /** A result told without an error is on the wire as one message, or not at all; after an
      error its last frame may be missing. */
  lemma ResultOnWire(answers: nat -> Answer, n: nat, id: Content)
    ensures var t := TellOne(answers, n, id);
            && (t.outcome == Done ==> t.room == [true] || t.room == [false])
            && (t.outcome == Done ==> Wire(t.events) == if t.room == [true] then Message([FINISHED, id]) else [])
            && (t.outcome != Done ==>
                Wire(t.events) == if answers(n) != Accepted then []
                                  else if answers(n + 2) == Accepted then Message([FINISHED, id])
                                  else [Frame(FINISHED, true)])
  {
    hide Wire, Message;
    WireOfSome(Attempt(FINISHED, true, true, answers(n)), Attempt(id, false, true, answers(n + 1)),
               Attempt(id, false, true, answers(n + 2)));
    ResultMessage(id);
  }

  lemma ResultMessage(id: Content)
    ensures Message([FINISHED, id]) == [Frame(FINISHED, true)] + [Frame(id, false)]
  {
  }

  lemma ToldWithoutWaiting(answers: nat -> Answer, n: nat, id: Content)
    ensures Resending.AsFlagged(true, TellOne(answers, n, id).events)
  {
  }

  lemma WireOfSome(x: Event, y: Event, z: Event)
    ensures Wire([x]) == WireOf(x) && Wire([x, y]) == WireOf(x) + WireOf(y)
    ensures Wire([x, y, z]) == WireOf(x) + WireOf(y) + WireOf(z)
  {
    WireSnoc([], x);
    WireSnoc([x], y);
    WireSnoc([x, y], z);
    assert [] + [x] == [x] && [x] + [y] == [x, y] && [x, y] + [z] == [x, y, z];
  }

  /** Telling about several tasks, one after the other, up to the first error. */
  function Tell(answers: nat -> Answer, n: nat, ids: seq<Content>): Told {
    if ids == [] then Told([], [], Done)
    else
      var t := Tell(answers, n, ids[..|ids| - 1]);
      if t.outcome != Done then t
      else
        var e := TellOne(answers, n + Attempts(t.events), ids[|ids| - 1]);
        Told(t.events + e.events, t.room + e.room, e.outcome)
  }

  lemma TellSnoc(answers: nat -> Answer, n: nat, ids: seq<Content>, id: Content)
    requires Tell(answers, n, ids).outcome == Done
    ensures var t := Tell(answers, n, ids);
            var e := TellOne(answers, n + Attempts(t.events), id);
            Tell(answers, n, ids + [id]) == Told(t.events + e.events, t.room + e.room, e.outcome)
  {
    hide TellOne, Attempts;
    assert (ids + [id])[..|ids|] == ids;
  }

  /** After the first error no more is told. */
  lemma {:induction false} TellStops(answers: nat -> Answer, n: nat, some: seq<Content>, ids: seq<Content>)
    requires some <= ids && Tell(answers, n, some).outcome != Done
    ensures Tell(answers, n, ids) == Tell(answers, n, some)
  {
    hide TellOne, Attempts;
    if some != ids {
      assert some <= ids[..|ids| - 1];
      TellStops(answers, n, some, ids[..|ids| - 1]);
    }
  }

  /** Going through the list `w.tasks`: the first `k` were looked at, `i` of them stay. */
  ghost predicate Through(w: World, k: nat, i: nat, tasks: seq<Task>,
                          delayed: seq<Content>, sent: seq<Content>, room: seq<bool>) {
    && k <= |w.tasks|
    && var ids, stay := Finished(w.tasks[..k]), Unfinished(w.tasks[..k]);
       && tasks == stay + w.tasks[k..] && i == |stay| && |room| == |ids|
       && delayed == w.queue + Sorted(ids, room, false) && sent == w.channel + Sorted(ids, room, true)
  }

  lemma ThroughNone(w: World)
    ensures Through(w, 0, 0, w.tasks, w.queue, w.channel, []) && Finished(w.tasks[..0]) == []
  {
    GoNowhere(w.tasks, []);
  }

  lemma ThroughNext(w: World, k: nat, i: nat, tasks: seq<Task>,
                    delayed: seq<Content>, sent: seq<Content>, room: seq<bool>)
    requires Through(w, k, i, tasks, delayed, sent, room) && i < |tasks|
    ensures k < |w.tasks|
    ensures Finished(w.tasks[..k + 1]) ==
            Finished(w.tasks[..k]) + (if tasks[i].remainingSteps == 0 then [tasks[i].id] else [])
    ensures tasks[i].remainingSteps != 0 ==> Through(w, k + 1, i + 1, tasks, delayed, sent, room)
    ensures var id := tasks[i].id;
            tasks[i].remainingSteps == 0 ==>
              && Through(w, k + 1, i, tasks[..i] + tasks[i + 1..], delayed, sent + [id], room + [true])
              && Through(w, k + 1, i, tasks[..i] + tasks[i + 1..], delayed + [id], sent, room + [false])
  {
    var ids := Finished(w.tasks[..k]);
    NextTask(w.tasks, k, Unfinished(w.tasks[..k]), tasks);
    GoThrough(w.tasks, k);
    hide Finished, Unfinished, Sorted;
    SortedNext(ids, tasks[i].id, room, true);
    SortedNext(ids, tasks[i].id, room, false);
    assert sent + [tasks[i].id] == w.channel + (Sorted(ids, room, true) + [tasks[i].id]);
    assert delayed + [tasks[i].id] == w.queue + (Sorted(ids, room, false) + [tasks[i].id]);
  }

  lemma ThroughAll(w: World, k: nat, i: nat, tasks: seq<Task>,
                   delayed: seq<Content>, sent: seq<Content>, room: seq<bool>)
    requires Through(w, k, i, tasks, delayed, sent, room) && i >= |tasks|
    ensures k == |w.tasks| && w.tasks[..k] == w.tasks && tasks == Unfinished(w.tasks)
    ensures delayed == w.queue + Sorted(Finished(w.tasks), room, false)
    ensures sent == w.channel + Sorted(Finished(w.tasks), room, true)
  {
    NextTask(w.tasks, k, Unfinished(w.tasks[..k]), tasks);
  }

  /** Going through the list, having told `t` of those that are done. */
  ghost predicate Telling(answers: nat -> Answer, n: nat, w: World, k: nat, i: nat, tasks: seq<Task>,
                          delayed: seq<Content>, sent: seq<Content>, t: Told) {
    && Through(w, k, i, tasks, delayed, sent, t.room)
    && t == Tell(answers, n, Finished(w.tasks[..k])) && t.outcome == Done
  }

  lemma TellingNone(answers: nat -> Answer, n: nat, w: World)
    ensures Telling(answers, n, w, 0, 0, w.tasks, w.queue, w.channel, Told([], [], Done))
  {
    ThroughNone(w);
  }

  /** What is told about one more task, up to the first error. */
  lemma ToldNext(answers: nat -> Answer, n: nat, tasks: seq<Task>, k: nat, id: Content) returns (q: Told)
    requires k < |tasks| && Finished(tasks[..k + 1]) == Finished(tasks[..k]) + [id]
    requires Tell(answers, n, Finished(tasks[..k])).outcome == Done
    ensures q == Tell(answers, n, Finished(tasks[..k + 1]))
    ensures var t := Tell(answers, n, Finished(tasks[..k]));
            var e := TellOne(answers, n + Attempts(t.events), id);
            q == Told(t.events + e.events, t.room + e.room, e.outcome)
    ensures q.outcome != Done ==> Tell(answers, n, Finished(tasks)) == q
  {
    hide TellOne, Tell, Attempts, Finished;
    TellSnoc(answers, n, Finished(tasks[..k]), id);
    q := Tell(answers, n, Finished(tasks[..k + 1]));
    if q.outcome != Done {
      FinishedPrefix(tasks, k + 1);
      TellStops(answers, n, Finished(tasks[..k + 1]), Finished(tasks));
    }
  }

  /** The next task is done: telling about it is the next of all that is to be told. */
  lemma TellingNext(answers: nat -> Answer, n: nat, w: World, k: nat, i: nat, tasks: seq<Task>,
                    delayed: seq<Content>, sent: seq<Content>, t: Told)
    returns (q: Told)
    requires Telling(answers, n, w, k, i, tasks, delayed, sent, t)
    requires i < |tasks| && tasks[i].remainingSteps == 0
    ensures k < |w.tasks|
    ensures var id := tasks[i].id;
            var e := TellOne(answers, n + Attempts(t.events), id);
            && q == Told(t.events + e.events, t.room + e.room, e.outcome)
            && (q.outcome != Done ==> Tell(answers, n, Finished(w.tasks)) == q)
            && (q.outcome == Done && e.room == [true] ==>
                Telling(answers, n, w, k + 1, i, tasks[..i] + tasks[i + 1..], delayed, sent + [id], q))
            && (q.outcome == Done && e.room == [false] ==>
                Telling(answers, n, w, k + 1, i, tasks[..i] + tasks[i + 1..], delayed + [id], sent, q))
  {
    hide Through, TellOne, Tell, Attempts, Finished, Unfinished, Sorted;
    var id := tasks[i].id;
    ThroughNext(w, k, i, tasks, delayed, sent, t.room);
    q := ToldNext(answers, n, w.tasks, k, id);
  }

  /** The next task goes on. */
  lemma TellingOn(answers: nat -> Answer, n: nat, w: World, k: nat, i: nat, tasks: seq<Task>,
                  delayed: seq<Content>, sent: seq<Content>, t: Told)
    requires Telling(answers, n, w, k, i, tasks, delayed, sent, t)
    requires i < |tasks| && tasks[i].remainingSteps != 0
    ensures k < |w.tasks| && Telling(answers, n, w, k + 1, i + 1, tasks, delayed, sent, t)
  {
    ThroughNext(w, k, i, tasks, delayed, sent, t.room);
    hide Through, Tell, Finished;
    assert Finished(w.tasks[..k]) + [] == Finished(w.tasks[..k]);
  }

  /** All is told. */
  lemma ToldAll(answers: nat -> Answer, n: nat, w: World, k: nat, i: nat, tasks: seq<Task>,
                delayed: seq<Content>, sent: seq<Content>, t: Told, before: World)
    requires Telling(answers, n, w, k, i, tasks, delayed, sent, t) && i >= |tasks|
    requires Decremented(before.tasks) == w.tasks && before.queue == w.queue && before.channel == w.channel
    ensures t == Tell(answers, n, Finished(w.tasks)) && t.outcome == Done
    ensures Next(before, Timeout(t.room)) == before.(tasks := tasks, queue := delayed, channel := sent)
  {
    ThroughAll(w, k, i, tasks, delayed, sent, t.room);
  }

  const MAX_TASK_STEPS := 10

  class Worker {
    const sRes: OutSocket
    var tasks: seq<Task>
    var queue: seq<DynamicPartsStorage>
    ghost var delayed: seq<Content>    // the ids of the messages in `queue`
    ghost var sent: seq<Content>       // the ids whose results the channel took, in order
    ghost var accepted: seq<Content>   // the ids of all tasks taken in
    ghost var footprint: set<object>   // the objects of the queued messages

    /** The queued messages are the results of `delayed` and share nothing. */
    ghost predicate Stored()
      reads this`queue, this`delayed, this`footprint, footprint
    {
      && |delayed| == |queue| && {this, sRes} !! footprint
      && (forall i :: 0 <= i < |queue| ==>
            && queue[i] in footprint && queue[i].Repr <= footprint
            && queue[i].Valid() && queue[i].parts != null
            && queue[i].View() == Slots([FINISHED, delayed[i]]))
      && (forall i, j :: 0 <= i < j < |queue| ==> queue[i].Repr !! queue[j].Repr)
    }

    /** What the channel took are the results of `sent`, and no send ever waited. */
    ghost predicate Valid()
      reads this`queue, this`delayed, this`sent, this`footprint, sRes, footprint
    {
      && Stored() && |delayed| == |queue| && {this, sRes} !! footprint
      && Wire(sRes.timeline) == Results(sent) && Resending.AsFlagged(true, sRes.timeline)
    }

    ghost function Abs(): World
      reads this
    {
      World(tasks, delayed, sent, accepted, [])
    }

    constructor (sRes: OutSocket)
      requires sRes.timeline == []
      ensures Valid() && footprint == {} && this.sRes == sRes && Abs() == START
    {
      this.sRes, tasks, queue, delayed, sent, accepted, footprint := sRes, [], [], [], [], [], {};
    }

    /** Puts a message that could not be sent into the delayed queue. */
    method Delay(q: DynamicPartsStorage, ghost id: Content)
      requires Valid() && q.Valid() && q.parts != null && {this, sRes} + footprint !! q.Repr
      requires q.View() == Slots([FINISHED, id])
      modifies this`queue, this`delayed, this`footprint
      ensures Valid() && delayed == old(delayed) + [id] && footprint == old(footprint) + q.Repr
    {
      hide Wire, Results, Slots, SlotsOf, CapacityAfter, MovedAfter, Distinct;
      queue, delayed, footprint := queue + [q], delayed + [id], footprint + q.Repr;
    }

    /** Sends or delays the result of one task. */
    method Finish(id: Content) returns (o: Outcome)
      requires Valid()
      modifies this`queue, this`delayed, this`footprint, this`sent, sRes
      ensures var t := TellOne(sRes.answers, old(Attempts(sRes.timeline)), id);
              && o == t.outcome && sRes.timeline == old(sRes.timeline) + t.events
              && (o == Done ==>
                  && Valid() && fresh(footprint - old(footprint)) && (t.room == [true] || t.room == [false])
                  && sent == (if t.room == [true] then old(sent) + [id] else old(sent))
                  && delayed == (if t.room == [true] then old(delayed) else old(delayed) + [id]))
    {
      hide Wire, Results, Slots, Attempts, Stored, TellOne, Framed, Message;
      ghost var n := Attempts(sRes.timeline);
      ResultOnWire(sRes.answers, n, id);
      WireConcat(sRes.timeline, TellOne(sRes.answers, n, id).events);
      ToldWithoutWaiting(sRes.answers, n, id);
      var q;
      o, q := SendResult(sRes, id);
      if o != Done {
        return;
      }
      if q != null {
        Delay(q, id);
      } else {
        ResultsSnoc(sent, id);
        sent := sent + [id];
      }
    }

    /** Finishes the task at `i` and takes it off the list. */
    method FinishAt(i: nat) returns (o: Outcome)
      requires Valid() && i < |tasks|
      modifies this`tasks, this`queue, this`delayed, this`footprint, this`sent, sRes
      ensures var id := old(tasks[i].id);
              var t := TellOne(sRes.answers, old(Attempts(sRes.timeline)), id);
              && o == t.outcome && sRes.timeline == old(sRes.timeline) + t.events
              && (o == Done ==>
                  && Valid() && fresh(footprint - old(footprint)) && (t.room == [true] || t.room == [false])
                  && tasks == old(tasks[..i] + tasks[i + 1..])
                  && sent == (if t.room == [true] then old(sent) + [id] else old(sent))
                  && delayed == (if t.room == [true] then old(delayed) else old(delayed) + [id]))
    {
      hide Wire, Results, TellOne, Attempts;
      o := Finish(tasks[i].id);
      tasks := tasks[..i] + tasks[i + 1..];
    }

    /** The same while going through the list. */
    method FinishNext(i: nat, ghost n: nat, ghost w: World, ghost k: nat, ghost log: seq<Event>, ghost t: Told)
      returns (o: Outcome, ghost q: Told)
      requires Valid() && i < |tasks| && tasks[i].remainingSteps == 0
      requires Telling(sRes.answers, n, w, k, i, tasks, delayed, sent, t)
      requires n == Attempts(log) && sRes.timeline == log + t.events
      modifies this`tasks, this`queue, this`delayed, this`footprint, this`sent, sRes
      ensures k < |w.tasks| && o == q.outcome && sRes.timeline == log + q.events
      ensures o != Done ==> q == Tell(sRes.answers, n, Finished(w.tasks))
      ensures o == Done ==>
                && Valid() && fresh(footprint - old(footprint))
                && Telling(sRes.answers, n, w, k + 1, i, tasks, delayed, sent, q)
    {
      hide Wire, Results, Stored, Telling, TellOne, Tell, Attempts, Finished;
      AttemptsConcat(log, t.events);
      q := TellingNext(sRes.answers, n, w, k, i, tasks, delayed, sent, t);
      o := FinishAt(i);
      ghost var e := TellOne(sRes.answers, n + Attempts(t.events), old(tasks[i].id));
      assert (log + t.events) + e.events == log + q.events;
    }

    /** Every task makes a step; finished ones leave, their results sent or delayed as the
        channel answers. */
    method RunTasks() returns (o: Outcome)
      requires Valid()
      modifies this`tasks, this`queue, this`delayed, this`footprint, this`sent, sRes
      ensures var t := Tell(sRes.answers, old(Attempts(sRes.timeline)), Finished(Decremented(old(tasks))));
              && o == t.outcome && sRes.timeline == old(sRes.timeline) + t.events
              && (o == Done ==>
                  Valid() && fresh(footprint - old(footprint)) && Abs() == Next(old(Abs()), Timeout(t.room)))
    {
      hide Wire, Results, Stored, Telling, TellOne, Tell, Attempts, Finished, Next, Decremented;
      ghost var before := Abs();
      MakeSteps();
      ghost var w, k, n, log := World(tasks, delayed, sent, [], []), 0, Attempts(sRes.timeline), sRes.timeline;
      ghost var t := Told([], [], Done);
      o := Done;
      TellingNone(sRes.answers, n, w);
      var i := 0;
      while i < |tasks|
        invariant Valid() && fresh(footprint - old(footprint)) && o == Done && unchanged(`accepted)
        invariant k <= |w.tasks| && Telling(sRes.answers, n, w, k, i, tasks, delayed, sent, t)
        invariant sRes.timeline == log + t.events
        decreases |w.tasks| - k
      {
        if tasks[i].remainingSteps == 0 {
          o, t := FinishNext(i, n, w, k, log, t);
          if o != Done {
            return;
          }
        } else {
          TellingOn(sRes.answers, n, w, k, i, tasks, delayed, sent, t);
          i := i + 1;
        }
        k := k + 1;
      }
      ToldAll(sRes.answers, n, w, k, i, tasks, delayed, sent, t, before);
    }

    method MakeSteps()
      requires Valid()
      modifies this`tasks
      ensures Valid() && tasks == Decremented(old(tasks))
    {
      hide Wire, Results;
      var i := 0;
      while i < |tasks|
        invariant 0 <= i <= |tasks| == |old(tasks)| && Valid()
        invariant tasks == Decremented(old(tasks))[..i] + old(tasks)[i..]
      {
        tasks := tasks[i := tasks[i].(remainingSteps := tasks[i].remainingSteps - 1)];
        i := i + 1;
      }
    }

    /** The channel takes the next two parts. */
    ghost predicate TakesTwo()
      reads sRes
    {
      sRes.Accepts(Attempts(sRes.timeline), 2)
    }

    /** Sends a message taken out of the queue. */
    method SendTaken(m: DynamicPartsStorage, ghost id: Content) returns (o: Outcome)
      requires Valid() && m.Valid() && {this, sRes} !! m.Repr && m.View() == Slots([FINISHED, id])
      requires forall i :: 0 <= i < |queue| ==> queue[i].Repr !! m.Repr
      modifies this`sent, sRes, m.Repr
      ensures o == Done <==> old(TakesTwo())
      ensures o == Done ==> Valid() && footprint == old(footprint) && sent == old(sent) + [id]
      ensures o == Done ==> Attempts(sRes.timeline) == old(Attempts(sRes.timeline)) + 2
      ensures old(sRes.timeline) <= sRes.timeline
      ensures Resending.AsFlagged(true, sRes.timeline[|old(sRes.timeline)|..])
    {
      hide Wire, Results, SlotsOf, CapacityAfter, MovedAfter, Distinct, Attempts, Framed, Message;
      o := Resending.DeliverQueue(sRes, m, true, [FINISHED, id]);
      if o == Done {
        ResultsSnoc(sent, id);
        sent := sent + [id];
      }
      m.Dispose();
    }

    /** Takes the message delayed last out of the queue. */
    method TakeLast() returns (m: DynamicPartsStorage, ghost id: Content)
      requires Valid() && queue != []
      modifies this`queue, this`delayed
      ensures Valid() && m == old(queue[|queue| - 1]) && m.Valid() && {this, sRes} !! m.Repr && m.Repr <= footprint
      ensures |old(delayed)| > 0 && delayed + [id] == old(delayed) && m.View() == Slots([FINISHED, id])
      ensures forall i :: 0 <= i < |queue| ==> queue[i].Repr !! m.Repr
    {
      hide Wire, Results, Slots, SlotsOf, CapacityAfter, MovedAfter, Distinct, Attempts;
      var n := |queue| - 1;
      m, id := queue[n], delayed[n];
      queue, delayed := queue[..n], delayed[..n];
    }

    /** Sends the result delayed last, now that the channel can take one. */
    method SendDelayed() returns (o: Outcome)
      requires Valid() && queue != []
      modifies this`queue, this`delayed, this`sent, sRes, queue[|queue| - 1].Repr
      ensures o == Done <==> old(TakesTwo())
      ensures o == Done ==> Valid() && footprint == old(footprint) && Abs() == Next(old(Abs()), PollOut)
      ensures o == Done ==> Attempts(sRes.timeline) == old(Attempts(sRes.timeline)) + 2
      ensures old(sRes.timeline) <= sRes.timeline
      ensures Resending.AsFlagged(true, sRes.timeline[|old(sRes.timeline)|..])
      ensures o == Done ==>
                delayed == old(delayed)[..|old(delayed)| - 1] && sent == old(sent) + [old(delayed)[|old(delayed)| - 1]]
    {
      hide Wire, Results, Slots, Stored, Attempts;
      var m;
      ghost var id;
      m, id := TakeLast();
      o := SendTaken(m, id);
    }

    /** Receives a task: a message of two parts, the second its id. Its number of steps is
        drawn from 1 to MAX_TASK_STEPS - 1. */
    method AcceptTask(sReq: InSocket, random: nat) returns (o: Outcome)
      requires Valid() && queue == [] && Complete(sReq.frames)
      modifies this`tasks, this`accepted, sReq
      ensures Valid() && (o == Done <==> |Body(old(sReq.frames))| == 2)
      ensures o == Done ==>
                sReq.frames == Rest(old(sReq.frames)) && Abs() == Next(old(Abs()), Arrival(old(sReq.frames), random))
      ensures o == Done ==>
                var id, steps := Body(old(sReq.frames))[1], random % 9 + 1;
                && 1 <= steps <= 9 && tasks == old(tasks) + [Task(id, steps)] && accepted == old(accepted) + [id]
    {
      var id;
      o, id := ReceiveTask(sReq);
      var task := Task(id, random % (MAX_TASK_STEPS - 1) + 1);
      if o == Done {
        tasks, accepted := tasks + [task], accepted + [id];
      }
    }

    /** One turn of the loop. Polling asks for room on the result channel only while a result
        is delayed, and for new tasks only while none is, and reports nothing else. What turn
        it is follows from what polling reports, and whether it ends without an error from
        what the sockets say. */
    method OnPoll(p: Polled, sReq: InSocket, random: nat) returns (o: Outcome, stopped: bool)
      requires Valid() && sReq !in footprint
      requires p.Ready? && p.pollOut ==> queue != []
      requires p.Ready? && p.pollIn ==> queue == [] && Complete(sReq.frames)
      modifies this, sRes, sReq, footprint
      ensures stopped <==> p.Ready? && p.stop
      ensures stopped ==> o == Done && Abs() == old(Abs()) && unchanged(sRes) && unchanged(sReq)
      ensures o == Done ==> Valid() && fresh(footprint - old(footprint))
      ensures !stopped ==>
                match TurnOf(p, sRes.answers, old(Attempts(sRes.timeline)), old(tasks), old(sReq.frames), random)
                case None => o != Done
                case Some(turn) =>
                  && o == Done && Abs() == Next(old(Abs()), turn)
                  && sReq.frames == AfterTurn(old(sReq.frames), turn)
                  && Attempts(sRes.timeline) == old(Attempts(sRes.timeline)) + SendsOf(turn)
      ensures o == Done ==> p.TimedOut? ==>
                && tasks == Aged(old(tasks), 1) && old(delayed) <= delayed && old(sent) <= sent
                && accepted == old(accepted) && sReq.frames == old(sReq.frames)
      ensures o == Done && p.Ready? && !p.stop ==>
                if p.pollOut then
                  && tasks == old(tasks) && accepted == old(accepted) && sReq.frames == old(sReq.frames)
                  && |delayed| < |old(delayed)| && delayed + [old(delayed)[|delayed|]] == old(delayed)
                  && sent == old(sent) + [old(delayed)[|delayed|]]
                else if p.pollIn then
                  && |Body(old(sReq.frames))| == 2 && sReq.frames == Rest(old(sReq.frames))
                  && accepted == old(accepted) + [Body(old(sReq.frames))[1]]
                  && tasks == old(tasks) + [Task(Body(old(sReq.frames))[1], random % 9 + 1)]
                  && delayed == old(delayed) && sent == old(sent)
                else
                  Abs() == old(Abs()) && sReq.frames == old(sReq.frames)
    {
      hide Wire, Results, Attempts, Tell, Body, Rest, Complete, Next, SendsFor;
      o, stopped := Done, false;
      match p {
        case TimedOut =>
          ghost var n, log, before := Attempts(sRes.timeline), sRes.timeline, Abs();
          ghost var t := Tell(sRes.answers, n, Finished(Decremented(tasks)));
          o := RunTasks();
          if o == Done {
            AttemptsConcat(log, t.events);
            TimeoutAsAged(before, t.room);
            ToldSends(sRes.answers, n, Finished(Decremented(old(tasks))));
          }
        case Ready(stop, pollOut, pollIn) =>
          if stop {
            stopped := true;
          } else if pollOut {
            o := SendDelayed();
          } else if pollIn {
            o := AcceptTask(sReq, random);
          } else {
            NothingHappens(Abs());
          }
      }
    }

    /** The loop, for what the surroundings have for it: it ends at a stop message, at an error,
        or with the last poll. Its turns are exactly the ones due, one after the other; it ends
        in an error exactly when the turn due next does; and nothing is lost. */
    method Process(polls: seq<Polled>, sReq: InSocket, random: nat -> nat) returns (o: Outcome, ghost turns: seq<Turn>)
      requires Valid() && sReq !in footprint && Receiving.WholeMessages(sReq.frames) && Abs() == START
      modifies this, sRes, sReq, footprint
      ensures var env := Surroundings(polls, sRes.answers, old(Attempts(sRes.timeline)), old(sReq.frames), random);
              && Follows(env, turns)
              && (o == Done <==> env.EndsAt(|turns|))
              && (o != Done ==> TurnAt(env, turns).None?)
              && (o == Done ==> sReq.frames == StreamAfter(old(sReq.frames), turns))
      ensures o == Done ==>
                && Valid() && Abs() == RunTurns(START, turns) && ProperSteps(turns)
                && multiset(accepted) == multiset(Ids(tasks)) + multiset(delayed) + multiset(sent)
                && Receiving.WholeMessages(sReq.frames)
                && accepted + TasksIn(sReq.frames) == TasksIn(old(sReq.frames))
                && Wire(sRes.timeline) == Results(sent)
      ensures (forall k :: sRes.answers(k) == Accepted) && TwoParts(old(sReq.frames)) ==> o == Done
    {
      hide Wire, Results, Attempts, Stored, Along, Follows, TurnAt;
      ghost var env := Surroundings(polls, sRes.answers, Attempts(sRes.timeline), sReq.frames, random);
      turns, o := [], Done;
      AlongFromStart(env, sReq);
      var n, stopped := 0, false;
      while n < |polls| && !stopped
        invariant 0 <= n == |turns| <= |polls| && o == Done
        invariant Valid() && fresh(footprint - old(footprint))
        invariant Along(env, turns, sReq)
        invariant stopped ==> env.EndsAt(n)
        decreases |polls| - n, !stopped
      {
        ghost var turn;
        FollowsOf(env, turns, sReq);
        o, stopped, turn := TakeTurn(polls[n], sReq, random(n), env, turns);
        if o != Done {
          NeverFails(env, turns);
          return;
        }
        if !stopped {
          turns := turns + [turn];
          n := n + 1;
        }
      }
      AlongMeans(env, turns, sReq);
    }

    /** The turns so far are those due, and have led here. */
    ghost predicate Along(env: Surroundings, turns: seq<Turn>, sReq: InSocket)
      reads this, sRes, sReq
    {
      && Follows(env, turns) && Abs() == RunTurns(START, turns) && sReq.frames == StreamAfter(env.frames, turns)
      && env.answers == sRes.answers && Attempts(sRes.timeline) == env.sends + SendsAfter(turns)
      && Receiving.WholeMessages(env.frames) && Receiving.WholeMessages(sReq.frames)
      && accepted + TasksIn(sReq.frames) == TasksIn(env.frames)
    }

    lemma AlongFromStart(env: Surroundings, sReq: InSocket)
      requires Abs() == START && env.answers == sRes.answers && env.sends == Attempts(sRes.timeline)
      requires env.frames == sReq.frames && Receiving.WholeMessages(sReq.frames)
      ensures Along(env, [], sReq)
    {
    }

    lemma FollowsOf(env: Surroundings, turns: seq<Turn>, sReq: InSocket)
      requires Along(env, turns, sReq)
      ensures Follows(env, turns)
    {
    }

    lemma AlongMeans(env: Surroundings, turns: seq<Turn>, sReq: InSocket)
      requires Along(env, turns, sReq)
      ensures Follows(env, turns) && ProperSteps(turns)
      ensures Abs() == RunTurns(START, turns) && sReq.frames == StreamAfter(env.frames, turns)
      ensures multiset(accepted) == multiset(Ids(tasks)) + multiset(delayed) + multiset(sent)
      ensures Receiving.WholeMessages(env.frames) && Receiving.WholeMessages(sReq.frames)
      ensures accepted + TasksIn(sReq.frames) == TasksIn(env.frames)
    {
      hide RunTurns, StreamAfter, SendsAfter, Attempts, TasksIn;
      NothingLost(turns);
      FollowsProperly(env, turns);
    }

    /** The turn due, if it is not a stop. */
    method TakeTurn(polled: Polled, sReq: InSocket, random: nat, ghost env: Surroundings, ghost turns: seq<Turn>)
      returns (o: Outcome, stopped: bool, ghost turn: Turn)
      requires Valid() && sReq !in footprint && Along(env, turns, sReq)
      requires |turns| < |env.polls| && polled == env.polls[|turns|] && random == env.random(|turns|)
      modifies this, sRes, sReq, footprint
      ensures stopped <==> polled.Ready? && polled.stop
      ensures o == Done ==> Valid() && fresh(footprint - old(footprint))
      ensures o == Done ==> Along(env, if stopped then turns else turns + [turn], sReq)
      ensures o != Done ==> !stopped && TurnAt(env, turns).None?
    {
      hide Wire, Results, Attempts, Tell, Next, RunTurns, Complete, Stored, TurnOf, StreamAfter, SendsAfter, AfterTurn;
      turn := Nothing;
      ghost var due, taken := TurnAt(env, turns), accepted;
      NextTaskIn(sReq.frames);
      o, stopped := OnPoll(Asked(polled, queue == [], sReq.frames != []), sReq, random);
      if !stopped && o == Done {
        turn := due.value;
        WholeAfter(StreamAfter(env.frames, turns), turn);
        FollowsNext(env, turns, turn);
      }
    }
  }

  /** What the loop meets: what polling reports turn by turn, what the result channel answers
      from the `sends`-th send on, the requests, and the numbers drawn. */
  datatype Surroundings = Surroundings(
    polls: seq<Polled>, answers: nat -> Answer, sends: nat, frames: seq<Frame>, random: nat -> nat)
  {
    /** The loop ends without an error after `k` turns. */
    predicate EndsAt(k: nat) {
      k == |polls| || (k < |polls| && polls[k].Ready? && polls[k].stop)
    }
  }

  /** What polling reports: nothing within a second, or some of the events asked for. */
  datatype Polled = TimedOut | Ready(stop: bool, pollOut: bool, pollIn: bool)

  /** The number of steps drawn: any from 1 to 9, and nothing else. */
  lemma StepsDrawn(fs: seq<Frame>, random: nat)
    requires |Body(fs)| == 2
    ensures 1 <= Arrival(fs, random).steps <= 9
    ensures Arrival(fs, random + 9) == Arrival(fs, random)
    ensures forall n: nat :: n < 9 ==> Arrival(fs, n).steps == n + 1
  {
  }

  /** The tasks asked for by the requests on a stream, as far as these have two parts. */
  function TasksIn(fs: seq<Frame>): seq<Content>
    requires Receiving.WholeMessages(fs)
    decreases |fs|
  {
    if fs == [] then []
    else
      Receiving.BodyFrames(fs);
      (if |Body(fs)| == 2 then [Body(fs)[1]] else []) + TasksIn(Rest(fs))
  }

  lemma NextTaskIn(fs: seq<Frame>)
    requires Receiving.WholeMessages(fs)
    ensures fs != [] && |Body(fs)| == 2 ==>
              Receiving.WholeMessages(Rest(fs)) && TasksIn(fs) == [Body(fs)[1]] + TasksIn(Rest(fs))
  {
  }

  /** Turn by turn, what polling reports decides what is done: a timeout runs the tasks, room on
      the channel is used for the result delayed last, and a request is taken in when no result
      is delayed; with its id and its number of steps. */
  lemma TurnsAreDue(env: Surroundings, turns: seq<Turn>, i: nat)
    requires Follows(env, turns) && i < |turns|
    ensures var p, w, fs := env.polls[i], RunTurns(START, turns[..i]), StreamAfter(env.frames, turns[..i]);
            && (p.TimedOut? <==> turns[i].Timeout?)
            && (p.Ready? ==> !p.stop)
            && (p.Ready? && p.pollOut && w.queue != [] <==> turns[i] == PollOut)
            && (p.Ready? && p.pollIn && w.queue == [] && fs != [] <==> turns[i].PollIn?)
            && (turns[i].PollIn? ==> |Body(fs)| == 2 && turns[i] == PollIn(Body(fs)[1], env.random(i) % 9 + 1))
  {
    hide RunTurns, StreamAfter, SendsAfter, Tell, Body;
    assert FollowsAt(env, turns, i);
  }

  /** What is asked for: room for results while one is delayed, new tasks while none is. */
  function Asked(p: Polled, idle: bool, arrived: bool): Polled {
    match p
    case TimedOut => p
    case Ready(stop, pollOut, pollIn) => Ready(stop, pollOut && !idle, pollIn && idle && arrived)
  }

  /** The turn that follows from what polling reports; none if it ends in an error. */
  function TurnOf(p: Polled, answers: nat -> Answer, n: nat, tasks: seq<Task>,
                  fs: seq<Frame>, random: nat): Option<Turn>
  {
    match p
    case TimedOut =>
      var t := Tell(answers, n, Finished(Decremented(tasks)));
      if t.outcome == Done then Some(Timeout(t.room)) else None
    case Ready(stop, pollOut, pollIn) =>
      if stop then Some(Nothing)
      else if pollOut then if answers(n) == answers(n + 1) == Accepted then Some(PollOut) else None
      else if pollIn then if |Body(fs)| == 2 then Some(Arrival(fs, random)) else None
      else Some(Nothing)
  }

  /** The task in the message at the head of the stream. */
  function Arrival(fs: seq<Frame>, random: nat): Turn
    requires |Body(fs)| == 2
  {
    PollIn(Body(fs)[1], random % (MAX_TASK_STEPS - 1) + 1)
  }

  function AfterTurn(fs: seq<Frame>, turn: Turn): seq<Frame> {
    if turn.PollIn? then Rest(fs) else fs
  }

  /** The requests left after the turns: each task taken in is one message. */
  function StreamAfter(fs: seq<Frame>, turns: seq<Turn>): seq<Frame> {
    if turns == [] then fs
    else AfterTurn(StreamAfter(fs, turns[..|turns| - 1]), turns[|turns| - 1])
  }

  /** How often the result channel is asked: once for a result put off, twice for one sent. */
  function SendsFor(room: seq<bool>): nat {
    if room == [] then 0 else SendsFor(room[..|room| - 1]) + (if room[|room| - 1] then 2 else 1)
  }

  function SendsOf(turn: Turn): nat {
    match turn
    case Timeout(room) => SendsFor(room)
    case PollOut => 2
    case _ => 0
  }

  function SendsAfter(turns: seq<Turn>): nat {
    if turns == [] then 0 else SendsAfter(turns[..|turns| - 1]) + SendsOf(turns[|turns| - 1])
  }

  /** The turn due after the given ones. */
  function TurnAt(env: Surroundings, turns: seq<Turn>): Option<Turn>
    requires |turns| < |env.polls|
  {
    var w, fs := RunTurns(START, turns), StreamAfter(env.frames, turns);
    TurnOf(Asked(env.polls[|turns|], w.queue == [], fs != []), env.answers, env.sends + SendsAfter(turns),
           w.tasks, fs, env.random(|turns|))
  }

  /** Every turn is the one due, and the loop did not end before it. */
  ghost predicate Follows(env: Surroundings, turns: seq<Turn>) {
    && |turns| <= |env.polls|
    && forall i :: 0 <= i < |turns| ==> FollowsAt(env, turns, i)
  }

  ghost predicate FollowsAt(env: Surroundings, turns: seq<Turn>, i: nat)
    requires i < |turns| <= |env.polls|
  {
    !env.EndsAt(i) && TurnAt(env, turns[..i]) == Some(turns[i])
  }

  lemma StartsHere(env: Surroundings)
    ensures RunTurns(START, []) == START && StreamAfter(env.frames, []) == env.frames && SendsAfter([]) == 0
  {
  }

  lemma FollowsNext(env: Surroundings, turns: seq<Turn>, turn: Turn)
    requires Follows(env, turns) && !env.EndsAt(|turns|) && TurnAt(env, turns) == Some(turn)
    ensures Follows(env, turns + [turn])
    ensures RunTurns(START, turns + [turn]) == Next(RunTurns(START, turns), turn)
    ensures StreamAfter(env.frames, turns + [turn]) == AfterTurn(StreamAfter(env.frames, turns), turn)
    ensures SendsAfter(turns + [turn]) == SendsAfter(turns) + SendsOf(turn)
  {
    hide TurnAt, Next, AfterTurn, SendsOf;
    var all := turns + [turn];
    assert turns[..|turns|] == turns;
    forall i | 0 <= i < |all| ensures FollowsAt(env, all, i) {
      assert all[..i] == turns[..i];
      assert i < |turns| ==> FollowsAt(env, turns, i);
    }
  }

  lemma WholeAfter(fs: seq<Frame>, turn: Turn)
    requires Receiving.WholeMessages(fs)
    ensures Receiving.WholeMessages(AfterTurn(fs, turn))
  {
  }

  lemma FollowsProperly(env: Surroundings, turns: seq<Turn>)
    requires Follows(env, turns)
    ensures ProperSteps(turns)
  {
    hide RunTurns, StreamAfter, SendsAfter, Tell, Body;
    forall s | s in turns && s.PollIn? ensures s.steps >= 1 {
      var i :| 0 <= i < |turns| && turns[i] == s;
      assert FollowsAt(env, turns, i);
    }
  }

  lemma TimeoutAsAged(w: World, room: seq<bool>)
    ensures var q := Next(w, Timeout(room));
            q.tasks == Aged(w.tasks, 1) && w.queue <= q.queue && w.channel <= q.channel
  {
    AgedByNone(w.tasks);
    TimeoutAges(w.tasks, 0);
  }

  lemma NothingHappens(w: World)
    ensures Next(w, Nothing) == w
  {
  }

  /** The attempts of what was told without an error. */
  lemma {:induction false} ToldSends(answers: nat -> Answer, n: nat, ids: seq<Content>)
    requires Tell(answers, n, ids).outcome == Done
    ensures var t := Tell(answers, n, ids); Attempts(t.events) == SendsFor(t.room)
  {
    hide TellOne, Attempts;
    NoneAttempted();
    if ids != [] {
      var t := Tell(answers, n, ids[..|ids| - 1]);
      var m, id := n + Attempts(t.events), ids[|ids| - 1];
      ToldSends(answers, n, ids[..|ids| - 1]);
      OneToldSends(answers, m, id);
      AttemptsConcat(t.events, TellOne(answers, m, id).events);
    }
  }

  lemma NoneAttempted()
    ensures Attempts([]) == 0
  {
  }

  lemma OneToldSends(answers: nat -> Answer, n: nat, id: Content)
    requires TellOne(answers, n, id).outcome == Done
    ensures var t := TellOne(answers, n, id);
            && (t.room == [true] || t.room == [false])
            && Attempts(t.events) == if t.room == [true] then 2 else 1
  {
    hide Attempts;
    AttemptsOfTwo(Attempt(FINISHED, true, true, answers(n)), Attempt(id, false, true, answers(n + 1)));
  }

  lemma AttemptsOfTwo(x: Event, y: Event)
    requires x.Attempt? && y.Attempt?
    ensures Attempts([x]) == 1 && Attempts([x, y]) == 2
  {
    hide Attempts;
    NoneAttempted();
    AttemptsSnoc([], x);
    AttemptsSnoc([x], y);
    assert [] + [x] == [x] && [x] + [y] == [x, y];
  }

  // --- when everything is accepted ----------------------------------------------------

  /** Every message has two parts. */
  predicate TwoParts(fs: seq<Frame>)
    decreases |fs|
  {
    fs == [] || (Complete(fs) && |Body(fs)| == 2 && (Receiving.BodyFrames(fs); TwoParts(Rest(fs))))
  }

  lemma {:induction false} StreamStaysTwoParts(fs: seq<Frame>, turns: seq<Turn>)
    requires TwoParts(fs)
    ensures TwoParts(StreamAfter(fs, turns))
  {
    if turns != [] {
      StreamStaysTwoParts(fs, turns[..|turns| - 1]);
    }
  }

  lemma {:induction false} TellAccepted(answers: nat -> Answer, n: nat, ids: seq<Content>)
    requires forall k :: answers(k) == Accepted
    ensures Tell(answers, n, ids).outcome == Done
  {
    hide Attempts;
    if ids != [] {
      TellAccepted(answers, n, ids[..|ids| - 1]);
    }
  }

  /** No turn fails if the result channel takes everything and the requests are well formed. */
  lemma NeverFails(env: Surroundings, turns: seq<Turn>)
    requires |turns| < |env.polls|
    ensures (forall k :: env.answers(k) == Accepted) && TwoParts(env.frames) ==> TurnAt(env, turns).Some?
  {
    hide Tell, RunTurns, StreamAfter, SendsAfter, Body, Complete;
    if (forall k :: env.answers(k) == Accepted) && TwoParts(env.frames) {
      StreamStaysTwoParts(env.frames, turns);
      TellAccepted(env.answers, env.sends + SendsAfter(turns), Finished(Decremented(RunTurns(START, turns).tasks)));
    }
  }

  method ReceiveTask(sReq: InSocket) returns (o: Outcome, id: Content)
    requires Complete(sReq.frames)
    modifies sReq
    ensures o == Done <==> |Body(old(sReq.frames))| == 2
    ensures o == Done ==> sReq.frames == Rest(old(sReq.frames)) && id == Body(old(sReq.frames))[1]
  {
    id := [];
    ghost var body := Body(sReq.frames);
    hide Body, Rest, Complete, SlotsOf, CapacityAfter, MovedAfter, Distinct;
    var ingress;
    o, ingress := ReceiveTwo(sReq);
    if o == Done {
      ghost var view := ingress.storage.View();
      assert view == Slots(body) && view[0].Some? && view[1] == Some(body[1]);
      var _ := ingress.Extract();
      var second := ingress.Extract();
      id := second.msg;
    }
  }

  /** A new incoming message without an envelope, which must have two parts. */
  method ReceiveTwo(sReq: InSocket) returns (o: Outcome, ingress: Incomings.Incoming)
    requires Complete(sReq.frames)
    modifies sReq
    ensures fresh(ingress) && ingress.Valid() && ingress.curExtractIdx == 0
    ensures o == Done <==> |Body(old(sReq.frames))| == 2
    ensures o == Done ==>
              sReq.frames == Rest(old(sReq.frames)) && ingress.storage.View() == Slots(Body(old(sReq.frames)))
  {
    Receiving.BodyFrames(sReq.frames);
    hide Body, Rest, Complete, CapacityAfter, MovedAfter, Distinct;
    ingress := new Incomings.Incoming(sReq, null, 10);
    o := ingress.Receive(2, true);
  }
}
