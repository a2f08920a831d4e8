/** Relaying a message from one socket to another. */
module Relays {
  import opened Frames
  import opened Parts
  import opened SinkSpec
  import opened Sockets
  import opened Resending
  import Receiving

  /** Receives and sends one frame. */
  method RelayFrame(src: InSocket, dst: OutSocket) returns (o: Outcome, ghost a: Answer)
    requires src.frames != []
    modifies src, dst
    ensures src.frames == old(src.frames)[1..] && src.rcvmore == old(src.frames)[0].more
    ensures a == old(dst.Next()) && o == Thrown(a)
    ensures var f := old(src.frames)[0];
            dst.timeline == old(dst.timeline) + [Attempt(f.content, f.more, false, a)]
  {
    var part := new Part();
    var _ := src.Receive(part);
    a := dst.Next();
    var answer := dst.Send(part, src.HasMore(), false);
    o := Thrown(answer);
  }

  /** Sending the parts up to the first error, with these answers, led from one timeline to the
      other. */
  ghost predicate Carried(dst: OutSocket, whole: seq<Content>, answers: seq<Answer>,
                          log: seq<Event>, timeline: seq<Event>, o: Outcome)
  {
    && |answers| <= |whole| && Answered(dst, Attempts(log), answers)
    && o == SendUpTo(Slots(whole), false, false, answers).outcome
    && timeline == log + SendUpTo(Slots(whole), false, false, answers).events
    && SentOneByOne(Slots(whole), false, false, answers, SendUpTo(Slots(whole), false, false, answers).events)
    && (o == Done ==> AllTaken(answers))
    && (o != Done ==> answers != [] && AllTaken(answers[..|answers| - 1]))
  }

  lemma CarriedNone(dst: OutSocket, whole: seq<Content>, log: seq<Event>)
    ensures Carried(dst, whole, [], log, log, Done)
  {
    SendNothing(Slots(whole), false, false);
  }

  /** One more part, after so many that were accepted. */
  lemma CarriedNext(dst: OutSocket, whole: seq<Content>, answers: seq<Answer>,
                    log: seq<Event>, timeline: seq<Event>, a: Answer)
    requires Carried(dst, whole, answers, log, timeline, Done) && |answers| < |whole|
    requires Attempts(timeline) == Attempts(log) + |answers| && a == dst.answers(Attempts(timeline))
    ensures var k := |answers|;
            var e := Attempt(whole[k], k < |whole| - 1, false, a);
            && Carried(dst, whole, answers + [a], log, timeline + [e], Thrown(a))
            && Attempts(timeline + [e]) == Attempts(log) + |answers| + 1
  {
    hide SendUpTo, Attempts, SentOneByOne;
    var k, slots := |answers|, Slots(whole);
    var e := Attempt(whole[k], k < |whole| - 1, false, a);
    var seen := SendUpTo(slots, false, false, answers).events;
    assert slots[k] == Some(whole[k]) && |slots| == |whole|;
    OneMoreSent(slots, false, false, answers, seen, a);
    assert seen + [] + [e] == seen + [e];
    SendSnoc(slots, false, false, answers, a);
    AttemptsSnoc(timeline, e);
    PartRelayed(whole, k, a);
    assert (answers + [a])[..k] == answers;
    assert (log + SendUpTo(slots, false, false, answers).events) + [e] ==
           log + (SendUpTo(slots, false, false, answers).events + [e]);
  }

  /** Relays one message; with the check, only what is left of one already begun. Returns how
      many parts were relayed. */
  method RelayRaw(src: InSocket, dst: OutSocket, checkFirstPart: bool)
    returns (relayed: nat, o: Outcome, ghost answers: seq<Answer>)
    requires src.rcvmore || !checkFirstPart ==> Complete(src.frames)
    modifies src, dst
    ensures var whole := if checkFirstPart && !old(src.rcvmore) then [] else Body(old(src.frames));
            && Carried(dst, whole, answers, old(dst.timeline), dst.timeline, o)
            && (o == Done ==> relayed == |answers| == |whole|)
            && (o == Done ==> !src.rcvmore)
            && (o == Done ==> src.frames == if whole == [] then old(src.frames) else Rest(old(src.frames)))
            && (o != Done ==> relayed == |answers| - 1)
    ensures |answers| <= |old(src.frames)| && src.frames == old(src.frames)[|answers|..]
  {
    relayed, o, answers := 0, Done, [];
    var more := if checkFirstPart then src.HasMore() else true;
    ghost var fs, whole := src.frames, if more then Body(src.frames) else [];
    ghost var log, a := dst.timeline, Accepted;
    CarriedNone(dst, whole, log);
    if more {
      Receiving.BodyFrames(fs);
    }
    hide Body, Rest, Complete, Carried, Attempts;
    while more
      invariant relayed == |answers| <= |whole| <= |fs| && o == Done
      invariant (more <==> relayed < |whole|) && (!more ==> !src.rcvmore)
      invariant src.frames == fs[relayed..]
      invariant Carried(dst, whole, answers, log, dst.timeline, o) && Attempts(dst.timeline) == Attempts(log) + relayed
      decreases |whole| - relayed
    {
      ghost var timeline := dst.timeline;
      o, a := RelayFrame(src, dst);
      more := src.HasMore();
      CarriedNext(dst, whole, answers, log, timeline, a);
      answers := answers + [a];
      if o != Done {
        return;
      }
      relayed := relayed + 1;
    }
  }

  lemma PartRelayed(whole: seq<Content>, k: nat, a: Answer)
    requires k < |whole|
    ensures |Slots(whole)| == |whole|
    ensures PartSent(Slots(whole), k, false, false, a) ==
            Sending([Attempt(whole[k], k < |whole| - 1, false, a)], Thrown(a))
  {
  }

  /** The parts accepted, of those offered up to the first error. */
  lemma WireUpTo(whole: seq<Content>, answers: seq<Answer>, n: nat)
    requires |answers| <= |whole| && n <= |answers| <= n + 1 && AllTaken(answers[..n])
    requires |answers| > n ==> answers[n] != Accepted
    ensures var r := SendUpTo(Slots(whole), false, false, answers);
            && Wire(r.events) == Framed(whole[..n], n == |whole|)
            && r.outcome == if |answers| > n then Thrown(answers[n]) else Done
  {
    hide Wire, Announced, Flushes, Framed, AllTaken, SendUpTo, PartSent, Slots;
    var slots, some := Slots(whole), answers[..n];
    AcceptedUpTo(whole, false, false, some);
    if |answers| > n {
      var e := Attempt(whole[n], n < |whole| - 1, false, answers[n]);
      PartRelayed(whole, n, answers[n]);
      SendSnoc(slots, false, false, some, answers[n]);
      assert some + [answers[n]] == answers;
      WireSnoc(SendUpTo(slots, false, false, some).events, e);
      assert WireOf(e) == [];
    } else {
      assert some == answers;
    }
  }

  /** Of the frames `fs`, the first `n` were accepted by the socket after `log` and are on the
      wire in the same order with the same flags. */
  ghost predicate Through(dst: OutSocket, log: seq<Event>, timeline: seq<Event>, fs: seq<Frame>, n: nat) {
    n <= |fs| && Wire(timeline) == Wire(log) + fs[..n] && dst.Accepts(Attempts(log), n)
  }

  lemma ThroughNext(dst: OutSocket, log: seq<Event>, between: seq<Event>, timeline: seq<Event>,
                    fs: seq<Frame>, m: nat, k: nat)
    requires Through(dst, log, between, fs, m) && Attempts(between) == Attempts(log) + m
    requires Through(dst, between, timeline, fs[m..], k)
    ensures Through(dst, log, timeline, fs, m + k)
  {
    hide Wire, Attempts;
    assert k <= |fs| - m && fs[..m] + fs[m..][..k] == fs[..m + k];
    assert Wire(log) + fs[..m] + fs[m..][..k] == Wire(log) + (fs[..m] + fs[m..][..k]);
  }

  /** The frames of a message, made from its parts again. */
  lemma FramedAsReceived(fs: seq<Frame>, n: nat)
    requires Complete(fs) && n <= |Body(fs)|
    ensures n <= |Body(fs)| <= |fs| && Framed(Body(fs)[..n], n == |Body(fs)|) == fs[..n]
  {
    Receiving.BodyFrames(fs);
  }

  /** All answers but the last are acceptances, and the last is one unless there is an error. */
  lemma CarriedAnswers(dst: OutSocket, whole: seq<Content>, answers: seq<Answer>,
                       log: seq<Event>, timeline: seq<Event>, o: Outcome)
    requires Carried(dst, whole, answers, log, timeline, o)
    ensures var n := if o == Done then |answers| else |answers| - 1;
            && n >= 0 && AllTaken(answers[..n]) && dst.Accepts(Attempts(log), n)
            && (|answers| > n ==> answers[n] != Accepted && answers[n] == dst.answers(Attempts(log) + n))
  {
    hide SendUpTo, Attempts;
    var n := if o == Done then |answers| else |answers| - 1;
    assert answers[..|answers|] == answers;
    if |answers| > n && answers[n] == Accepted {
      AllAccepted(whole, answers, n);
    }
    assert forall k :: Attempts(log) <= k < Attempts(log) + n ==> answers[..n][k - Attempts(log)] == dst.answers(k);
  }

  /** What a relay of one message puts on the wire: the frames it took, but for the one refused
      if there was one. */
  lemma CarriedFrames(dst: OutSocket, fs: seq<Frame>, answers: seq<Answer>,
                      log: seq<Event>, timeline: seq<Event>, o: Outcome)
    requires Complete(fs) && Carried(dst, Body(fs), answers, log, timeline, o)
    requires o == Done ==> |answers| == |Body(fs)|
    ensures var n := if o == Done then |answers| else |answers| - 1;
            && 0 <= n <= |answers| <= |fs| && Through(dst, log, timeline, fs, n)
            && (o != Done ==> o == Thrown(dst.answers(Attempts(log) + n)))
            && Attempts(timeline) == Attempts(log) + |answers|
  {
    var whole, n := Body(fs), if o == Done then |answers| else |answers| - 1;
    var events := SendUpTo(Slots(whole), false, false, answers).events;
    Receiving.BodyFrames(fs);
    CarriedAnswers(dst, whole, answers, log, timeline, o);
    hide Wire, Announced, Flushes, Attempts, SendUpTo, Body, Complete, AllTaken, Answered, Slots, Framed;
    WireUpTo(whole, answers, n);
    WireConcat(log, events);
    AttemptsUpTo(whole, answers, o);
    AttemptsConcat(log, events);
    FramedAsReceived(fs, n);
  }

  lemma AllAccepted(whole: seq<Content>, answers: seq<Answer>, n: nat)
    requires n + 1 == |answers| <= |whole| && AllTaken(answers[..n]) && answers[n] == Accepted
    ensures SendUpTo(Slots(whole), false, false, answers).outcome == Done
  {
    hide Wire, Announced, SendUpTo;
    AcceptedUpTo(whole, false, false, answers);
  }

  /** Each answer is one attempt, up to the first error. */
  lemma {:induction false} AttemptsUpTo(whole: seq<Content>, answers: seq<Answer>, o: Outcome)
    requires |answers| <= |whole| && o == SendUpTo(Slots(whole), false, false, answers).outcome
    requires o != Done ==> answers != [] && AllTaken(answers[..|answers| - 1])
    ensures Attempts(SendUpTo(Slots(whole), false, false, answers).events) == |answers|
  {
    if answers != [] {
      hide Wire, Announced, Attempts;
      var k, slots := |answers| - 1, Slots(whole);
      var some := answers[..k];
      if o == Done {
        DoneMeansTaken(slots, false, false, answers);
      }
      AcceptedUpTo(whole, false, false, some);
      AttemptsUpTo(whole, some, Done);
      AttemptsSnoc(SendUpTo(slots, false, false, some).events, Attempt(whole[k], k < |whole| - 1, false, answers[k]));
      PartRelayed(whole, k, answers[k]);
    }
  }

  lemma ThroughNone(dst: OutSocket, log: seq<Event>, fs: seq<Frame>)
    ensures Through(dst, log, log, fs, 0)
  {
  }

  /** Relaying keeps every frame and every message boundary: whatever stream of messages comes
      in, exactly its frames go out up to the first one the socket refuses, which is lost; all
      of them if and only if none is refused. */
  method RelayStream(src: InSocket, dst: OutSocket) returns (o: Outcome, ghost n: nat)
    requires Receiving.WholeMessages(src.frames)
    modifies src, dst
    ensures Through(dst, old(dst.timeline), dst.timeline, old(src.frames), n)
    ensures o == Done <==> n == |old(src.frames)|
    ensures o == Done ==> src.frames == []
    ensures o != Done ==>
              o == Thrown(dst.answers(old(Attempts(dst.timeline)) + n)) && src.frames == old(src.frames)[n + 1..]
  {
    hide Attempts, Wire, Complete, Body, Carried, SendUpTo, Through;
    ThroughNone(dst, dst.timeline, src.frames);
    ghost var fs, log, answers := src.frames, dst.timeline, [];
    o, n := Done, 0;
    while src.frames != []
      invariant o == Done && Receiving.WholeMessages(src.frames)
      invariant n <= |fs| && src.frames == fs[n..] && Through(dst, log, dst.timeline, fs, n)
      invariant Attempts(dst.timeline) == Attempts(log) + n
      decreases |src.frames|
    {
      ghost var here, timeline, m := src.frames, dst.timeline, n;
      Receiving.BodyFrames(here);
      var relayed;
      relayed, o, answers := RelayRaw(src, dst, false);
      CarriedFrames(dst, here, answers, timeline, dst.timeline, o);
      ghost var k := if o == Done then |answers| else |answers| - 1;
      ThroughNext(dst, log, timeline, dst.timeline, fs, m, k);
      n := m + k;
      if o != Done {
        return;
      }
    }
  }

  /** So does any chain of relays: behind every one of them is a prefix of the stream, and
      behind the last the whole of it if and only if none refused anything. */
  method RelayChain(stream: seq<Frame>, hops: seq<OutSocket>) returns (o: Outcome, last: seq<Frame>)
    requires Receiving.WholeMessages(stream)
    requires forall i :: 0 <= i < |hops| ==> hops[i].timeline == []
    requires forall i, j :: 0 <= i < j < |hops| ==> hops[i] != hops[j]
    modifies hops
    ensures forall i :: 0 <= i < |hops| ==> Wire(hops[i].timeline) <= stream
    ensures o == Done <==> forall i :: 0 <= i < |hops| ==> hops[i].Accepts(0, |stream|)
    ensures o == Done ==> last == stream && forall i :: 0 <= i < |hops| ==> Wire(hops[i].timeline) == stream
  {
    o, last := Done, stream;
    var i := 0;
    NothingSeen();
    assert Attempts([]) == 0;
    hide Wire, Attempts, Receiving.WholeMessages, Complete;
    while i < |hops|
      invariant 0 <= i <= |hops| && o == Done && last == stream
      invariant forall j :: 0 <= j < i ==> Wire(hops[j].timeline) == stream
      invariant forall j :: i <= j < |hops| ==> hops[j].timeline == []
      invariant forall j :: 0 <= j < i ==> hops[j].Accepts(0, |stream|)
    {
      var src := new InSocket(last);
      ghost var n;
      o, n := RelayStream(src, hops[i]);
      assert [] + stream[..n] == stream[..n];
      if o != Done {
        return;
      }
      last := Wire(hops[i].timeline);
      i := i + 1;
    }
  }
}
