/** The two ends of ZeroMQ as environments: a socket sent to and a socket received from. */
module Sockets {
  import opened Frames
  import opened Parts
  import opened SinkSpec

  /** A socket to send to. Its answers are arbitrary but fixed in advance; the timeline also
      has what the send observer is told, in the order it happens. */
  class OutSocket {
    const answers: nat -> Answer
    var timeline: seq<Event>

    constructor (answers: nat -> Answer)
      ensures this.answers == answers && timeline == []
    {
      this.answers, timeline := answers, [];
    }

    /** The answer the next send will get. */
    function Next(): Answer
      reads this
    {
      answers(Attempts(timeline))
    }

    /** The socket accepts `n` sends from the `from`-th on. */
    ghost predicate Accepts(from: nat, n: nat) {
      Accepting(answers, from, n)
    }

    /** An accepted part is emptied, a refused one is left as it was. */
    method Send(msg: Part, more: bool, noblock: bool) returns (a: Answer)
      modifies this, msg`msg
      ensures a == old(Next())
      ensures timeline == old(timeline) + [Attempt(old(msg.msg), more, noblock, a)]
      ensures msg.msg == if a == Accepted then [] else old(msg.msg)
    {
      a := Next();
      timeline := timeline + [Attempt(msg.msg, more, noblock, a)];
      if a == Accepted {
        msg.msg := [];
      }
    }

    /** A callback of the send observer. */
    method Notice(e: Event)
      requires !e.Attempt?
      modifies this`timeline
      ensures timeline == old(timeline) + [e] && Next() == old(Next())
    {
      AttemptsSnoc(timeline, e);
      timeline := timeline + [e];
    }
  }

  ghost predicate Accepting(answers: nat -> Answer, from: nat, n: nat) {
    forall k :: from <= k < from + n ==> answers(k) == Accepted
  }

  /** A socket to receive from: the frames still to come, and the flag of the frame received
      last. A receive with no frame left fails. */
  class InSocket {
    var frames: seq<Frame>
    var rcvmore: bool

    constructor (frames: seq<Frame>)
      ensures this.frames == frames && !rcvmore
    {
      this.frames, rcvmore := frames, false;
    }

    /** What is left of the message being received. */
    function Left(): seq<Content>
      reads this
    {
      if rcvmore then Body(frames) else []
    }

    method Receive(msg: Part) returns (ok: bool)
      modifies this, msg`msg
      ensures ok <==> old(frames) != []
      ensures ok ==> frames == old(frames)[1..] && rcvmore == old(frames)[0].more && msg.msg == old(frames)[0].content
      ensures !ok ==> unchanged(this) && unchanged(msg)
    {
      if frames == [] {
        return false;
      }
      msg.msg, rcvmore, frames := frames[0].content, frames[0].more, frames[1..];
      ok := true;
    }

    predicate HasMore()
      reads this
    {
      rcvmore
    }
  }
}
