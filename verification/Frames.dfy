/** Contents, frames and the way a ZeroMQ stream groups frames into messages. */
module Frames {

  datatype Option<+T> = None | Some(value: T)

  newtype byte = b: int | 0 <= b < 256

  /** What one message part carries. */
  type Content = seq<byte>

  /** A slot holding a part: `None` when the part is not valid (owned elsewhere). */
  type Slot = Option<Content>

  /** One frame on a socket; `more` is the ZMQ_SNDMORE / ZMQ_RCVMORE flag. */
  datatype Frame = Frame(content: Content, more: bool)

  /** The frames of `parts` with the flag set on all but the last, where it is `!last`. */
  function Framed(parts: seq<Content>, last: bool): seq<Frame> {
    seq(|parts|, i requires 0 <= i < |parts| => Frame(parts[i], i < |parts| - 1 || !last))
  }

  /** The frames of one complete multipart message. */
  function Message(parts: seq<Content>): seq<Frame> {
    Framed(parts, true)
  }

  /** The contents of the frames up to the end of the current message. */
  function Body(fs: seq<Frame>): seq<Content> {
    if fs == [] then []
    else if fs[0].more then [fs[0].content] + Body(fs[1..])
    else [fs[0].content]
  }

  /** What follows the current message on the stream. */
  function Rest(fs: seq<Frame>): seq<Frame> {
    if fs == [] then []
    else if fs[0].more then Rest(fs[1..])
    else fs[1..]
  }

  /** The current message ends within the stream: ZeroMQ delivers whole messages only. */
  predicate Complete(fs: seq<Frame>) {
    fs != [] && (fs[0].more ==> Complete(fs[1..]))
  }

  /** The valid contents held by a row of slots, in order. */
  function Contents(slots: seq<Slot>): seq<Content> {
    if slots == [] then []
    else Contents(slots[..|slots| - 1]) +
         (match slots[|slots| - 1] case None => [] case Some(c) => [c])
  }

  lemma {:induction false} ContentsConcat(a: seq<Slot>, b: seq<Slot>)
    ensures Contents(a + b) == Contents(a) + Contents(b)
  {
    if b == [] {
      assert a + b == a;
    } else {
      assert (a + b)[..|a + b| - 1] == a + b[..|b| - 1];
      ContentsConcat(a, b[..|b| - 1]);
    }
  }

  function Slots(parts: seq<Content>): seq<Slot> {
    seq(|parts|, i requires 0 <= i < |parts| => Some(parts[i]))
  }

  lemma SlotsNext(parts: seq<Content>, i: nat)
    requires i < |parts|
    ensures Slots(parts[..i + 1]) == Slots(parts[..i]) + [Some(parts[i])]
  {
  }

  /** A message followed by anything is read back as exactly that message. */
  lemma {:induction false} BodyOfMessage(parts: seq<Content>, rest: seq<Frame>)
    requires parts != []
    ensures Complete(Message(parts) + rest)
    ensures Body(Message(parts) + rest) == parts
    ensures Rest(Message(parts) + rest) == rest
  {
    var fs := Message(parts) + rest;
    if |parts| == 1 {
      assert fs[1..] == rest;
    } else {
      assert parts == [parts[0]] + parts[1..];
      MessageCons(parts[0], parts[1..]);
      hide Message;
      BodyOfMessage(parts[1..], rest);
      assert fs[1..] == Message(parts[1..]) + rest;
    }
  }

  lemma MessageCons(c: Content, parts: seq<Content>)
    requires parts != []
    ensures Message([c] + parts) == [Frame(c, true)] + Message(parts)
  {
  }

  /** A complete stream splits uniquely into its first message and what follows. */
  lemma {:induction false} SplitMessage(fs: seq<Frame>)
    requires Complete(fs)
    ensures Body(fs) != [] && fs == Message(Body(fs)) + Rest(fs)
  {
    if fs[0].more {
      hide Message;
      var b, r := Body(fs[1..]), Rest(fs[1..]);
      SplitMessage(fs[1..]);
      MessageCons(fs[0].content, b);
      assert fs == [fs[0]] + fs[1..] == [fs[0]] + (Message(b) + r) == ([fs[0]] + Message(b)) + r;
    } else {
      assert Message([fs[0].content]) == [fs[0]];
    }
  }

  /** Receiving the first frame of a complete stream. */
  lemma ReceiveFrame(fs: seq<Frame>)
    requires Complete(fs)
    ensures fs != [] && (fs[0].more ==> Complete(fs[1..]))
    ensures Body(fs) == [fs[0].content] + (if fs[0].more then Body(fs[1..]) else [])
    ensures Rest(fs) == if fs[0].more then Rest(fs[1..]) else fs[1..]
  {
  }

  /** Appending the last part of a message. */
  lemma FramedSnoc(parts: seq<Content>, c: Content, last: bool)
    ensures Framed(parts + [c], last) == Framed(parts, false) + [Frame(c, !last)]
  {
  }
}
