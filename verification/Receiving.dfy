/** What receiving does, counted in parts of the message at hand. */
module Receiving {
  import opened Frames
  import opened SinkSpec

  /** Parts received by one call, what it leaves of the message, the terminal flag after it. */
  datatype Got = Got(parts: seq<Content>, left: seq<Content>, terminal: bool, outcome: Outcome)

  function Min(a: nat, b: nat): nat {
    if a < b then a else b
  }

  /** `receive`: exactly `n` parts of the `left` ones are wanted. */
  function Receive(left: seq<Content>, terminal: bool, n: nat, checkTerminal: bool): Got {
    if n == 0 then Got([], left, terminal, Done)
    else
      var m := Min(n, |left|);
      Got(left[..m], left[m..], |left| <= n,
          if |left| < n || (|left| > n && checkTerminal) then MessageFormatError else Done)
  }

  /** `receive_all`: all parts, at least `least`. */
  function ReceiveAll(left: seq<Content>, terminal: bool, least: nat): Got {
    if |left| < least then Got(left, [], true, MessageFormatError)
    else if least == 0 && terminal then Got([], left, true, Done)
    else Got(left, [], true, Done)
  }

  /** `receive_up_to`: at least `least` parts, then more up to `most`. */
  function ReceiveUpTo(left: seq<Content>, terminal: bool, least: nat, most: nat): Got {
    if |left| < least then Got(left, [], true, MessageFormatError)
    else if least == 0 && (terminal || most == 0) then Got([], left, terminal, Done)
    else
      var m := Min(if most > least then most else least, |left|);
      Got(left[..m], left[m..], m == |left|, Done)
  }

  /** Both begin as `receive` and go on only if the message does. */
  lemma GoingOn(left: seq<Content>, terminal: bool, least: nat, most: nat)
    requires left != [] || terminal
    ensures var r := Receive(left, terminal, least, false);
            && |r.parts| == Min(least, |left|)
            && (r.outcome != Done || r.terminal ==> ReceiveAll(left, terminal, least) == r)
            && (r.outcome != Done || r.terminal || most <= least ==> ReceiveUpTo(left, terminal, least, most) == r)
            && (r.outcome == Done && !r.terminal ==>
                && r.parts == left[..least] && least < |left|
                && ReceiveAll(left, terminal, least) == Got(left, [], true, Done)
                && (most > least ==>
                    ReceiveUpTo(left, terminal, least, most) ==
                    Got(left[..Min(most, |left|)], left[Min(most, |left|)..], Min(most, |left|) == |left|, Done)))
  {
    assert left[..|left|] == left;
  }

  datatype Op =
    | Exactly(n: nat, checkTerminal: bool)
    | All(least: nat)
    | UpTo(least: nat, most: nat)

  function Perform(left: seq<Content>, terminal: bool, op: Op): Got {
    match op
    case Exactly(n, c) => Receive(left, terminal, n, c)
    case All(least) => ReceiveAll(left, terminal, least)
    case UpTo(least, most) => ReceiveUpTo(left, terminal, least, most)
  }

  /** Receiving calls one after the other, up to the first error. */
  function PerformAll(body: seq<Content>, ops: seq<Op>): Got {
    if ops == [] then Got([], body, false, Done)
    else
      var g := PerformAll(body, ops[..|ops| - 1]);
      if g.outcome != Done then g
      else
        var h := Perform(g.left, g.terminal, ops[|ops| - 1]);
        Got(g.parts + h.parts, h.left, h.terminal, h.outcome)
  }

  /** The call reads at least one frame, whatever the terminal flag says. */
  predicate Reads(op: Op) {
    match op
    case Exactly(n, _) => n > 0
    case All(least) => least > 0
    case UpTo(least, _) => least > 0
  }

  /** No such call is made once the message is over: it would read into the next one. */
  predicate WithinMessage(body: seq<Content>, ops: seq<Op>) {
    ops == [] ||
    (WithinMessage(body, ops[..|ops| - 1]) &&
     !(PerformAll(body, ops[..|ops| - 1]).terminal && Reads(ops[|ops| - 1])))
  }

  /** Whatever mix of receiving calls is made on a message, the parts received and those left
      are together the message, and the terminal flag is right: it is set exactly when nothing
      is left. */
  lemma {:induction false} NothingLostReceiving(body: seq<Content>, ops: seq<Op>)
    requires body != [] && WithinMessage(body, ops)
    ensures var g := PerformAll(body, ops);
            g.parts + g.left == body && (g.terminal <==> g.left == [])
  {
    if ops != [] {
      var t, op := ops[..|ops| - 1], ops[|ops| - 1];
      NothingLostReceiving(body, t);
      var g := PerformAll(body, t);
      if g.outcome == Done {
        var h := Perform(g.left, g.terminal, op);
        OneCall(g.left, g.terminal, op);
        assert g.parts + (h.parts + h.left) == (g.parts + h.parts) + h.left;
      }
    }
  }

  /** Calls one by one: the next call, and nothing more after the first error. */
  lemma PerformNext(body: seq<Content>, ops: seq<Op>, i: nat)
    requires i < |ops| && WithinMessage(body, ops)
    ensures PerformAll(body, ops[..i + 1]) ==
            var g := PerformAll(body, ops[..i]);
            if g.outcome != Done then g
            else
              var h := Perform(g.left, g.terminal, ops[i]);
              Got(g.parts + h.parts, h.left, h.terminal, h.outcome)
    ensures WithinMessage(body, ops[..i]) && !(PerformAll(body, ops[..i]).terminal && Reads(ops[i]))
  {
    hide Perform, Reads;
    assert ops[..i + 1][..i] == ops[..i];
    WithinPrefix(body, ops, i + 1);
  }

  lemma {:induction false} WithinPrefix(body: seq<Content>, ops: seq<Op>, i: nat)
    requires i <= |ops| && WithinMessage(body, ops)
    ensures WithinMessage(body, ops[..i])
  {
    hide PerformAll, Reads;
    if i < |ops| {
      assert ops[..|ops| - 1][..i] == ops[..i];
      WithinPrefix(body, ops[..|ops| - 1], i);
    } else {
      assert ops[..i] == ops;
    }
  }

  lemma {:induction false} PerformStops(body: seq<Content>, ops: seq<Op>, i: nat)
    requires i <= |ops| && PerformAll(body, ops[..i]).outcome != Done
    ensures PerformAll(body, ops) == PerformAll(body, ops[..i])
  {
    hide Perform;
    if i < |ops| {
      assert ops[..|ops| - 1][..i] == ops[..i];
      PerformStops(body, ops[..|ops| - 1], i);
    } else {
      assert ops[..i] == ops;
    }
  }

  /** Once the message is over, a call that reads nothing does not depend on what follows. */
  lemma OverIsOver(left: seq<Content>, other: seq<Content>, op: Op)
    requires !Reads(op)
    ensures var g, h := Perform(left, true, op), Perform(other, true, op);
            g.parts == h.parts == [] && g.terminal == h.terminal && g.outcome == h.outcome
  {
  }

  /** One call splits what was left; it fails exactly when the counts do not fit. */
  lemma OneCall(left: seq<Content>, terminal: bool, op: Op)
    requires (terminal <==> left == []) && !(terminal && Reads(op))
    ensures var g := Perform(left, terminal, op);
            && g.parts + g.left == left && (g.terminal <==> g.left == [])
            && (g.outcome == MessageFormatError <==>
                match op
                case Exactly(n, c) => n > 0 && (|left| < n || (c && |left| > n))
                case All(least) => |left| < least
                case UpTo(least, _) => |left| < least)
  {
  }

  // --- envelopes ----------------------------------------------------------------------

  /** How many frames precede the first empty one. */
  function FirstEmpty(body: seq<Content>): (k: nat)
    ensures k <= |body| && (k < |body| ==> body[k] == [])
    ensures forall i :: 0 <= i < k ==> body[i] != []
  {
    if body == [] || body[0] == [] then 0 else 1 + FirstEmpty(body[1..])
  }

  /** The envelope that `capacity` slots can take, if the message has one. */
  function Envelope(body: seq<Content>, capacity: nat): Option<seq<Content>> {
    var k := FirstEmpty(body);
    if k < |body| && k < capacity then Some(body[..k + 1]) else None
  }

  /** The parts stored by the attempt to read an envelope. */
  function EnvelopeParts(body: seq<Content>, capacity: nat): seq<Content> {
    match Envelope(body, capacity)
    case Some(e) => e
    case None => body[..Min(capacity, |body|)]
  }

  /** An envelope is read exactly when there is an empty frame among the first `capacity`
      ones, and it is the shortest prefix that ends with one. */
  lemma EnvelopeIsShortest(body: seq<Content>, capacity: nat)
    ensures Envelope(body, capacity).Some? <==> exists i :: 0 <= i < Min(capacity, |body|) && body[i] == []
    ensures Envelope(body, capacity).Some? ==>
              var e := Envelope(body, capacity).value;
              && 0 < |e| <= capacity && e <= body && e[|e| - 1] == []
              && forall i :: 0 <= i < |e| - 1 ==> body[i] != []
  {
    var k := FirstEmpty(body);
    if k < Min(capacity, |body|) {
      assert body[k] == [];
    }
  }

  /** Looking at the frames one by one decides it. */
  lemma EnvelopeAt(body: seq<Content>, capacity: nat, i: nat)
    requires i <= FirstEmpty(body) && i <= Min(capacity, |body|)
    ensures i < Min(capacity, |body|) && body[i] == [] ==>
              Envelope(body, capacity) == Some(body[..i + 1]) && EnvelopeParts(body, capacity) == body[..i + 1]
    ensures i == Min(capacity, |body|) ==> Envelope(body, capacity).None? && EnvelopeParts(body, capacity) == body[..i]
    ensures i < |body| && body[i] != [] ==> i + 1 <= FirstEmpty(body)
  {
  }

  /** The frames of the message at hand, and where it ends. */
  lemma {:induction false} BodyFrames(fs: seq<Frame>)
    requires Complete(fs)
    ensures 0 < |Body(fs)| <= |fs| && Rest(fs) == fs[|Body(fs)|..]
    ensures forall i :: 0 <= i < |Body(fs)| ==>
              fs[i].content == Body(fs)[i] && (fs[i].more <==> i < |Body(fs)| - 1)
  {
    if fs[0].more {
      BodyFrames(fs[1..]);
      assert fs[1..][|Body(fs[1..])|..] == fs[|Body(fs)|..];
      forall i | 0 < i < |Body(fs)|
        ensures fs[i].content == Body(fs)[i] && (fs[i].more <==> i < |Body(fs)| - 1)
      {
        assert fs[i] == fs[1..][i - 1];
      }
    }
  }

  /** What is left of a message after `j` of its frames. */
  lemma {:induction false} BodySuffix(fs: seq<Frame>, j: nat)
    requires Complete(fs) && j < |Body(fs)|
    ensures j < |fs| && Complete(fs[j..]) && Body(fs[j..]) == Body(fs)[j..] && Rest(fs[j..]) == Rest(fs)
  {
    if j > 0 {
      BodySuffix(fs[1..], j - 1);
      assert fs[1..][j - 1..] == fs[j..];
      assert Body(fs[1..])[j - 1..] == Body(fs)[j..];
    } else {
      assert fs[0..] == fs;
    }
  }

  /** A stream of whole messages. */
  predicate WholeMessages(fs: seq<Frame>)
    decreases |fs|
  {
    fs == [] || (Complete(fs) && (BodyFrames(fs); WholeMessages(Rest(fs))))
  }
}
