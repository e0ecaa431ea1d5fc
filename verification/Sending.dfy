/** Sending events on a connection that several threads share. */
module Sending {
  import opened Bytes
  import opened SocketHelp
  import opened Framing
  import opened RingBuffer
  import opened Reassembly
  import opened AsWritten

  /** What one call of the system's send answers: a number of bytes, at least one of them, zero, or an error. */
  datatype Answer = Took(more: nat) | TookNothing | Failed

  /** How far a send got: to its end, given up, or to some count, with no answer left. */
  datatype Progress = Sent | EmptySend | InProgress(count: int)

  function Taken(remaining: nat, a: Answer): (n: nat)
    requires remaining > 0 && a.Took?
    ensures 1 <= n <= remaining
  {
    if a.more + 1 < remaining then a.more + 1 else remaining
  }

  /**
   * The n bytes from some count on. The count is unsigned, and goes round below zero; so does the
   * address that it is added to, and the bytes read there are those in front of the array.
   */
  function BytesFrom(data: seq<byte>, before: Memory, count: int, n: nat): (s: seq<byte>)
    requires count + n <= |data|
    ensures |s| == n
    ensures count >= 0 ==> s == data[count..count + n]
  {
    seq(n, k requires 0 <= k < n => if count + k >= 0 then data[count + k] else before(-(count + k) - 1))
  }

  /** The bytes written, and the progress made, from some count on. An error is -1, which is added to the count. */
  function Run(data: seq<byte>, before: Memory, count: int, answers: seq<Answer>): (r: (seq<byte>, Progress))
    requires count <= |data|
    decreases answers
  {
    if count == |data| then ([], Sent)
    else if answers == [] then ([], InProgress(count))
    else
      match answers[0]
      case TookNothing => ([], EmptySend)
      case Took(_) =>
        var n := Taken(|data| - count, answers[0]);
        var (out, p) := Run(data, before, count + n, answers[1..]);
        (BytesFrom(data, before, count, n) + out, p)
      case Failed => Run(data, before, count - 1, answers[1..])
  }

  /** The errors among the answers that a send gets before it ends. */
  function Errors(data: seq<byte>, count: int, answers: seq<Answer>): nat
    requires count <= |data|
    decreases answers
  {
    if count == |data| || answers == [] then 0
    else
      match answers[0]
      case TookNothing => 0
      case Took(_) => Errors(data, count + Taken(|data| - count, answers[0]), answers[1..])
      case Failed => 1 + Errors(data, count - 1, answers[1..])
  }

  class Socket {
    var wire: seq<byte>

    constructor ()
      ensures wire == []
    {
      wire := [];
    }

    /**
     * The loop of send, which runs under the lock of the connection. An error counts as a positive
     * answer, and takes the count back by one.
     */
    method Send(order: ByteOrder, e: Event, answers: seq<Answer>, before: Memory) returns (p: Progress)
      modifies this
      ensures var run := Run(Packed(e), before, 0, answers);
              p == run.1 && wire == old(wire) + run.0
    {
      var data := Pack(order, e);
      hide Packed, BytesFrom;
      var count := 0;
      var i := 0;
      while |data| != count
        invariant count <= |data| && i <= |answers|
        invariant var whole, rest := Run(data, before, 0, answers), Run(data, before, count, answers[i..]);
                  old(wire) + whole.0 == wire + rest.0 && whole.1 == rest.1
        decreases |answers| - i
      {
        if i == |answers| {
          return InProgress(count);
        }
        var a := answers[i];
        assert answers[i..][1..] == answers[i + 1..];
        i := i + 1;
        if a.TookNothing? {
          return EmptySend;
        }
        if a.Took? {
          var n := Taken(|data| - count, a);
          wire := wire + BytesFrom(data, before, count, n);
          count := count + n;
        } else {
          count := count - 1;
        }
      }
      return Sent;
    }
  }

  /**
   * How the loop ends: given up when the system takes nothing, and only then; waiting for the system
   * only when all of its answers are used up.
   */
  lemma {:induction false} Endings(data: seq<byte>, before: Memory, count: int, answers: seq<Answer>)
    requires count <= |data|
    ensures var p := Run(data, before, count, answers).1;
            && (p.EmptySend? ==> TookNothing in answers)
            && (p.InProgress? ==> TookNothing !in answers && p.count < |data|)
            && (TookNothing in answers ==> p.EmptySend? || p.Sent?)
            && (count == |data| ==> p.Sent?)
    decreases answers
  {
    hide BytesFrom;
    if count < |data| && answers != [] {
      match answers[0]
      case TookNothing =>
      case Took(_) => Endings(data, before, count + Taken(|data| - count, answers[0]), answers[1..]);
      case Failed => Endings(data, before, count - 1, answers[1..]);
    }
  }

  /** Every error sends one byte more. */
  lemma {:induction false} ErrorsAddBytes(data: seq<byte>, before: Memory, count: int, answers: seq<Answer>)
    requires count <= |data|
    ensures Run(data, before, count, answers).1.Sent? ==>
              |Run(data, before, count, answers).0| == |data| - count + Errors(data, count, answers)
    decreases answers
  {
    if count < |data| && answers != [] {
      match answers[0]
      case TookNothing =>
      case Took(_) => ErrorsAddBytes(data, before, count + Taken(|data| - count, answers[0]), answers[1..]);
      case Failed => ErrorsAddBytes(data, before, count - 1, answers[1..]);
    }
  }

  lemma {:induction false} WithoutErrors(data: seq<byte>, before: Memory, count: nat, answers: seq<Answer>)
    requires count <= |data| && Errors(data, count, answers) == 0
    ensures var (out, p) := Run(data, before, count, answers);
            && (p.Sent? ==> out == data[count..])
            && (p.InProgress? ==> count <= p.count < |data| && out == data[count..p.count])
            && (p.EmptySend? ==> out <= data[count..])
    decreases answers
  {
    hide BytesFrom;
    if count < |data| && answers != [] && answers[0].Took? {
      var n := Taken(|data| - count, answers[0]);
      WithoutErrors(data, before, count + n, answers[1..]);
      assert data[count..] == data[count..count + n] + data[count + n..];
      var p := Run(data, before, count, answers).1;
      if p.InProgress? {
        assert data[count..p.count] == data[count..count + n] + data[count + n..p.count];
      }
    }
  }

  /** A send that ends well has written the frame, and nothing else, exactly when no call answered with an error. */
  lemma SentIffWithoutErrors(e: Event, before: Memory, answers: seq<Answer>)
    requires Run(Packed(e), before, 0, answers).1.Sent?
    ensures Run(Packed(e), before, 0, answers).0 == Packed(e) <==> Errors(Packed(e), 0, answers) == 0
  {
    hide Packed, Run, Errors;
    ErrorsAddBytes(Packed(e), before, 0, answers);
    if Errors(Packed(e), 0, answers) == 0 {
      WithoutErrors(Packed(e), before, 0, answers);
    }
  }

  /** One error in the middle of the smallest frame: its second byte goes out twice. */
  lemma RepeatedByte(before: Memory)
    ensures Packed(Event([], [])) == [0, 3, 0]
    ensures Run(Packed(Event([], [])), before, 0, [Took(1), Failed, Took(1)]) == ([0, 3, 3, 0], Sent)
  {
    SmallestFrame();
    hide Packed;
    var answers := [Took(1), Failed, Took(1)];
    var data, last := Packed(Event([], [])), [Took(1)];
    assert answers[1..] == [Failed, Took(1)] && answers[1..][1..] == last;
    assert Run(data, before, 3, last[1..]) == ([], Sent);
    assert data[1..3] + [] == [3, 0];
    assert Run(data, before, 1, last) == ([3, 0], Sent);
    assert Run(data, before, 2, answers[1..]) == ([3, 0], Sent);
    assert data[0..2] + [3, 0] == [0, 3, 3, 0];
  }

  /** One error in front of it: a byte goes out that is not of the frame at all. */
  lemma ForeignByte(before: Memory)
    ensures Run(Packed(Event([], [])), before, 0, [Failed, Took(3)]) == ([before(0), 0, 3, 0], Sent)
  {
    SmallestFrame();
    hide Packed;
    var data, answers, last := Packed(Event([], [])), [Failed, Took(3)], [Took(3)];
    assert answers[1..] == last;
    assert Run(data, before, 3, last[1..]) == ([], Sent);
    assert BytesFrom(data, before, -1, 4) == [before(0), 0, 3, 0];
    assert [before(0), 0, 3, 0] + [] == [before(0), 0, 3, 0];
    assert Run(data, before, -1, last) == ([before(0), 0, 3, 0], Sent);
  }

  // ---------------------------------------------------------------------------
  // Threads
  // ---------------------------------------------------------------------------

  /** The thread that holds the lock of the connection. */
  datatype Holder = Nobody | Held(thread: nat, event: Event, count: int)

  /**
   * `torn`: some send was given up in the middle of its frame, got an error there, or wrote after
   * an error at its first byte.
   */
  datatype Line = Line(holder: Holder, wire: seq<byte>, done: seq<Event>, torn: bool)

  const QUIET := Line(Nobody, [], [], false)

  datatype Action =
    | Enter(thread: nat, event: Event)
    | Write(answer: Answer, before: Memory)
    | Leave

  /** One step of any thread. */
  ghost predicate Next(s: Line, a: Action, t: Line) {
    match a
    case Enter(thread, event) => s.holder.Nobody? && t == s.(holder := Held(thread, event, 0))
    case Write(answer, before) =>
      && s.holder.Held? && s.holder.count < |Packed(s.holder.event)|
      && t == Written(s, answer, before)
    case Leave =>
      && s.holder.Held? && s.holder.count == |Packed(s.holder.event)|
      && t == s.(holder := Nobody, done := s.done + [s.holder.event])
  }

  /** The line after one call of the system's send. */
  function Written(s: Line, answer: Answer, before: Memory): Line
    requires s.holder.Held? && s.holder.count < |Packed(s.holder.event)|
  {
    var data, count := Packed(s.holder.event), s.holder.count;
    match answer
    case Took(_) =>
      var n := Taken(|data| - count, answer);
      s.(wire := s.wire + BytesFrom(data, before, count, n),
         holder := s.holder.(count := count + n), torn := s.torn || count < 0)
    case TookNothing => s.(holder := Nobody, torn := s.torn || count > 0)
    case Failed => s.(holder := s.holder.(count := count - 1), torn := s.torn || count > 0)
  }

  ghost predicate IsRun(states: seq<Line>, actions: seq<Action>) {
    && |states| == |actions| + 1 && states[0] == QUIET
    && forall i :: 0 <= i < |actions| ==> Next(states[i], actions[i], states[i + 1])
  }

  /** The beginning of the one frame that is being written. */
  function Begun(s: Line): seq<byte> {
    if s.holder.Held? && 0 <= s.holder.count <= |Packed(s.holder.event)| then Packed(s.holder.event)[..s.holder.count]
    else []
  }

  /** The wire holds the frames that are done and the beginning of the next; a torn one holds more. */
  ghost predicate InFrames(s: Line) {
    && (s.holder.Held? ==> s.holder.count <= |Packed(s.holder.event)|)
    && if s.torn then |s.wire| > |PackedAll(s.done)| + |Begun(s)|
       else s.wire == PackedAll(s.done) + Begun(s)
  }

  lemma {:induction false} PackedAllAppend(es: seq<Event>, e: Event)
    ensures PackedAll(es + [e]) == PackedAll(es) + Packed(e)
  {
    PackedAllSplits(es + [e], |es|);
    assert (es + [e])[..|es|] == es && (es + [e])[|es|..] == [e];
    assert [e][1..] == [] && PackedAll([e]) == Packed(e) + [];
  }

  lemma StepStaysInFrames(s: Line, a: Action, t: Line)
    requires InFrames(s) && Next(s, a, t)
    ensures InFrames(t)
  {
    hide Packed, PackedAll, BytesFrom;
    if s.holder.Held? {
      PackedAllAppend(s.done, s.holder.event);
      var data := Packed(s.holder.event);
      assert data[..|data|] == data;
      if 0 <= s.holder.count && t.holder.Held? && t.holder.count > s.holder.count {
        assert data[..t.holder.count] == data[..s.holder.count] + data[s.holder.count..t.holder.count];
      }
    }
  }

  lemma {:induction false} RunsStayInFrames(states: seq<Line>, actions: seq<Action>, i: nat)
    requires IsRun(states, actions) && i < |states|
    ensures InFrames(states[i])
  {
    if i > 0 {
      RunsStayInFrames(states, actions, i - 1);
      StepStaysInFrames(states[i - 1], actions[i - 1], states[i]);
    }
  }

  /**
   * The bytes on the wire are the frames of the sends that are done, in the order the lock was
   * given, and then the beginning of the one that is going on, if and only if no send was given up
   * or got an error in the middle of its frame, or wrote after an error at its first byte.
   */
  lemma FramesNeverInterleave(states: seq<Line>, actions: seq<Action>, i: nat)
    requires IsRun(states, actions) && i < |states|
    ensures states[i].wire == PackedAll(states[i].done) + Begun(states[i]) <==> !states[i].torn
  {
    RunsStayInFrames(states, actions, i);
  }

  /** What a thread does for the answers that it gets, until its send ends. */
  function Writes(count: int, size: nat, answers: seq<Answer>, before: Memory): seq<Action>
    requires count <= size
    decreases answers
  {
    if count == size || answers == [] then []
    else
      match answers[0]
      case TookNothing => [Write(answers[0], before)]
      case Took(_) =>
        [Write(answers[0], before)] + Writes(count + Taken(size - count, answers[0]), size, answers[1..], before)
      case Failed => [Write(answers[0], before)] + Writes(count - 1, size, answers[1..], before)
  }

  lemma OneMore(states: seq<Line>, actions: seq<Action>, a: Action, t: Line)
    requires IsRun(states, actions) && Next(states[|states| - 1], a, t)
    ensures IsRun(states + [t], actions + [a])
  {
    hide Next;
  }

  /**
   * The thread that holds the lock does what the loop does: it puts the same bytes on the wire, and
   * ends in the same way.
   */
  lemma {:induction false} WritesAreRun(states: seq<Line>, actions: seq<Action>, answers: seq<Answer>, before: Memory)
    returns (more: seq<Line>, acts: seq<Action>)
    requires IsRun(states, actions)
    requires var s := states[|states| - 1]; s.holder.Held? && s.holder.count <= |Packed(s.holder.event)|
    ensures var s := states[|states| - 1];
            var data := Packed(s.holder.event);
            && IsRun(more, acts) && acts == actions + Writes(s.holder.count, |data|, answers, before)
            && Follows(s, more[|more| - 1], Run(data, before, s.holder.count, answers))
    decreases answers
  {
    hide Packed, BytesFrom, Next;
    var s := states[|states| - 1];
    var data, count := Packed(s.holder.event), s.holder.count;
    if count == |data| || answers == [] {
      assert actions + [] == actions && s.wire + [] == s.wire;
      more, acts := states, actions;
    } else {
      var a := Write(answers[0], before);
      var t := Written(s, answers[0], before);
      WriteIsNext(s, answers[0], before);
      OneMore(states, actions, a, t);
      if answers[0].TookNothing? {
        assert s.wire + [] == s.wire;
        more, acts := states + [t], actions + [a];
      } else {
        more, acts := WritesAreRun(states + [t], actions + [a], answers[1..], before);
        var rest := Writes(t.holder.count, |data|, answers[1..], before);
        assert (actions + [a]) + rest == actions + ([a] + rest);
        SameWire(s, answers[0], before, Run(data, before, t.holder.count, answers[1..]).0);
      }
    }
  }

  lemma WriteIsNext(s: Line, answer: Answer, before: Memory)
    requires s.holder.Held? && s.holder.count < |Packed(s.holder.event)|
    ensures Next(s, Write(answer, before), Written(s, answer, before))
  {
    hide Packed, Written;
  }

  lemma SameWire(s: Line, answer: Answer, before: Memory, rest: seq<byte>)
    requires s.holder.Held? && s.holder.count < |Packed(s.holder.event)| && !answer.TookNothing?
    ensures var data, count := Packed(s.holder.event), s.holder.count;
            Written(s, answer, before).wire + rest ==
            s.wire + if answer.Took? then BytesFrom(data, before, count, Taken(|data| - count, answer)) + rest else rest
  {
    hide Packed, BytesFrom;
  }

  /** The line t has what the loop wrote, and its holder is where the loop ended. */
  ghost predicate Follows(s: Line, t: Line, run: (seq<byte>, Progress))
    requires s.holder.Held?
  {
    && t.wire == s.wire + run.0 && t.done == s.done
    && match run.1
       case Sent => t.holder == s.holder.(count := |Packed(s.holder.event)|)
       case EmptySend => t.holder == Nobody
       case InProgress(count) => t.holder == s.holder.(count := count)
  }

  /** A thread that gets the lock of a line does to it what a send does to its socket, for the same answers. */
  lemma SendIsOnTheLine(states: seq<Line>, actions: seq<Action>, thread: nat, e: Event,
          answers: seq<Answer>, before: Memory)
    returns (more: seq<Line>, acts: seq<Action>)
    requires IsRun(states, actions) && states[|states| - 1].holder.Nobody?
    ensures IsRun(more, acts)
    ensures acts == actions + [Enter(thread, e)] + Writes(0, |Packed(e)|, answers, before)
    ensures var s := states[|states| - 1].(holder := Held(thread, e, 0));
            Follows(s, more[|more| - 1], Run(Packed(e), before, 0, answers))
  {
    hide Packed, Run, Writes, Follows;
    var s := states[|states| - 1].(holder := Held(thread, e, 0));
    var next, so := states + [s], actions + [Enter(thread, e)];
    OneMore(states, actions, Enter(thread, e), s);
    more, acts := WritesAreRun(next, so, answers, before);
  }

  /** A send that is given up in the middle leaves a piece of its frame in front of the next one. */
  lemma GivenUpTears(before: Memory) returns (states: seq<Line>, actions: seq<Action>)
    ensures IsRun(states, actions)
    ensures var last := states[|states| - 1];
            && last.torn && last.holder == Nobody && last.done == [Event([], [])]
            && last.wire == [0] + Packed(Event([], [])) && last.wire != PackedAll(last.done) + Begun(last)
  {
    var e := Event([], []);
    SmallestFrame();
    var f := Packed(e);
    hide Packed;
    actions := [Enter(0, e), Write(Took(0), before), Write(TookNothing, before),
                Enter(1, e), Write(Took(2), before), Leave];
    states := [QUIET, QUIET.(holder := Held(0, e, 0)), QUIET.(holder := Held(0, e, 1), wire := [0]),
               Line(Nobody, [0], [], true), Line(Held(1, e, 0), [0], [], true),
               Line(Held(1, e, 3), [0] + f, [], true), Line(Nobody, [0] + f, [e], true)];
    assert [] + BytesFrom(f, before, 0, 1) == [0];
    assert BytesFrom(f, before, 0, 3) == f;
    assert PackedAll([e]) == f + [];
  }

  function Attempted(s: Line): seq<Event> {
    if s.holder.Held? then s.done + [s.holder.event] else s.done
  }

  /**
   * From any number of sending threads to the receiver: what it gets is what was sent, in order,
   * and nothing twice. Its index goes round the buffer, or all frames fit without that.
   */
  lemma SentIsReceived(states: seq<Line>, actions: seq<Action>, i: nat, chunks: seq<seq<byte>>,
                       r: Ring, wraps: bool, beyond: Memory) returns (k: nat)
    requires IsRun(states, actions) && i < |states| && !states[i].torn
    requires AllSendable(Attempted(states[i]), BUFFER_SIZE - CHUNK + 1)
    requires AreChunks(chunks) && Flatten(chunks) <= states[i].wire
    requires r.Valid() && |r.cells| == BUFFER_SIZE + 1 && r.start == r.end
    requires wraps || FramesFit(BUFFER_SIZE + 1, r.start, Attempted(states[i]))
    ensures k <= |Attempted(states[i])|
    ensures ReceivedRing(r, wraps, chunks, beyond).events == Attempted(states[i])[..k]
    ensures Flatten(chunks) == states[i].wire ==> k >= |states[i].done|
  {
    RunsStayInFrames(states, actions, i);
    var s := states[i];
    var es := Attempted(s);
    hide Packed, ReceivedRing, Received, FramesFit;
    if s.holder.Held? {
      PackedAllAppend(s.done, s.holder.event);
      assert s.wire <= PackedAll(es);
    }
    StreamReassembles(BUFFER_SIZE, es, chunks);
    k :| Splits(Flatten(chunks), es, k, Received(BUFFER_SIZE, [], chunks));
    if wraps {
      WrappedReceives(r, chunks, beyond);
      assert r.Contents() == [];
    } else {
      FittingFollows(r, es, chunks, beyond);
    }
    if k < |s.done| {
      DoneIsWritten(s, k);
    }
  }

  /** As the code stands, all that the threads have sent comes out, for any memory, exactly when all frames fit. */
  lemma SentIsReceivedIffFit(states: seq<Line>, actions: seq<Action>, i: nat, chunks: seq<seq<byte>>, start: nat)
    requires IsRun(states, actions) && i < |states| && !states[i].torn && states[i].holder.Nobody?
    requires AllSendable(states[i].done, BUFFER_SIZE - CHUNK + 1)
    requires AreChunks(chunks) && Flatten(chunks) == states[i].wire && start <= BUFFER_SIZE
    ensures (forall cells: seq<byte>, beyond: Memory :: |cells| == BUFFER_SIZE + 1 ==>
               Bare(ReceivedRing(Ring(cells, start, start), false, chunks, beyond)) == Reading(states[i].done, []))
            <==> FramesFit(BUFFER_SIZE + 1, start, states[i].done)
  {
    RunsStayInFrames(states, actions, i);
    hide Packed, PackedAll, ReceivedRing, FramesFit;
    assert states[i].wire == PackedAll(states[i].done);
    StreamReassemblesIffFit(BUFFER_SIZE, start, states[i].done, chunks);
  }

  /** A frame that is done is on the wire to its last byte. */
  lemma DoneIsWritten(s: Line, k: nat)
    requires InFrames(s) && !s.torn && k < |s.done|
    ensures Attempted(s)[..k] == s.done[..k] && Attempted(s)[k..][0] == s.done[k]
    ensures |s.wire| >= |PackedAll(s.done[..k])| + |Packed(s.done[k])|
  {
    hide Packed;
    PackedAllSplits(s.done, k);
    assert PackedAll(s.done[k..]) == Packed(s.done[k]) + PackedAll(s.done[k..][1..]);
  }
}
