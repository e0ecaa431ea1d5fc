/**
 * The chunks that a full buffer refuses. As the code stands, a frame whose length is cut in two by
 * the end of the array can be taken for a longer one with a bad packet. Then it blocks, and the
 * buffer overflows.
 */
module Refusals {
  import opened Bytes
  import opened Wire
  import opened Framing
  import opened RingBuffer
  import opened Placement
  import opened Reassembly
  import opened AsWritten

  lemma {:induction false} PackedAllConcat(a: seq<Event>, b: seq<Event>)
    ensures PackedAll(a + b) == PackedAll(a) + PackedAll(b)
  {
    hide Packed;
    PackedAllSplits(a + b, |a|);
    assert (a + b)[..|a|] == a && (a + b)[|a|..] == b;
  }

  lemma {:induction false} FlattenConcat(a: seq<seq<byte>>, b: seq<seq<byte>>)
    ensures Flatten(a + b) == Flatten(a) + Flatten(b)
  {
    if a == [] {
      assert a + b == b;
    } else {
      FlattenConcat(a[1..], b);
      assert (a + b)[1..] == a[1..] + b;
    }
  }

  lemma {:induction false} RefusedLater(r: Ring, wraps: bool, a: seq<seq<byte>>, b: seq<seq<byte>>, beyond: Memory)
    requires r.Valid() && NeverRefusedRing(r, wraps, a + b, beyond)
    ensures NeverRefusedRing(r, wraps, a, beyond)
    ensures NeverRefusedRing(ReceivedRing(r, wraps, a, beyond).left, wraps, b, beyond)
    decreases |a|
  {
    hide DrainedRing, PutRing, Ring.Contents;
    if a == [] {
      assert a + b == b;
    } else {
      assert (a + b)[0] == a[0] && (a + b)[1..] == a[1..] + b;
      RefusedLater(DrainedRing(PutRing(r, a[0]), wraps, beyond).left, wraps, a[1..], b, beyond);
    }
  }

  // The end of the buffer moves on by what is put.

  function Turned(pos: nat, n: nat, cells: nat): nat
    requires cells > 0
  {
    (pos + n) % cells
  }

  lemma TurnedTwice(pos: nat, a: nat, b: nat, cells: nat)
    requires cells > 0
    ensures Turned(Turned(pos, a, cells), b, cells) == Turned(pos, a + b, cells)
  {
    ModAdd(pos + a, b, cells);
  }

  lemma TurnedLittle(pos: nat, cells: nat)
    requires pos < cells
    ensures Turned(pos, 0, cells) == pos && Turned(pos, 1, cells) == Round(pos + 1, cells)
  {
    assert Round(pos, cells) == pos;
  }

  lemma {:induction false} WrittenMovesEnd(r: Ring, s: seq<byte>)
    requires r.Valid() && |r.Contents()| + |s| < |r.cells|
    ensures r.Written(s).end == Turned(r.end, |s|, |r.cells|)
    decreases |s|
  {
    hide Between, Ring.Contents, Turned, Round;
    if s == [] {
      TurnedLittle(r.end, |r.cells|);
    } else {
      var most := s[..|s| - 1];
      WrittenMovesEnd(r, most);
      TurnedLittle(r.Written(most).end, |r.cells|);
      TurnedTwice(r.end, |most|, 1, |r.cells|);
    }
  }

  lemma {:induction false} DrainKeepsEnd(r: Ring, wraps: bool, beyond: Memory)
    requires r.Valid()
    ensures DrainedRing(r, wraps, beyond).left.end == r.end
    decreases |r.Contents()|
  {
    DrainRingStep(r, wraps, beyond);
    var step := Extract(r.Seen(wraps, beyond));
    hide Extract, DrainedRing, Ring.Seen, Ring.Contents;
    if step.Picked? {
      DrainKeepsEnd(r.Past(step.length), wraps, beyond);
    }
  }

  lemma PutMovesEnd(r: Ring, chunk: seq<byte>)
    requires r.Valid() && Accepts(|r.cells| - 1, r.Contents(), chunk)
    ensures PutRing(r, chunk).end == Turned(r.end, |chunk|, |r.cells|)
  {
    hide Ring.Contents, Ring.Written, Turned;
    WrittenMovesEnd(r, chunk);
  }

  lemma {:induction false} ReceivedMovesEnd(r: Ring, wraps: bool, chunks: seq<seq<byte>>, beyond: Memory)
    requires r.Valid() && NeverRefusedRing(r, wraps, chunks, beyond)
    ensures ReceivedRing(r, wraps, chunks, beyond).left.end == Turned(r.end, |Flatten(chunks)|, |r.cells|)
    decreases |chunks|
  {
    hide DrainedRing, PutRing, Ring.Contents, Turned;
    if chunks == [] {
      TurnedLittle(r.end, |r.cells|);
    } else {
      PutMovesEnd(r, chunks[0]);
      var d := DrainedRing(PutRing(r, chunks[0]), wraps, beyond).left;
      DrainKeepsEnd(PutRing(r, chunks[0]), wraps, beyond);
      ReceivedMovesEnd(d, wraps, chunks[1..], beyond);
      TurnedTwice(r.end, |chunks[0]|, |Flatten(chunks[1..])|, |r.cells|);
    }
  }

  /** 85 of the smallest frames, with the first one cut in two, look like one frame of 255 bytes with a bad packet. */
  lemma SplitIsRejected(r: Ring, beyond: Memory)
    requires r.Valid() && |r.cells| == BUFFER_SIZE + 1 && r.start == BUFFER_SIZE && Holds(beyond, 255)
    requires |r.Contents()| == 255 && r.Contents()[0] == 0 && r.Contents()[2] == 0 && r.Contents()[3] == 0
    ensures Extract(r.Seen(false, beyond)).Rejected?
  {
    var v := r.Seen(false, beyond);
    SeenAt(r, false, beyond, 0);
    SeenAt(r, false, beyond, 1);
    SeenAt(r, false, beyond, 2);
    SeenAt(r, false, beyond, 3);
    hide Ring.Seen, Ring.Contents, ExtractBody, IsEncoding;
    TwoBytes(v);
    var body := v[2..255];
    assert body[0] == 0 && body[1..][0] == 0;
    ZeroIsNoItem(body[1..]);
    BodyOutcome(body, 0, 255);
    assert body[0 + 1..] == body[1..];
  }

  lemma ZeroIsNoItem(s: seq<byte>)
    requires s != [] && s[0] == 0
    ensures !IsEncoding(s)
  {
    IsEncodingIffParses(s);
    hide IsEncoding;
    assert ScalarOfTag(0).None? && ArrayOfTag(0).None?;
    assert ParseItem(s, 0).NoItem?;
  }

  lemma SmallFrames(k: nat)
    requires k >= 2
    ensures var s := PackedAll(Copies(Event([], []), k));
            |s| == 3 * k && s[0] == 0 && s[2] == 0 && s[3] == 0
  {
    var e := Event([], []);
    SmallestFrame();
    CopiesWeigh(e, k);
    hide Packed;
    assert Copies(e, k)[1..] == Copies(e, k - 1);
  }

  /** The buffer has been read to its last cell but one, and is empty. */
  lemma LastCell(cells: seq<byte>, es: seq<Event>, chunks: seq<seq<byte>>, beyond: Memory)
    requires |cells| == BUFFER_SIZE + 1 && AllSendable(es, MIN_FRAME) && |PackedAll(es)| == BUFFER_SIZE
    requires AreChunks(chunks) && Flatten(chunks) == PackedAll(es)
    ensures var r := ReceivedRing(Ring(cells, 0, 0), false, chunks, beyond).left;
            r.start == BUFFER_SIZE && r.Contents() == []
  {
    var first := Ring(cells, 0, 0);
    assert AllSendable(es, |cells| - CHUNK) by {
      hide IsSendable;
    }
    ShortStreamFits(|cells|, 0, es);
    assert Turned(0, BUFFER_SIZE, |cells|) == BUFFER_SIZE;
    hide AllSendable, AreChunks, PackedAll, Flatten, FramesFit, ReceivedRing, NeverRefusedRing, Ring.Contents, Turned;
    StreamIsRead(first, false, es, chunks, beyond);
    ReceivedMovesEnd(first, false, chunks, beyond);
    NothingBetween(ReceivedRing(first, false, chunks, beyond).left);
  }

  lemma RefusedFromLastCell(r: Ring, m: seq<byte>, chunks: seq<seq<byte>>, beyond: Memory)
    requires r.Valid() && |r.cells| == BUFFER_SIZE + 1 && Holds(beyond, 255)
    requires r.start == BUFFER_SIZE && r.Contents() == []
    requires |m| == 255 && m[0] == 0 && m[2] == 0 && m[3] == 0 && |Flatten(chunks)| > BUFFER_SIZE
    ensures !NeverRefusedRing(r, false, [m] + chunks, beyond)
  {
    if NeverRefusedRing(r, false, [m] + chunks, beyond) {
      hide Ring.Contents, Ring.Seen, DrainedRing, PutRing, Extract, Flatten;
      var p := PutRing(r, m);
      assert ([m] + chunks)[0] == m && ([m] + chunks)[1..] == chunks && [] + m == m;
      SplitIsRejected(p, beyond);
      DrainRingStep(p, false, beyond);
      RejectedFills(p, false, chunks, beyond);
    }
  }

  /**
   * A stream of the smallest frames that the code refuses a chunk of: 1365 of them, 85 at once, and
   * then what follows.
   */
  lemma SmallFramesAreRefused(cells: seq<byte>, beyond: Memory) returns (es: seq<Event>, chunks: seq<seq<byte>>)
    requires |cells| == BUFFER_SIZE + 1 && Holds(beyond, 255)
    ensures AllSendable(es, MIN_FRAME) && AreChunks(chunks) && Flatten(chunks) == PackedAll(es)
    ensures !NeverRefusedRing(Ring(cells, 0, 0), false, chunks, beyond)
  {
    var e := Event([], []);
    assert IsSendable(e) by {
      assert AreItems([]) && EncodeAll([]) == [];
    }
    var first, middle, last := Copies(e, 1365), Copies(e, 85), Copies(e, 1550);
    assert first != [] && last != [];
    CopiesWeigh(e, 1365);
    CopiesWeigh(e, 1550);
    SmallFrames(85);
    var m := PackedAll(middle);
    var a := StreamHasChunks(first);
    var b := StreamHasChunks(last);
    es, chunks := first + (middle + last), a + ([m] + b);
    assert AllSendable(first, MIN_FRAME) && AllSendable(es, MIN_FRAME) && AreChunks(chunks);
    hide Packed, PackedAll, AllSendable, AreChunks, NeverRefusedRing, ReceivedRing, Copies, Ring.Contents;
    PackedAllConcat(first, middle + last);
    PackedAllConcat(middle, last);
    FlattenConcat(a, [m] + b);
    LastCell(cells, first, a, beyond);
    var r := Ring(cells, 0, 0);
    RefusedFromLastCell(ReceivedRing(r, false, a, beyond).left, m, b, beyond);
    if NeverRefusedRing(r, false, chunks, beyond) {
      RefusedLater(r, false, a, [m] + b, beyond);
    }
    assert ([m] + b)[1..] == b;
  }

  /** No chunk is refused for any stream of frames up to a bound, in any chunks, with any memory. */
  ghost predicate NoRefusals(size: nat, bound: nat, wraps: bool) {
    forall es: seq<Event>, chunks: seq<seq<byte>>, cells: seq<byte>, beyond: Memory ::
      AllSendable(es, bound) && AreChunks(chunks) && Flatten(chunks) <= PackedAll(es) && |cells| == size + 1 ==>
        NeverRefusedRing(Ring(cells, 0, 0), wraps, chunks, beyond)
  }

  lemma RefusedAsOnBytes(cells: seq<byte>, chunks: seq<seq<byte>>, beyond: Memory)
    requires cells != []
    ensures NeverRefusedRing(Ring(cells, 0, 0), true, chunks, beyond) <==> NeverRefused(|cells| - 1, [], chunks)
  {
    hide NeverRefusedRing, NeverRefused, Ring.Contents;
    NothingBetween(Ring(cells, 0, 0));
    WrappedReceives(Ring(cells, 0, 0), chunks, beyond);
  }

  /** With an index that goes round, a chunk must still fit behind all but the last byte of a frame. */
  lemma WrappedBound(size: nat, bound: nat)
    requires 2 * CHUNK <= size && bound <= MAX_FRAME
    ensures NoRefusals(size, bound, true) <==> bound <= size - CHUNK + 1
  {
    hide NoRefusals, NoLossUpTo;
    BoundIsExact(size, bound);
    if NoLossUpTo(size, bound) {
      NoLossNoRefusals(size, bound);
    }
    if NoRefusals(size, bound, true) {
      NoRefusalsNoLoss(size, bound);
    }
  }

  lemma NoLossNoRefusals(size: nat, bound: nat)
    requires NoLossUpTo(size, bound)
    ensures NoRefusals(size, bound, true)
  {
    hide AllSendable, AreChunks, Flatten, PackedAll, NeverRefusedRing, NeverRefused, Ring.Contents;
    forall es: seq<Event>, chunks: seq<seq<byte>>, cells: seq<byte>, beyond: Memory
      | AllSendable(es, bound) && AreChunks(chunks) && Flatten(chunks) <= PackedAll(es) && |cells| == size + 1
      ensures NeverRefusedRing(Ring(cells, 0, 0), true, chunks, beyond)
    {
      RefusedAsOnBytes(cells, chunks, beyond);
    }
  }

  lemma NoRefusalsNoLoss(size: nat, bound: nat)
    requires NoRefusals(size, bound, true)
    ensures NoLossUpTo(size, bound)
  {
    hide AllSendable, AreChunks, Flatten, PackedAll, NeverRefusedRing, NeverRefused, Ring.Contents;
    forall es: seq<Event>, chunks: seq<seq<byte>>
      | AllSendable(es, bound) && AreChunks(chunks) && Flatten(chunks) <= PackedAll(es)
      ensures NeverRefused(size, [], chunks)
    {
      var cells: seq<byte>, beyond: Memory := seq(size + 1, _ => 0), _ => 0;
      RefusedAsOnBytes(cells, chunks, beyond);
    }
  }

  lemma NothingSentNothingRefused(bound: nat, wraps: bool)
    requires bound < MIN_FRAME
    ensures NoRefusals(BUFFER_SIZE, bound, wraps)
  {
    hide AllSendable, AreChunks, Ring.Contents, DrainedRing, PutRing;
    forall es: seq<Event>, chunks: seq<seq<byte>>, cells: seq<byte>, beyond: Memory
      | AllSendable(es, bound) && AreChunks(chunks) && Flatten(chunks) <= PackedAll(es) && |cells| == BUFFER_SIZE + 1
      ensures NeverRefusedRing(Ring(cells, 0, 0), wraps, chunks, beyond)
    {
      NoFrameIsShorter(es, bound);
      NoChunkIsEmpty(chunks);
    }
  }

  lemma CodeRefuses(bound: nat)
    requires bound >= MIN_FRAME
    ensures !NoRefusals(BUFFER_SIZE, bound, false)
  {
    hide AreChunks, Flatten, PackedAll, NeverRefusedRing, Ring.Contents, IsSendable;
    var cells: seq<byte>, beyond: Memory := seq(BUFFER_SIZE + 1, _ => 0), _ => 255;
    var es, chunks := SmallFramesAreRefused(cells, beyond);
    assert AllSendable(es, bound);
    assert !NeverRefusedRing(Ring(cells, 0, 0), false, chunks, beyond);
  }

  /**
   * In the buffer of a connection no chunk is refused, for streams of frames up to a bound, exactly
   * if that is at most 3584 bytes, with an index that goes round; and for the code, exactly if there
   * are no such frames at all.
   */
  lemma ConnectionBound(bound: nat, wraps: bool)
    requires bound <= MAX_FRAME
    ensures NoRefusals(BUFFER_SIZE, bound, wraps) <==> if wraps then bound <= 3584 else bound < MIN_FRAME
  {
    hide NoRefusals;
    if wraps {
      WrappedBound(BUFFER_SIZE, bound);
    } else if bound < MIN_FRAME {
      NothingSentNothingRefused(bound, wraps);
    } else {
      CodeRefuses(bound);
    }
  }
}
