/**
 * Reading a stream of frames as the code stands. The loop of Reassembly is safe with an index that
 * goes round the buffer; the code's does not, and this says for which streams that does no harm.
 */
module AsWritten {
  import opened Bytes
  import opened Framing
  import opened RingBuffer
  import opened Placement
  import opened Reassembly

  /** The cell that the first byte of a frame comes to. */
  function FrameCell(cells: nat, start: nat, es: seq<Event>, j: nat): (off: nat)
    requires cells > 0 && j <= |es|
    ensures off < cells
  {
    (start + |PackedAll(es[..j])|) % cells
  }

  /** Each frame of the stream fits where it comes to. */
  ghost predicate FramesFit(cells: nat, start: nat, es: seq<Event>)
    requires cells > 0
  {
    forall j :: 0 <= j < |es| ==> FitsAt(cells, FrameCell(cells, start, es, j), FrameLength(es[j]))
  }

  /** The same, from frame to frame. */
  predicate FitFrom(cells: nat, start: nat, es: seq<Event>)
    requires start < cells
    decreases |es|
  {
    es == [] ||
    (FitsAt(cells, start, FrameLength(es[0])) && FitFrom(cells, Round(start + FrameLength(es[0]), cells), es[1..]))
  }

  lemma {:induction false} ModTurns(c: nat, q: nat, m: nat)
    requires m > 0
    ensures (m * q + c) % m == c % m
  {
    if q > 0 {
      ModTurns(c, q - 1, m);
      ModOnce(m * (q - 1) + c, m);
    }
  }

  lemma ModOnce(d: nat, m: nat)
    requires m > 0
    ensures (d + m) % m == d % m
  {
    var k, l := d / m, (d + m) / m;
    assert m * (l - k) == m * l - m * k;
    OnlyOne(m, l - k);
  }

  lemma Twice(m: nat, t: nat)
    requires t >= 2
    ensures m * t >= 2 * m
  {
    assert m * t == m * 2 + m * (t - 2);
  }

  lemma OnlyOne(m: nat, t: int)
    requires 0 < m * t < 2 * m
    ensures t == 1
  {
    if t >= 2 {
      Twice(m, t);
    }
  }

  lemma ModAdd(a: nat, b: nat, m: nat)
    requires m > 0
    ensures (a % m + b) % m == (a + b) % m
  {
    ModTurns(a % m + b, a / m, m);
    assert a + b == m * (a / m) + (a % m + b);
  }

  lemma CellsShift(cells: nat, start: nat, es: seq<Event>, j: nat)
    requires start < cells && j < |es|
    ensures FrameCell(cells, start, es, 0) == start
    ensures FrameCell(cells, start, es, j + 1) == FrameCell(cells, Round(start + FrameLength(es[0]), cells), es[1..], j)
  {
    assert es[..0] == [] && start % cells == Round(start, cells);
    hide Packed;
    assert es[..j + 1][1..] == es[1..][..j];
    ModAdd(start + FrameLength(es[0]), |PackedAll(es[1..][..j])|, cells);
  }

  lemma {:induction false} FitFromIff(cells: nat, start: nat, es: seq<Event>)
    requires start < cells
    ensures FitFrom(cells, start, es) <==> FramesFit(cells, start, es)
    decreases |es|
  {
    if es != [] {
      FitFromIff(cells, Round(start + FrameLength(es[0]), cells), es[1..]);
      FramesFitStep(cells, start, es);
    }
  }

  lemma FramesFitStep(cells: nat, start: nat, es: seq<Event>)
    requires start < cells && es != []
    ensures FramesFit(cells, start, es) <==>
            && FitsAt(cells, start, FrameLength(es[0]))
            && FramesFit(cells, Round(start + FrameLength(es[0]), cells), es[1..])
  {
    var next, tail := Round(start + FrameLength(es[0]), cells), es[1..];
    hide FrameCell, FitsAt, Round, FrameLength;
    forall j | 0 <= j < |es|
      ensures FrameCell(cells, start, es, 0) == start
      ensures j > 0 ==> FrameCell(cells, start, es, j) == FrameCell(cells, next, tail, j - 1) && es[j] == tail[j - 1]
    {
      CellsShift(cells, start, es, if j > 0 then j - 1 else 0);
    }
    assert forall j :: 0 <= j < |tail| ==> tail[j] == es[j + 1];
  }

  // ---------------------------------------------------------------------------
  // When all frames fit, the loop picks what draining the buffered bytes gives.
  // ---------------------------------------------------------------------------

  /** A frame that fits, or the beginning of one, is seen as it was put. */
  lemma FittingIsSeen(r: Ring, e: Event, beyond: Memory)
    requires r.Valid() && FrameLength(e) <= MAX_FRAME && FitsAt(|r.cells|, r.start, FrameLength(e))
    requires Packed(e) <= r.Contents() || r.Contents() < Packed(e)
    ensures Extract(r.Seen(false, beyond)) == Extract(r.Contents())
  {
    var f, c := Packed(e), r.Contents();
    if f <= c {
      assert c == f + c[|f|..];
      HeadOfPacked(e, c[|f|..]);
      InPlaceIffFits(r.cells, r.start, r.end);
    } else {
      PrefixIsIncomplete(e, c);
    }
    hide Packed, Between, Announced, View;
    InPlaceExtracts(r.cells, r.start, r.end, beyond);
  }

  ghost predicate FitsStream(r: Ring, es: seq<Event>)
    requires r.Valid()
  {
    AllSendable(es, MAX_FRAME) && r.Contents() <= PackedAll(es) && FitFrom(|r.cells|, r.start, es)
  }

  /** The first frame of a stream that fits is picked, once it is whole, and a stream that fits is left. */
  lemma FittingFront(r: Ring, es: seq<Event>, beyond: Memory)
    requires r.Valid() && FitsStream(r, es) && es != []
    ensures Extract(r.Seen(false, beyond)) == Extract(r.Contents())
    ensures var n := FrameLength(es[0]);
            if |r.Contents()| < n then Extract(r.Contents()) == Incomplete
            else Extract(r.Contents()) == Picked(es[0], n) && FitsStream(r.Past(n), es[1..])
  {
    assert AllSendable(es, MAX_FRAME) && r.Contents() <= PackedAll(es) && FitFrom(|r.cells|, r.start, es);
    StreamHead(|r.cells|, r.start, es);
    if |r.Contents()| >= FrameLength(es[0]) {
      FittingRest(r, es);
    }
    hide *;
    StreamFront(r.Contents(), es);
    FittingIsSeen(r, es[0], beyond);
  }

  lemma FittingRest(r: Ring, es: seq<Event>)
    requires r.Valid() && FitsStream(r, es) && es != [] && |r.Contents()| >= FrameLength(es[0])
    ensures FitsStream(r.Past(FrameLength(es[0])), es[1..])
  {
    hide Packed, PackedAll, AllSendable, FitFrom, FrameLength, Ring.Contents, Round;
    StreamHead(|r.cells|, r.start, es);
    StreamFront(r.Contents(), es);
  }

  lemma StreamHead(cells: nat, start: nat, es: seq<Event>)
    requires start < cells && AllSendable(es, MAX_FRAME) && FitFrom(cells, start, es) && es != []
    ensures FrameLength(es[0]) <= MAX_FRAME && FitsAt(cells, start, FrameLength(es[0]))
    ensures AllSendable(es[1..], MAX_FRAME) && FitFrom(cells, Round(start + FrameLength(es[0]), cells), es[1..])
  {
    hide IsSendable, FitsAt, FrameLength, Round;
  }

  lemma {:induction false} FittingDrains(r: Ring, es: seq<Event>, beyond: Memory)
    requires r.Valid() && FitsStream(r, es)
    ensures var d := DrainedRing(r, false, beyond);
            && Bare(d) == Drained(r.Contents())
            && |d.events| <= |es| && FitFrom(|r.cells|, d.left.start, es[|d.events|..])
    decreases |es|
  {
    var c := r.Contents();
    DrainStep(c);
    DrainRingStep(r, false, beyond);
    assert es[0..] == es;
    if es == [] {
      assert Extract(c) == Incomplete && Extract(r.Seen(false, beyond)) == Incomplete;
    } else {
      FittingFront(r, es, beyond);
      assert FitFrom(|r.cells|, r.start, es);
      hide Extract, Drained, DrainedRing, Ring.Seen, Ring.Contents, Ring.Past, FitsStream, FitFrom, FrameLength;
      var n := FrameLength(es[0]);
      if |c| >= n {
        FittingDrains(r.Past(n), es[1..], beyond);
        var d := DrainedRing(r.Past(n), false, beyond);
        assert es[1..][|d.events|..] == es[|d.events| + 1..];
      }
    }
  }

  lemma {:induction false} FittingReceives(r: Ring, es: seq<Event>, chunks: seq<seq<byte>>, beyond: Memory)
    requires r.Valid() && |r.cells| > CHUNK && AllSendable(es, |r.cells| - CHUNK) && AreChunks(chunks)
    requires Waiting(r.Contents(), es) && r.Contents() + Flatten(chunks) <= PackedAll(es)
    requires FitFrom(|r.cells|, r.start, es)
    ensures Bare(ReceivedRing(r, false, chunks, beyond)) == Received(|r.cells| - 1, r.Contents(), chunks)
    ensures NeverRefusedRing(r, false, chunks, beyond)
    decreases |chunks|
  {
    hide Drained, DrainedRing, Packed, PackedAll, AllSendable, AreChunks, FitFrom, Waiting, Ring.Contents;
    if chunks != [] {
      var d := FittingChunk(r, es, chunks, beyond);
      ReceivedStep(|r.cells| - 1, r.Contents(), chunks);
      FittingReceives(d.left, es[|d.events|..], chunks[1..], beyond);
    }
  }

  lemma FittingChunk(r: Ring, es: seq<Event>, chunks: seq<seq<byte>>, beyond: Memory) returns (d: Reading<Ring>)
    requires r.Valid() && |r.cells| > CHUNK && AllSendable(es, |r.cells| - CHUNK) && AreChunks(chunks) && chunks != []
    requires Waiting(r.Contents(), es) && r.Contents() + Flatten(chunks) <= PackedAll(es)
    requires FitFrom(|r.cells|, r.start, es)
    ensures d == DrainedRing(PutRing(r, chunks[0]), false, beyond) && |d.events| <= |es|
    ensures Accepts(|r.cells| - 1, r.Contents(), chunks[0]) && Bare(d) == Drained(r.Contents() + chunks[0])
    ensures var rest := es[|d.events|..];
            && AllSendable(rest, |r.cells| - CHUNK) && AreChunks(chunks[1..]) && FitFrom(|r.cells|, d.left.start, rest)
            && Waiting(d.left.Contents(), rest) && d.left.Contents() + Flatten(chunks[1..]) <= PackedAll(rest)
  {
    var size, c := |r.cells| - 1, r.Contents();
    hide Drained, DrainedRing, Packed, PackedAll, AllSendable, AreChunks, FitFrom, Waiting, Ring.Contents;
    NextChunkFits(size, c, es, chunks[0], Flatten(chunks[1..]));
    SendableFits(es, size - CHUNK + 1);
    var k := FirstChunkDrains(size, c, es, chunks);
    var p := PutRing(r, chunks[0]);
    FittingDrains(p, es, beyond);
    d := DrainedRing(p, false, beyond);
    assert |es[..k]| == k;
  }

  // ---------------------------------------------------------------------------
  // When one does not fit, some memory behind the array spoils it. From then on the loop has either
  // lost bytes, or waits in front of that frame: the events that come out weigh too little.
  // ---------------------------------------------------------------------------

  /** That memory spoils frame j of the stream. */
  ghost predicate SpoilsAt(cells: nat, start: nat, es: seq<Event>, j: nat, beyond: Memory)
    requires start < cells
    decreases j
  {
    j < |es| &&
    if j == 0 then Spoils(cells, start, es[0], beyond)
    else SpoilsAt(cells, Round(start + FrameLength(es[0]), cells), es[1..], j - 1, beyond)
  }

  lemma {:induction false} MisfitFound(cells: nat, start: nat, es: seq<Event>) returns (j: nat, beyond: Memory)
    requires start < cells && AllSendable(es, MAX_FRAME) && !FitFrom(cells, start, es)
    ensures SpoilsAt(cells, start, es, j, beyond)
    decreases |es|
  {
    var e, next := es[0], Round(start + FrameLength(es[0]), cells);
    assert IsSendable(e) && AllSendable(es[1..], MAX_FRAME);
    hide AllSendable, IsSendable, FitsAt, Spoils, Round;
    if FitsAt(cells, start, FrameLength(e)) {
      j, beyond := MisfitFound(cells, next, es[1..]);
      j := j + 1;
    } else {
      j := 0;
      beyond := MisfitIsSpoiled(cells, start, e);
    }
  }

  function Weight(es: seq<Event>): nat {
    |PackedAll(es)|
  }

  lemma {:induction false} WeightSplits(a: seq<Event>, b: seq<Event>)
    ensures Weight(a + b) == Weight(a) + Weight(b)
  {
    hide Packed;
    PackedAllSplits(a + b, |a|);
    assert (a + b)[..|a|] == a && (a + b)[|a|..] == b;
  }

  /** Nothing comes out of the buffer that was not put: not even with foreign memory behind it. */
  lemma {:induction false} DrainWeighs(r: Ring, wraps: bool, beyond: Memory)
    requires r.Valid()
    ensures var d := DrainedRing(r, wraps, beyond);
            Weight(d.events) + |d.left.Contents()| <= |r.Contents()|
    decreases |r.Contents()|
  {
    DrainRingStep(r, wraps, beyond);
    var v := r.Seen(wraps, beyond);
    hide Extract, Packed, DrainedRing, Ring.Seen, Ring.Contents;
    if Extract(v).Picked? {
      var e, n := Extract(v).event, Extract(v).length;
      PickedIsPacked(v);
      DrainWeighs(r.Past(n), wraps, beyond);
      WeightSplits([e], DrainedRing(r.Past(n), wraps, beyond).events);
      assert PackedAll([e]) == Packed(e) + [];
    }
  }

  lemma {:induction false} ReceiveWeighs(r: Ring, wraps: bool, chunks: seq<seq<byte>>, beyond: Memory)
    requires r.Valid()
    ensures Weight(ReceivedRing(r, wraps, chunks, beyond).events) <= |r.Contents()| + |Flatten(chunks)|
    decreases |chunks|
  {
    assert Weight([]) == 0;
    hide DrainedRing, Weight, Ring.Contents;
    if chunks != [] {
      var p := PutRing(r, chunks[0]);
      var d := DrainedRing(p, wraps, beyond);
      DrainWeighs(p, wraps, beyond);
      ReceiveWeighs(d.left, wraps, chunks[1..], beyond);
      WeightSplits(d.events, ReceivedRing(d.left, wraps, chunks[1..], beyond).events);
    }
  }

  /** A reading of the bytes c that is in step with the stream, and has not come past its spoiled frame. */
  ghost predicate InStep(d: Reading<Ring>, c: seq<byte>, es: seq<Event>, j: nat, beyond: Memory) {
    && d.left.Valid() && d.events <= es && |d.events| <= j
    && SpoilsAt(|d.left.cells|, d.left.start, es[|d.events|..], j - |d.events|, beyond)
    && PackedAll(d.events) + d.left.Contents() == c
  }

  /** Draining without a loss comes to the spoiled frame at most, and stays in step with the stream. */
  lemma {:induction false} SpoiledDrain(r: Ring, es: seq<Event>, j: nat, beyond: Memory)
    requires r.Valid() && r.Contents() <= PackedAll(es) && SpoilsAt(|r.cells|, r.start, es, j, beyond)
    requires var d := DrainedRing(r, false, beyond);
             d.events <= es && Weight(d.events) + |d.left.Contents()| == |r.Contents()|
    ensures InStep(DrainedRing(r, false, beyond), r.Contents(), es, j, beyond)
    decreases |r.Contents()|
  {
    var c, step := r.Contents(), Extract(r.Seen(false, beyond));
    assert es[0..] == es && PackedAll([]) == [] && [] + c == c;
    hide DrainedRing, Extract, Ring.Seen, Ring.Contents, Ring.Past, Packed, PackedAll, SpoilsAt;
    DrainRingStep(r, false, beyond);
    if step.Picked? {
      SpoiledPick(r, es, j, beyond);
      var next := r.Past(step.length);
      var rest := DrainedRing(next, false, beyond);
      RestIsLight(es, rest.events);
      SpoiledDrain(next, es[1..], j - 1, beyond);
      InStepAfter(rest, next.Contents(), c, es, j, beyond);
    }
  }

  lemma RestIsLight(es: seq<Event>, rest: seq<Event>)
    requires es != [] && [es[0]] + rest <= es
    ensures rest <= es[1..] && Weight([es[0]] + rest) == FrameLength(es[0]) + Weight(rest)
  {
    assert rest == ([es[0]] + rest)[1..];
  }

  lemma InStepAfter(rest: Reading<Ring>, c: seq<byte>, whole: seq<byte>, es: seq<Event>, j: nat, beyond: Memory)
    requires es != [] && j > 0 && InStep(rest, c, es[1..], j - 1, beyond) && whole == Packed(es[0]) + c
    ensures InStep(After([es[0]], rest), whole, es, j, beyond)
  {
    hide Packed, SpoilsAt, Ring.Contents;
    var all := [es[0]] + rest.events;
    assert all[1..] == rest.events && es[1..][|rest.events|..] == es[|all|..];
    Concat3(Packed(es[0]), PackedAll(rest.events), rest.left.Contents());
  }

  /** A pick in step with the stream is not that of the spoiled frame, and keeps in step. */
  lemma SpoiledPick(r: Ring, es: seq<Event>, j: nat, beyond: Memory)
    requires r.Valid() && r.Contents() <= PackedAll(es) && SpoilsAt(|r.cells|, r.start, es, j, beyond)
    requires var step := Extract(r.Seen(false, beyond));
             step.Picked? && step.event == es[0]
    ensures j > 0 && Extract(r.Seen(false, beyond)).length == FrameLength(es[0])
    ensures var next := r.Past(FrameLength(es[0]));
            && r.Contents() == Packed(es[0]) + next.Contents() && next.Contents() <= PackedAll(es[1..])
            && SpoilsAt(|r.cells|, next.start, es[1..], j - 1, beyond)
  {
    hide Extract, Packed, PackedAll, FrameLength, Spoils, Ring.Seen, Ring.Contents, Round, Between;
    PickedIsPacked(r.Seen(false, beyond));
    FirstOfStream(r.Contents(), es);
    if j == 0 {
      SpoiledStays(r, es[0], beyond);
      assert false;
    }
  }

  lemma SpoiledStays(r: Ring, e: Event, beyond: Memory)
    requires r.Valid() && Spoils(|r.cells|, r.start, e, beyond) && Packed(e) <= r.Contents()
    ensures Extract(r.Seen(false, beyond)) != Picked(e, FrameLength(e))
  {
    hide Packed, Extract, Ring.Seen, Ring.Contents;
  }

  lemma LeftOfWhole(events: seq<Event>, left: seq<byte>, s: seq<byte>, t: seq<byte>, es: seq<Event>)
    requires events <= es && PackedAll(events) + left == s && s + t == PackedAll(es)
    ensures left + t == PackedAll(es[|events|..])
  {
    hide PackedAll;
    PackedAllSplits(es, |events|);
    assert es[..|events|] == events;
    var p, q := PackedAll(events), PackedAll(es[|events|..]);
    Concat3(p, left, t);
    assert left + t == (p + (left + t))[|p|..];
    assert q == (p + q)[|p|..];
  }

  /** So the whole stream never comes out. */
  lemma {:induction false} SpoiledReceive(r: Ring, es: seq<Event>, j: nat, chunks: seq<seq<byte>>, beyond: Memory)
    requires r.Valid() && SpoilsAt(|r.cells|, r.start, es, j, beyond)
    requires AreChunks(chunks) && r.Contents() + Flatten(chunks) == PackedAll(es)
    ensures ReceivedRing(r, false, chunks, beyond).events != es
    decreases |chunks|
  {
    hide Ring.Contents, SpoilsAt, AreChunks, DrainedRing, ReceivedRing, PutRing, PackedAll, Flatten;
    if chunks == [] {
      SpoilsSome(|r.cells|, r.start, es, j, beyond);
      NothingReceived(r, false, [], beyond);
    } else if ReceivedRing(r, false, chunks, beyond).events == es {
      var k := SpoiledChunk(r, es, j, chunks, beyond);
      var d := DrainedRing(PutRing(r, chunks[0]), false, beyond);
      SpoiledReceive(d.left, es[k..], j - k, chunks[1..], beyond);
    }
  }

  lemma SpoilsSome(cells: nat, start: nat, es: seq<Event>, j: nat, beyond: Memory)
    requires start < cells && SpoilsAt(cells, start, es, j, beyond)
    ensures es != []
  {
  }

  lemma SpoiledChunk(r: Ring, es: seq<Event>, j: nat, chunks: seq<seq<byte>>, beyond: Memory) returns (k: nat)
    requires r.Valid() && SpoilsAt(|r.cells|, r.start, es, j, beyond)
    requires AreChunks(chunks) && chunks != [] && r.Contents() + Flatten(chunks) == PackedAll(es)
    requires ReceivedRing(r, false, chunks, beyond).events == es
    ensures var d := DrainedRing(PutRing(r, chunks[0]), false, beyond);
            && k <= j && k <= |es| && SpoilsAt(|r.cells|, d.left.start, es[k..], j - k, beyond)
            && AreChunks(chunks[1..]) && d.left.Contents() + Flatten(chunks[1..]) == PackedAll(es[k..])
            && ReceivedRing(d.left, false, chunks[1..], beyond).events == es[k..]
  {
    FewerChunks(chunks);
    assert 1 <= |chunks[0]| && Weight(es) == |r.Contents()| + |chunks[0]| + |Flatten(chunks[1..])|;
    Concat3(r.Contents(), chunks[0], Flatten(chunks[1..]));
    hide AreChunks, DrainedRing, PackedAll, SpoilsAt, Weight, Ring.Contents;
    var p := PutRing(r, chunks[0]);
    var d := DrainedRing(p, false, beyond);
    var rest := ReceivedRing(d.left, false, chunks[1..], beyond);
    assert es == d.events + rest.events;
    k := |d.events|;
    DrainWeighs(p, false, beyond);
    ReceiveWeighs(d.left, false, chunks[1..], beyond);
    WeightSplits(d.events, rest.events);
    SpoiledDrain(p, es, j, beyond);
    LeftOfWhole(d.events, d.left.Contents(), p.Contents(), Flatten(chunks[1..]), es);
  }

  // ---------------------------------------------------------------------------
  // The streams that the code reads
  // ---------------------------------------------------------------------------

  /** A stream with a frame that does not fit never comes out whole, however it is cut into chunks. */
  lemma MisfitIsLost(size: nat, start: nat, es: seq<Event>) returns (beyond: Memory)
    requires start <= size && AllSendable(es, MAX_FRAME) && !FramesFit(size + 1, start, es)
    ensures forall cells: seq<byte>, chunks: seq<seq<byte>> ::
              |cells| == size + 1 && AreChunks(chunks) && Flatten(chunks) == PackedAll(es) ==>
                ReceivedRing(Ring(cells, start, start), false, chunks, beyond).events != es
  {
    hide FramesFit, FitFrom, SpoilsAt, AreChunks, AllSendable, PackedAll, Flatten, ReceivedRing, Ring.Contents;
    FitFromIff(size + 1, start, es);
    var j;
    j, beyond := MisfitFound(size + 1, start, es);
    forall cells: seq<byte>, chunks: seq<seq<byte>>
      | |cells| == size + 1 && AreChunks(chunks) && Flatten(chunks) == PackedAll(es)
      ensures ReceivedRing(Ring(cells, start, start), false, chunks, beyond).events != es
    {
      SpoiledFromEmpty(Ring(cells, start, start), es, j, chunks, beyond);
    }
  }

  lemma SpoiledFromEmpty(r: Ring, es: seq<Event>, j: nat, chunks: seq<seq<byte>>, beyond: Memory)
    requires r.Valid() && r.start == r.end && SpoilsAt(|r.cells|, r.start, es, j, beyond)
    requires AreChunks(chunks) && Flatten(chunks) == PackedAll(es)
    ensures ReceivedRing(r, false, chunks, beyond).events != es
  {
    assert r.Contents() == [] && [] + Flatten(chunks) == Flatten(chunks);
    hide *;
    SpoiledReceive(r, es, j, chunks, beyond);
  }

  /** When all frames fit, the code gives what the loop on the bytes that are buffered gives. */
  lemma FittingFollows(r: Ring, es: seq<Event>, chunks: seq<seq<byte>>, beyond: Memory)
    requires r.Valid() && r.start == r.end && |r.cells| > CHUNK
    requires AllSendable(es, |r.cells| - CHUNK) && AreChunks(chunks) && Flatten(chunks) <= PackedAll(es)
    requires FramesFit(|r.cells|, r.start, es)
    ensures Bare(ReceivedRing(r, false, chunks, beyond)) == Received(|r.cells| - 1, [], chunks)
    ensures NeverRefusedRing(r, false, chunks, beyond)
  {
    assert r.Contents() == [] && [] + Flatten(chunks) == Flatten(chunks);
    FitFromIff(|r.cells|, r.start, es);
    hide Packed, PackedAll, AllSendable, AreChunks, FitFrom, ReceivedRing, Received, NeverRefusedRing;
    FittingReceives(r, es, chunks, beyond);
  }

  lemma NothingBetween(r: Ring)
    requires r.Valid()
    ensures r.Contents() == [] <==> r.start == r.end
  {
  }

  /**
   * With an index that goes round, and in the code when all frames fit: however a stream is cut
   * into chunks, none is refused, and the events come out in order, all those whose frames have
   * arrived. Only the beginning of the next frame is kept.
   */
  lemma StreamIsRead(r: Ring, wraps: bool, es: seq<Event>, chunks: seq<seq<byte>>, beyond: Memory)
    requires r.Valid() && r.start == r.end && |r.cells| > CHUNK
    requires AllSendable(es, |r.cells| - CHUNK) && AreChunks(chunks) && Flatten(chunks) <= PackedAll(es)
    requires wraps || FramesFit(|r.cells|, r.start, es)
    ensures NeverRefusedRing(r, wraps, chunks, beyond)
    ensures var d := Bare(ReceivedRing(r, wraps, chunks, beyond));
            && (exists k :: Splits(Flatten(chunks), es, k, d))
            && (Flatten(chunks) == PackedAll(es) ==> d == Reading(es, []))
  {
    hide *;
    NothingBetween(r);
    StreamReassembles(|r.cells| - 1, es, chunks);
    if wraps {
      WrappedReceives(r, chunks, beyond);
    } else {
      FittingFollows(r, es, chunks, beyond);
    }
  }

  /**
   * For any way to cut a stream of frames into chunks: as the code stands, exactly its events come
   * out, whatever the buffer and the memory behind it hold, if and only if every frame fits where
   * it comes to.
   */
  lemma StreamReassemblesIffFit(size: nat, start: nat, es: seq<Event>, chunks: seq<seq<byte>>)
    requires CHUNK <= size && start <= size && AllSendable(es, size - CHUNK + 1)
    requires AreChunks(chunks) && Flatten(chunks) == PackedAll(es)
    ensures (forall cells: seq<byte>, beyond: Memory :: |cells| == size + 1 ==>
               Bare(ReceivedRing(Ring(cells, start, start), false, chunks, beyond)) == Reading(es, []))
            <==> FramesFit(size + 1, start, es)
  {
    hide Packed, PackedAll, Flatten, AreChunks, ReceivedRing, Received, FramesFit;
    SendableFits(es, size - CHUNK + 1);
    if FramesFit(size + 1, start, es) {
      StreamReassembles(size, es, chunks);
      forall cells: seq<byte>, beyond: Memory | |cells| == size + 1
        ensures Bare(ReceivedRing(Ring(cells, start, start), false, chunks, beyond)) == Reading(es, [])
      {
        FittingFollows(Ring(cells, start, start), es, chunks, beyond);
      }
    } else {
      var beyond := MisfitIsLost(size, start, es);
      var cells: seq<byte> := seq(size + 1, _ => 0);
      assert ReceivedRing(Ring(cells, start, start), false, chunks, beyond).events != es;
    }
  }

  /** All frames fit while the stream has not come to the end of the array. */
  lemma ShortStreamFits(cells: nat, start: nat, es: seq<Event>)
    requires start < cells && start + |PackedAll(es)| <= cells
    ensures FramesFit(cells, start, es)
  {
    ShortStreamFitsFrom(cells, start, es);
    FitFromIff(cells, start, es);
  }

  lemma {:induction false} ShortStreamFitsFrom(cells: nat, start: nat, es: seq<Event>)
    requires start < cells && start + |PackedAll(es)| <= cells
    ensures FitFrom(cells, start, es)
    decreases |es|
  {
    if es != [] {
      hide Packed;
      var next, tail := start + FrameLength(es[0]), es[1..];
      assert tail != [] ==> |PackedAll(tail)| >= FrameLength(tail[0]);
      if next < cells {
        ShortStreamFitsFrom(cells, next, tail);
      }
    }
  }

  // No bound on the length of frames makes the code safe.

  /** Two of the longest frames that are never refused: the second one is lost. */
  lemma TwoLongFramesAreLost() returns (es: seq<Event>, beyond: Memory)
    ensures AllSendable(es, 3584)
    ensures forall cells: seq<byte>, chunks: seq<seq<byte>> ::
              |cells| == BUFFER_SIZE + 1 && AreChunks(chunks) && Flatten(chunks) == PackedAll(es) ==>
                && NeverRefused(BUFFER_SIZE, [], chunks)
                && ReceivedRing(Ring(cells, 0, 0), false, chunks, beyond).events != es
  {
    var e := FrameOfLength(3584);
    es := [e, e];
    assert AllSendable(es, 3584);
    assert es[..1] == [e] && PackedAll([e]) == Packed(e) + [];
    assert FrameCell(BUFFER_SIZE + 1, 0, es, 1) == 3584;
    assert !FitsAt(BUFFER_SIZE + 1, FrameCell(BUFFER_SIZE + 1, 0, es, 1), FrameLength(es[1]));
    hide Packed, PackedAll, AllSendable, AreChunks, Flatten, NeverRefused, ReceivedRing;
    SendableFits(es, 3584);
    beyond := MisfitIsLost(BUFFER_SIZE, 0, es);
    forall chunks: seq<seq<byte>> | AreChunks(chunks) && Flatten(chunks) == PackedAll(es)
      ensures NeverRefused(BUFFER_SIZE, [], chunks)
    {
      StreamReassembles(BUFFER_SIZE, es, chunks);
    }
  }

  ghost predicate NoLossAsWritten(size: nat, bound: nat) {
    forall es: seq<Event>, chunks: seq<seq<byte>>, cells: seq<byte>, beyond: Memory ::
      AllSendable(es, bound) && AreChunks(chunks) && Flatten(chunks) == PackedAll(es) && |cells| == size + 1 ==>
        ReceivedRing(Ring(cells, 0, 0), false, chunks, beyond).events == es
  }

  function Copies(e: Event, k: nat): seq<Event> {
    seq(k, _ => e)
  }

  lemma {:induction false} CopiesWeigh(e: Event, k: nat)
    requires FrameLength(e) == MIN_FRAME
    ensures Weight(Copies(e, k)) == MIN_FRAME * k
  {
    hide Packed;
    if k > 0 {
      CopiesWeigh(e, k - 1);
      assert Copies(e, k)[1..] == Copies(e, k - 1);
    }
  }

  /** In the buffer of a connection, even the smallest frames come to the end of the array: the 1366th of them. */
  lemma SmallFramesAreLost() returns (es: seq<Event>, beyond: Memory)
    ensures AllSendable(es, MIN_FRAME) && es != []
    ensures forall cells: seq<byte>, chunks: seq<seq<byte>> ::
              |cells| == BUFFER_SIZE + 1 && AreChunks(chunks) && Flatten(chunks) == PackedAll(es) ==>
                ReceivedRing(Ring(cells, 0, 0), false, chunks, beyond).events != es
  {
    var e := FrameOfLength(MIN_FRAME);
    es := Copies(e, 1366);
    CopiesWeigh(e, 1365);
    assert es[..1365] == Copies(e, 1365);
    assert FrameCell(BUFFER_SIZE + 1, 0, es, 1365) == 4095;
    assert !FitsAt(BUFFER_SIZE + 1, FrameCell(BUFFER_SIZE + 1, 0, es, 1365), FrameLength(es[1365]));
    beyond := MisfitIsLost(BUFFER_SIZE, 0, es);
  }

  lemma StreamHasChunks(es: seq<Event>) returns (chunks: seq<seq<byte>>)
    requires es != []
    ensures AreChunks(chunks) && Flatten(chunks) == PackedAll(es)
  {
    var all := PackedAll(es);
    assert |all| >= |Packed(es[0])|;
    hide *;
    var first, last := all[..|all| - 1], all[|all| - 1..];
    SinglesFlatten(first, last);
    chunks := Singles(first) + [last];
    assert all == first + last;
  }

  lemma NoStreamNoEvents(es: seq<Event>, chunks: seq<seq<byte>>, r: Ring, beyond: Memory)
    requires r.Valid() && AllSendable(es, MIN_FRAME - 1) && AreChunks(chunks) && Flatten(chunks) == PackedAll(es)
    ensures ReceivedRing(r, false, chunks, beyond).events == es
  {
    NoFrameIsShorter(es, MIN_FRAME - 1);
    NoChunkIsEmpty(chunks);
  }

  lemma NoFrameIsShorter(es: seq<Event>, bound: nat)
    requires AllSendable(es, bound)
    ensures es == [] || bound >= MIN_FRAME
  {
    if es != [] {
      assert es[0] in es;
    }
  }

  lemma NoChunkIsEmpty(chunks: seq<seq<byte>>)
    requires AreChunks(chunks)
    ensures chunks == [] || |Flatten(chunks)| >= 1
  {
    if chunks != [] {
      assert chunks[0] in chunks;
    }
  }

  /** Whatever the bound on frames of at least three bytes is, a stream of shorter ones is lost for some memory. */
  lemma NoBoundIsSafe(bound: nat)
    ensures NoLossAsWritten(BUFFER_SIZE, bound) <==> bound < MIN_FRAME
  {
    if bound < MIN_FRAME {
      forall es: seq<Event>, chunks: seq<seq<byte>>, cells: seq<byte>, beyond: Memory
        | AllSendable(es, bound) && AreChunks(chunks) && Flatten(chunks) == PackedAll(es) && |cells| == BUFFER_SIZE + 1
        ensures ReceivedRing(Ring(cells, 0, 0), false, chunks, beyond).events == es
      {
        assert AllSendable(es, MIN_FRAME - 1);
        NoStreamNoEvents(es, chunks, Ring(cells, 0, 0), beyond);
      }
    } else {
      var es, beyond := SmallFramesAreLost();
      assert AllSendable(es, bound);
      var cells: seq<byte> := seq(BUFFER_SIZE + 1, _ => 0);
      var chunks := StreamHasChunks(es);
      assert ReceivedRing(Ring(cells, 0, 0), false, chunks, beyond).events != es;
    }
  }
}
