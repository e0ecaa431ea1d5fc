/**
 * The cells that pick_event reads, as the code stands. `put` goes round the circle of cells, but
 * pick_event rounds its index only once, behind the length of the frame, and then counts up. This
 * says exactly when that reads the frame that was put.
 */
module Placement {
  import opened Bytes
  import opened Wire
  import opened Framing
  import opened RingBuffer

  /** Every cell of the first frame is read inside the array: its length, and then its body in one run. */
  predicate ReadsInPlace(cells: seq<byte>, start: nat, end: nat)
    requires start < |cells| && end < |cells|
  {
    var c := Between(cells, start, end);
    |c| < 2 ||
    (start + 1 < |cells| && (|c| < Announced(c) || PlaceOf(|cells|, start, Announced(c) - 1) < |cells|))
  }

  /** With an index that goes round, pick_event sees the buffered bytes. */
  lemma WrappedViewIsContents(cells: seq<byte>, start: nat, end: nat, beyond: Memory)
    requires start < |cells| && end < |cells|
    ensures View(cells, true, start, |Between(cells, start, end)|, beyond) == Between(cells, start, end)
  {
  }

  /** As it stands it sees the same, up to the first cell behind the array. */
  lemma InPlaceView(cells: seq<byte>, start: nat, end: nat, beyond: Memory, n: nat)
    requires start < |cells| && end < |cells| && 1 <= n <= |Between(cells, start, end)|
    requires start + 1 < |cells| || n == 1
    requires PlaceOf(|cells|, start, n - 1) < |cells|
    ensures View(cells, false, start, |Between(cells, start, end)|, beyond)[..n] == Between(cells, start, end)[..n]
  {
  }

  lemma InPlaceExtracts(cells: seq<byte>, start: nat, end: nat, beyond: Memory)
    requires start < |cells| && end < |cells| && ReadsInPlace(cells, start, end)
    ensures var c := Between(cells, start, end);
            Extract(View(cells, false, start, |c|, beyond)) == Extract(c)
  {
    var c := Between(cells, start, end);
    var v := View(cells, false, start, |c|, beyond);
    if |c| >= 2 {
      InPlaceView(cells, start, end, beyond, 2);
      SameAnnounced(c, v);
      var n := Announced(c);
      if n <= |c| {
        InPlaceView(cells, start, end, beyond, n);
        SameExtract(c, v);
      }
    }
  }

  lemma SameAnnounced(c: seq<byte>, v: seq<byte>)
    requires 2 <= |c| == |v| && v[..2] == c[..2]
    ensures Announced(v) == Announced(c)
  {
  }

  lemma SameExtract(c: seq<byte>, v: seq<byte>)
    requires 2 <= |c| == |v| && Announced(c) <= |c| && v[..Announced(c)] == c[..Announced(c)]
    ensures Extract(v) == Extract(c)
  {
    var n := Announced(c);
    assert v[..2] == v[..n][..2] && c[..2] == c[..n][..2];
    assert v[2..n] == v[..n][2..] && c[2..n] == c[..n][2..];
  }

  /** While the buffered bytes have not gone round the end of the array, everything is in place. */
  lemma UnwrappedIsInPlace(cells: seq<byte>, start: nat, end: nat)
    requires start <= end < |cells|
    ensures ReadsInPlace(cells, start, end)
  {
  }

  /** A frame of some length fits at a cell: it ends inside the array, or its body begins at the first cell. */
  predicate FitsAt(cells: nat, start: nat, length: nat) {
    start + length <= cells || start + 2 == cells
  }

  lemma InPlaceIffFits(cells: seq<byte>, start: nat, end: nat)
    requires start < |cells| && end < |cells|
    requires 2 <= |Between(cells, start, end)| && Announced(Between(cells, start, end)) <= |Between(cells, start, end)|
    ensures ReadsInPlace(cells, start, end) <==> FitsAt(|cells|, start, Announced(Between(cells, start, end)))
  {
    hide Announced, Between;
  }

  /** The first byte of a frame that is looked for behind the array, if its length is read inside. */
  function FirstOutside(cells: nat, start: nat): (x: nat)
    requires start + 1 < cells
    ensures x > 2
  {
    2 + (cells - Round(start + 2, cells))
  }

  /** A byte that spoils the frame in front of c, when all the memory behind the array holds it. */
  function SpoilingByte(cells: nat, start: nat, c: seq<byte>, picked: bool): byte
    requires start < cells && |c| >= 2
    requires start + 1 < cells ==> FirstOutside(cells, start) < |c|
  {
    if start + 1 == cells then
      if c[1] == 255 then 254 else 255
    else
      var x := FirstOutside(cells, start);
      if !picked then 0 else if 0 !in c[2..x] || c[x] == 0 then 1 else 0
  }

  ghost predicate Holds(beyond: Memory, b: byte) {
    forall pos :: beyond(pos) == b
  }

  lemma OutOfPlaceDiffers(cells: seq<byte>, start: nat, end: nat, beyond: Memory)
    requires start < |cells| && end < |cells| && !ReadsInPlace(cells, start, end)
    requires Extract(Between(cells, start, end)).Picked? || Extract(Between(cells, start, end)).Dropped?
    requires var c := Between(cells, start, end);
             Holds(beyond, SpoilingByte(|cells|, start, c, Extract(c).Picked?))
    ensures var c := Between(cells, start, end);
            Extract(View(cells, false, start, |c|, beyond)) != Extract(c)
  {
    var c := Between(cells, start, end);
    if start + 1 == |cells| {
      OtherLength(c, View(cells, false, start, |c|, beyond), beyond(0));
    } else {
      BodyOutOfPlaceDiffers(cells, start, end, beyond);
    }
  }

  lemma BodyOutOfPlaceDiffers(cells: seq<byte>, start: nat, end: nat, beyond: Memory)
    requires start + 1 < |cells| && end < |cells| && !ReadsInPlace(cells, start, end)
    requires Extract(Between(cells, start, end)).Picked? || Extract(Between(cells, start, end)).Dropped?
    requires var c := Between(cells, start, end);
             Holds(beyond, SpoilingByte(|cells|, start, c, Extract(c).Picked?))
    ensures var c := Between(cells, start, end);
            Extract(View(cells, false, start, |c|, beyond)) != Extract(c)
  {
    var c := Between(cells, start, end);
    var x := FirstOutside(|cells|, start);
    var picked := Extract(c).Picked?;
    hide ExtractBody;
    InPlaceView(cells, start, end, beyond, x);
    var v := View(cells, false, start, |c|, beyond);
    hide Extract, Announced, Between;
    if !picked {
      NulAppears(c, v, x);
    } else if 0 in c[2..x] {
      PacketDiffers(c, v, x);
    } else {
      NoNulAppears(c, v, x);
    }
  }

  /** A length with another low byte, at least 254, announces another frame. */
  lemma OtherLength(c: seq<byte>, v: seq<byte>, b: byte)
    requires 2 <= |c| == |v| && v[0] == c[0] && v[1] == b != c[1] && b >= 254 && (c[1] != 255 ==> b == 255)
    requires Extract(c).Picked? || Extract(c).Dropped?
    ensures Extract(v) != Extract(c)
  {
    hide ExtractBody;
    TwoBytes(c);
    TwoBytes(v);
  }

  // Two frames of the same length that part at x, in three ways that show.

  ghost predicate PartAt(c: seq<byte>, v: seq<byte>, x: nat) {
    2 <= |c| == |v| && Announced(c) <= |c| && 2 <= x < Announced(c) && v[..x] == c[..x]
  }

  lemma PartingBodies(c: seq<byte>, v: seq<byte>, x: nat)
    requires PartAt(c, v, x)
    ensures Announced(v) == Announced(c)
    ensures var b, d := c[2..Announced(c)], v[2..Announced(c)];
            forall k :: 0 <= k < x - 2 ==> d[k] == b[k]
    ensures Extract(c) == ExtractBody(c[2..Announced(c)], Announced(c))
    ensures Extract(v) == ExtractBody(v[2..Announced(c)], Announced(c))
  {
    assert v[..2] == v[..x][..2] && c[..2] == c[..x][..2];
    forall k | 2 <= k < x ensures v[k] == c[k] {
      assert v[..x][k] == c[..x][k];
    }
  }

  lemma NulAppears(c: seq<byte>, v: seq<byte>, x: nat)
    requires PartAt(c, v, x) && Extract(c).Dropped? && v[x] == 0
    ensures Extract(v) != Extract(c)
  {
    PartingBodies(c, v, x);
    hide Extract, IsEncoding, Announced;
    var d := v[2..Announced(c)];
    assert d[x - 2] == 0;
    assert d[0..|d|] == d;
  }

  lemma NoNulAppears(c: seq<byte>, v: seq<byte>, x: nat)
    requires PartAt(c, v, x) && Extract(c).Picked? && 0 !in c[2..x]
    requires forall k :: x <= k < Announced(c) ==> v[k] != 0
    ensures Extract(v) != Extract(c)
  {
    PartingBodies(c, v, x);
    var d := v[2..Announced(c)];
    hide Extract, IsEncoding, Announced;
    forall k | 0 <= k < |d| ensures d[k] != 0 {
      if k < x - 2 {
        assert d[k] == c[2..x][k];
      }
    }
    NoNulOutcome(d, Announced(c));
  }

  lemma NoNulOutcome(body: seq<byte>, n: nat)
    requires 0 !in body
    ensures ExtractBody(body, n) == Dropped(n)
  {
    assert body[..|body|] == body;
    BodyOutcome(body, |body|, n);
  }

  lemma PacketDiffers(c: seq<byte>, v: seq<byte>, x: nat)
    requires PartAt(c, v, x) && Extract(c).Picked? && 0 in c[2..x] && v[x] != c[x]
    ensures Extract(v) != Extract(c)
  {
    PartingBodies(c, v, x);
    var n := Announced(c);
    var b, d := c[2..n], v[2..n];
    hide Extract, IsEncoding, Announced;
    var nul := FindNul(b, 0);
    var k :| 0 <= k < x - 2 && c[2..x][k] == 0;
    assert forall j :: 0 <= j < nul ==> b[0..nul][j] == b[j];
    assert b[k] == 0 && nul <= k;
    assert d[..nul] == b[0..nul];
    BodyOutcome(d, nul, n);
    BodyOutcome(b, nul, n);
    assert b[nul + 1..][x - 2 - (nul + 1)] == c[x];
    assert d[nul + 1..][x - 2 - (nul + 1)] == v[x];
  }

  /**
   * A complete frame that is not rejected is picked, or dropped, as it was put, whatever the memory
   * behind the array holds, exactly when all of its cells are read in place.
   */
  lemma AsWrittenIffInPlace(cells: seq<byte>, start: nat, end: nat)
    requires start < |cells| && end < |cells|
    requires Extract(Between(cells, start, end)).Picked? || Extract(Between(cells, start, end)).Dropped?
    ensures var c := Between(cells, start, end);
            (forall beyond: Memory :: Extract(View(cells, false, start, |c|, beyond)) == Extract(c))
            <==> ReadsInPlace(cells, start, end)
  {
    if ReadsInPlace(cells, start, end) {
      forall beyond: Memory
        ensures var c := Between(cells, start, end);
                Extract(View(cells, false, start, |c|, beyond)) == Extract(c)
      {
        InPlaceExtracts(cells, start, end, beyond);
      }
    } else {
      var c := Between(cells, start, end);
      var b := SpoilingByte(|cells|, start, c, Extract(c).Picked?);
      var beyond: Memory := _ => b;
      OutOfPlaceDiffers(cells, start, end, beyond);
    }
  }

  /** With that memory behind the array, the frame of e is never picked from that cell, whatever follows it. */
  ghost predicate Spoils(cells: nat, start: nat, e: Event, beyond: Memory) {
    forall r: Ring :: r.Valid() && |r.cells| == cells && r.start == start && Packed(e) <= r.Contents() ==>
                        Extract(r.Seen(false, beyond)) != Picked(e, FrameLength(e))
  }

  /** For a frame that does not fit there is such a memory. */
  lemma MisfitIsSpoiled(cells: nat, start: nat, e: Event) returns (beyond: Memory)
    requires start < cells && IsSendable(e) && !FitsAt(cells, start, FrameLength(e))
    ensures Spoils(cells, start, e, beyond)
  {
    var f := Packed(e);
    var b := SpoilingByte(cells, start, f, true);
    beyond := _ => b;
    forall r: Ring | r.Valid() && |r.cells| == cells && r.start == start && f <= r.Contents()
      ensures Extract(r.Seen(false, beyond)) != Picked(e, FrameLength(e))
    {
      MisfitDiffers(r, e, beyond);
    }
  }

  lemma MisfitDiffers(r: Ring, e: Event, beyond: Memory)
    requires r.Valid() && IsSendable(e) && Packed(e) <= r.Contents() && !FitsAt(|r.cells|, r.start, FrameLength(e))
    requires Holds(beyond, SpoilingByte(|r.cells|, r.start, Packed(e), true))
    ensures Extract(r.Seen(false, beyond)) != Picked(e, FrameLength(e))
  {
    hide Packed, IsSendable, Extract, Announced, Between, View, ReadsInPlace, SpoilingByte;
    FrameInFront(r.Contents(), e);
    InPlaceIffFits(r.cells, r.start, r.end);
    SameSpoilingByte(|r.cells|, r.start, Packed(e), r.Contents());
    OutOfPlaceDiffers(r.cells, r.start, r.end, beyond);
  }

  lemma FrameInFront(c: seq<byte>, e: Event)
    requires IsSendable(e) && Packed(e) <= c
    ensures |c| >= 2 && Announced(c) == FrameLength(e) && Extract(c) == Picked(e, FrameLength(e))
  {
    var f := Packed(e);
    assert FrameLength(e) <= MAX_FRAME;
    hide Packed, IsSendable, Extract, Announced;
    assert c == f + c[|f|..];
    PackedIsPicked(e, c[|f|..]);
    HeadOfPacked(e, c[|f|..]);
  }

  lemma SameSpoilingByte(cells: nat, start: nat, f: seq<byte>, c: seq<byte>)
    requires start < cells && |f| >= 2 && f <= c && (start + 1 < cells ==> FirstOutside(cells, start) < |f|)
    ensures SpoilingByte(cells, start, c, true) == SpoilingByte(cells, start, f, true)
  {
    if start + 1 < cells {
      var x := FirstOutside(cells, start);
      assert c[2..x] == f[2..x] && c[x] == f[x];
    }
  }

  /** The smallest frame, with its length cut in two by the end of a circle of four cells, is missed. */
  lemma SplitLengthIsMissed()
    ensures var cells: seq<byte> := [3, 0, 9, 0];
            && Extract(Between(cells, 3, 2)) == Picked(Event([], []), 3)
            && exists beyond: Memory :: Extract(View(cells, false, 3, 3, beyond)) == Incomplete
  {
    var cells: seq<byte> := [3, 0, 9, 0];
    var c := Between(cells, 3, 2);
    assert c == [0, 3, 0];
    TwoBytes(c);
    assert c[2..3] == [0];
    assert AreItems([]) && EncodeAll([]) == [];
    BodyOutcome([0], 0, 3);
    var beyond: Memory := _ => 255;
    var v := View(cells, false, 3, 3, beyond);
    assert v[0] == 0 && v[1] == 255;
    TwoBytes(v);
    assert Extract(v) == Incomplete;
  }
}
