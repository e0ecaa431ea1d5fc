/** Events on the wire: a name and a packet behind a 16-bit length. */
module Framing {
  import opened Bytes
  import opened SocketHelp
  import opened Wire

  /** An event, with its packet as the bytes it is made of. */
  datatype Event = Event(name: seq<byte>, packet: seq<byte>)

  const MIN_FRAME: nat := 3
  const MAX_FRAME: nat := 65535

  function FrameLength(e: Event): nat {
    2 + |e.name| + 1 + |e.packet|
  }

  /** The frame of an event. The length is cut to 16 bits. */
  function Packed(e: Event): (s: seq<byte>)
    ensures |s| == FrameLength(e)
  {
    Pow256Values();
    BigEndian(2, FrameLength(e) % 65536) + e.name + [0] + e.packet
  }

  function PackedAll(es: seq<Event>): seq<byte> {
    if es == [] then [] else Packed(es[0]) + PackedAll(es[1..])
  }

  /** The events that survive framing: the name is a C string, the packet is good, the length fits. */
  ghost predicate IsSendable(e: Event) {
    0 !in e.name && IsEncoding(e.packet) && FrameLength(e) <= MAX_FRAME
  }

  /** The smallest frame. */
  lemma SmallestFrame()
    ensures Packed(Event([], [])) == [0, 3, 0]
  {
    Pow256Values();
    var h := BigEndian(2, 3);
    FromBigEndianInverts(2, 3);
    TwoBytes(h);
    assert h[..2] == h;
    assert h == [0, 3];
  }

  method GetHeader(order: ByteOrder, e: Event) returns (header: ByteArray)
    ensures fresh(header)
    ensures header.bytes + e.packet == Packed(e)
  {
    var length := (|e.packet| + |e.name| + 1 + 2) % 65536;
    Pow256Values();
    hide *;
    header := new ByteArray();
    Push16(order, header, length);
    header.bytes := header.bytes + e.name;
    header.PushBack(0);
    PackedParts(e, length);
  }

  lemma PackedParts(e: Event, length: nat)
    requires length == (|e.packet| + |e.name| + 1 + 2) % 65536
    ensures length < Pow256(2)
    ensures Packed(e) == BigEndian(2, length) + e.name + [0] + e.packet
  {
    Pow256Values();
  }

  method Pack(order: ByteOrder, e: Event) returns (s: seq<byte>)
    ensures s == Packed(e)
  {
    var ev := GetHeader(order, e);
    ev.bytes := ev.bytes + e.packet;
    s := ev.bytes;
  }

  // ---------------------------------------------------------------------------
  // Cutting the first frame out of a byte stream
  // ---------------------------------------------------------------------------

  /** What a reader of frames finds at the head of a stream. */
  datatype Outcome =
    | Incomplete                            // wait for more bytes
    | Dropped(length: nat)                  // no end of the name: the frame is skipped
    | Rejected                              // a bad packet: the frame stays where it is
    | Picked(event: Event, length: nat)

  /** The announced length, which counts itself and the end of the name at least. */
  function Announced(c: seq<byte>): (length: nat)
    requires |c| >= 2
    ensures MIN_FRAME <= length <= MAX_FRAME
  {
    Pow256Values();
    var n := FromBigEndian(c[..2]);
    if n < MIN_FRAME then MIN_FRAME else n
  }

  ghost function Extract(c: seq<byte>): (r: Outcome)
    ensures r.Picked? || r.Dropped? ==> MIN_FRAME <= r.length <= |c|
  {
    if |c| < 2 || |c| < Announced(c) then Incomplete
    else ExtractBody(c[2..Announced(c)], Announced(c))
  }

  ghost function ExtractBody(body: seq<byte>, length: nat): (r: Outcome)
    ensures r.Picked? || r.Dropped? ==> r.length == length
    ensures !r.Incomplete?
  {
    var nul := FindNul(body, 0);
    if nul == |body| then Dropped(length)
    else if !IsEncoding(body[nul + 1..]) then Rejected
    else Picked(Event(body[..nul], body[nul + 1..]), length)
  }

  lemma HeadOfPacked(e: Event, rest: seq<byte>)
    requires FrameLength(e) <= MAX_FRAME
    ensures |Packed(e) + rest| >= 2 && Announced(Packed(e) + rest) == FrameLength(e)
    ensures (Packed(e) + rest)[2..FrameLength(e)] == e.name + [0] + e.packet
  {
    hide BigEndian, FromBigEndian, Pow256, Packed;
    var n := FrameLength(e);
    Pow256Values();
    FromBigEndianInverts(2, n);
    PackedParts(e, n);
    BehindHead(BigEndian(2, n), e.name + [0] + e.packet, rest);
    assert Packed(e) == BigEndian(2, n) + (e.name + [0] + e.packet);
  }

  lemma BehindHead(head: seq<byte>, body: seq<byte>, rest: seq<byte>)
    requires |head| == 2
    ensures (head + body + rest)[..2] == head && (head + body + rest)[2..2 + |body|] == body
  {
  }

  /** A frame is cut out whole, whatever follows it. */
  lemma PackedIsPicked(e: Event, rest: seq<byte>)
    requires IsSendable(e)
    ensures Extract(Packed(e) + rest) == Picked(e, FrameLength(e))
  {
    HeadOfPacked(e, rest);
    hide Packed, Announced, IsEncoding;
    var body := e.name + [0] + e.packet;
    assert body[0..|e.name|] == e.name;
    FindNulUnique(body, 0, |e.name|);
    assert body[|e.name| + 1..] == e.packet;
  }

  /** Nothing is cut out of the beginning of a frame. */
  lemma PrefixIsIncomplete(e: Event, c: seq<byte>)
    requires FrameLength(e) <= MAX_FRAME && c < Packed(e)
    ensures Extract(c) == Incomplete
  {
    HeadOfPacked(e, []);
    assert Packed(e) + [] == Packed(e);
    if |c| >= 2 {
      assert c[..2] == Packed(e)[..2];
    }
    hide Packed;
  }

  /** Whatever is cut out is the frame of a good event, unless the announced length was raised to the minimum. */
  lemma PickedIsPacked(c: seq<byte>)
    requires Extract(c).Picked?
    ensures var Picked(e, n) := Extract(c);
            && IsSendable(e) && FrameLength(e) == n
            && (FromBigEndian(c[..2]) >= MIN_FRAME ==> c[..n] == Packed(e))
            && (FromBigEndian(c[..2]) < MIN_FRAME ==> e == Event([], []) && c[2..n] == [0])
  {
    hide IsEncoding, ExtractBody, FromBigEndian, Packed;
    var n := Announced(c);
    PickedBody(c[2..n], n);
    if FromBigEndian(c[..2]) >= MIN_FRAME {
      PickedFrame(c, Extract(c).event);
    }
  }

  lemma PickedFrame(c: seq<byte>, e: Event)
    requires |c| >= 2 && FromBigEndian(c[..2]) >= MIN_FRAME && Announced(c) == FrameLength(e) <= |c|
    requires c[2..Announced(c)] == e.name + [0] + e.packet
    ensures c[..Announced(c)] == Packed(e)
  {
    AnnouncedIsHeader(c);
    PackedParts(e, Announced(c));
    hide Announced, Packed, BigEndian, FromBigEndian, Pow256;
    var n := Announced(c);
    assert c[..n] == c[..2] + c[2..n];
    assert c[..2] + (e.name + [0] + e.packet) == c[..2] + e.name + [0] + e.packet;
  }

  lemma PickedBody(body: seq<byte>, length: nat)
    requires ExtractBody(body, length).Picked?
    ensures var e := ExtractBody(body, length).event;
            body == e.name + [0] + e.packet && 0 !in e.name && IsEncoding(e.packet)
  {
    hide IsEncoding;
    var nul := FindNul(body, 0);
    assert body[0..nul] == body[..nul];
  }

  /**
   * Framing loses nothing of an event exactly when it is sendable: a NUL-free name, a good packet,
   * 65535 bytes at most.
   */
  lemma FramesIffSendable(e: Event)
    ensures Extract(Packed(e)) == Picked(e, FrameLength(e)) <==> IsSendable(e)
  {
    hide Packed, Extract, IsSendable;
    if IsSendable(e) {
      PackedIsPicked(e, []);
      assert Packed(e) + [] == Packed(e);
    }
    if Extract(Packed(e)) == Picked(e, FrameLength(e)) {
      PickedIsPacked(Packed(e));
    }
  }

  lemma AnnouncedIsHeader(c: seq<byte>)
    requires |c| >= 2 && FromBigEndian(c[..2]) >= MIN_FRAME
    ensures Announced(c) < Pow256(2) && BigEndian(2, Announced(c)) == c[..2]
  {
    BigEndianInverts(c[..2]);
  }

  /** What is found does not depend on the bytes behind the frame. */
  lemma FoundStays(c: seq<byte>, more: seq<byte>)
    requires !Extract(c).Incomplete?
    ensures Extract(c + more) == Extract(c)
  {
    var d := c + more;
    assert d[..2] == c[..2];
    assert d[2..Announced(c)] == c[2..Announced(c)];
  }

  /** A bad packet is never cut out, and never got rid of by more bytes. */
  lemma RejectedIffBadPacket(c: seq<byte>)
    requires |c| >= 2 && |c| >= Announced(c)
    ensures Extract(c).Rejected? <==>
            exists nul :: 2 <= nul < Announced(c) && 0 !in c[2..nul] && c[nul] == 0
                          && !IsEncoding(c[nul + 1..Announced(c)])
  {
    var n := Announced(c);
    hide Announced, IsEncoding;
    var body := c[2..n];
    var found := FindNul(body, 0);
    if found < |body| {
      assert body[0..found] == c[2..2 + found];
      assert body[found + 1..] == c[2 + found + 1..n];
    }
    forall nul | 2 <= nul < n && 0 !in c[2..nul] && c[nul] == 0
      ensures nul == 2 + found
    {
      assert c[2..nul] == body[0..nul - 2];
      FindNulUnique(body, 0, nul - 2);
    }
  }
}
