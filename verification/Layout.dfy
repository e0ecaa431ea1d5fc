/** The bytes on the wire in plain numbers, without a name for any constant of the format. */
module Layout {
  import opened Bytes
  import opened Wire
  import opened Framing
  import opened RingBuffer
  import opened Reassembly

  /** Numbers of one, two, four and eight bytes, most significant byte first. */
  lemma NetworkOrder(v: nat)
    ensures v < 0x100 ==> v < Pow256(1) && BigEndian(1, v) == [v]
    ensures v < 0x1_0000 ==> v < Pow256(2) && BigEndian(2, v) == [v / 0x100, v % 0x100]
    ensures v < 0x1_0000_0000 ==>
              v < Pow256(4) &&
              BigEndian(4, v) == [v / 0x100_0000, v / 0x1_0000 % 0x100, v / 0x100 % 0x100, v % 0x100]
  {
    hide *;
    Pow256Values();
    if v < 0x100 {
      OneByte(v);
    }
    if v < 0x1_0000 {
      HighTwo(v);
    }
    if v < 0x1_0000_0000 {
      HighFour(v);
    }
  }

  lemma OneByte(v: nat)
    requires v < Pow256(1) == 0x100
    ensures BigEndian(1, v) == [v]
  {
    assert BigEndian(0, v / 256) == [];
  }

  lemma HighTwo(v: nat)
    requires v < 0x1_0000
    ensures v < Pow256(2) && BigEndian(2, v) == [v / 0x100, v % 0x100]
  {
    Pow256Values();
    OneByte(v / 256);
    assert BigEndian(2, v) == BigEndian(1, v / 256) + [v % 256];
  }

  lemma HighFour(v: nat)
    requires v < 0x1_0000_0000
    ensures v < Pow256(4)
    ensures BigEndian(4, v) == [v / 0x100_0000, v / 0x1_0000 % 0x100, v / 0x100 % 0x100, v % 0x100]
  {
    Pow256Values();
    var high, low := v / 0x1_0000, v % 0x1_0000;
    HighTwo(high);
    HighTwo(low);
    assert v == high * Pow256(2) + low;
    hide Pow256, BigEndian;
    BigEndianSplits(2, 2, high, low);
  }

  /** Eight bytes are two blocks of four. */
  lemma NetworkOrder64(v: nat)
    requires v < 0x1_0000_0000_0000_0000
    ensures v < Pow256(8)
    ensures var high, low := v / 0x1_0000_0000, v % 0x1_0000_0000;
            BigEndian(8, v) == [high / 0x100_0000, high / 0x1_0000 % 0x100, high / 0x100 % 0x100, high % 0x100,
                                low / 0x100_0000, low / 0x1_0000 % 0x100, low / 0x100 % 0x100, low % 0x100]
  {
    hide BigEndian, Pow256;
    Pow256Values();
    var high, low := v / 0x1_0000_0000, v % 0x1_0000_0000;
    HighFour(high);
    HighFour(low);
    BigEndianSplits(4, 4, high, low);
  }

  /** Signed numbers are written in two's complement. */
  lemma TwosComplement(n: nat, v: int)
    requires n >= 1 && -(Half256(n) as int) <= v < Half256(n)
    ensures ToPattern(n, v) == v % Pow256(n)
  {
    hide Pow256;
    if v < 0 {
      ModOfNegative(v, Pow256(n));
    } else {
      ModOfSmall(v, Pow256(n));
    }
  }

  lemma ModOfSmall(v: nat, p: nat)
    requires v < p
    ensures v % p == v
  {
  }

  lemma ModOfNegative(v: int, p: nat)
    requires p > 0 && -(p as int) <= v < 0
    ensures v % p == v + p
  {
    assert v / p == -1;
  }

  /** The numbers that each type can hold. */
  lemma Ranges(t: ScalarType, v: int)
    ensures Fits(t, v) <==>
            match t
            case Int8 => -0x80 <= v < 0x80
            case Int16 => -0x8000 <= v < 0x8000
            case Int32 => -0x8000_0000 <= v < 0x8000_0000
            case Int64 => -0x8000_0000_0000_0000 <= v < 0x8000_0000_0000_0000
            case UInt8 => 0 <= v < 0x100
            case UInt16 => 0 <= v < 0x1_0000
            case UInt32 | Float => 0 <= v < 0x1_0000_0000
            case UInt64 | Double => 0 <= v < 0x1_0000_0000_0000_0000
  {
    Pow256Values();
    hide Pow256;
  }

  /** The first byte of a scalar. */
  lemma ScalarTags(t: ScalarType, v: int)
    requires Fits(t, v)
    ensures Encode(Scalar(t, v))[0] ==
            match t
            case Int8 => 0x01
            case Int16 => 0x02
            case Int32 => 0x03
            case Int64 => 0x04
            case UInt8 => 0x05
            case UInt16 => 0x06
            case UInt32 => 0x07
            case UInt64 => 0x08
            case Float => 0x10
            case Double => 0x11
  {
    hide EncodeNumber, Fits;
  }

  /** The bytes behind it: the number modulo its range, in network order. */
  lemma ScalarLayout(t: ScalarType, v: int)
    requires Fits(t, v)
    ensures var s := Encode(Scalar(t, v));
            match t
            case Int8 | UInt8 => s[1..] == [v % 0x100]
            case Int16 | UInt16 => var p := v % 0x1_0000; s[1..] == [p / 0x100, p % 0x100]
            case Int32 | UInt32 | Float =>
              var p := v % 0x1_0000_0000;
              s[1..] == [p / 0x100_0000, p / 0x1_0000 % 0x100, p / 0x100 % 0x100, p % 0x100]
            case Int64 | UInt64 | Double =>
              var p := v % 0x1_0000_0000_0000_0000;
              var high, low := p / 0x1_0000_0000, p % 0x1_0000_0000;
              s[1..] == [high / 0x100_0000, high / 0x1_0000 % 0x100, high / 0x100 % 0x100, high % 0x100,
                         low / 0x100_0000, low / 0x1_0000 % 0x100, low / 0x100 % 0x100, low % 0x100]
  {
    hide BigEndian, Pow256, Fits, PatternOf;
    Pow256Values();
    PatternIsModulo(t, v);
    var p := PatternOf(t, v);
    assert Encode(Scalar(t, v))[1..] == BigEndian(Width(t), p);
    if Width(t) == 8 {
      NetworkOrder64(p);
    } else {
      NetworkOrder(p);
    }
  }

  lemma PatternIsModulo(t: ScalarType, v: int)
    requires Fits(t, v)
    ensures PatternOf(t, v) == v % Pow256(Width(t))
  {
    hide Pow256;
    if IsSigned(t) {
      TwosComplement(Width(t), v);
    }
  }

  /** Strings end with a NUL. */
  lemma StringLayout(chars: seq<byte>)
    requires 0 !in chars
    ensures Encode(Str(chars)) == [0x20] + chars + [0]
  {
  }

  /** Objects begin with the number of their fields, at most 255. */
  lemma ObjectLayout(fields: seq<Value>)
    requires AreItems(fields)
    ensures IsItem(Obj(fields)) <==> |fields| <= 255
    ensures |fields| <= 255 ==> Encode(Obj(fields)) == [0x40, |fields|] + EncodeAll(fields)
  {
  }

  /** The bytes of numbers of one type, without their tags. */
  function Untagged(t: ScalarType, ns: seq<int>): seq<byte>
    requires forall n | n in ns :: Fits(t, n)
  {
    if ns == [] then [] else Encode(Scalar(t, ns[0]))[1..] + Untagged(t, ns[1..])
  }

  lemma {:induction false} UntaggedIsEncoded(t: ScalarType, ns: seq<int>)
    requires forall n | n in ns :: Fits(t, n)
    ensures EncodeNumbers(t, ns) == Untagged(t, ns)
  {
    hide EncodeNumber, Fits;
    if ns != [] {
      UntaggedIsEncoded(t, ns[1..]);
      assert Encode(Scalar(t, ns[0]))[1..] == EncodeNumber(t, ns[0]);
    }
  }

  lemma ZeroFits(t: ScalarType)
    ensures Fits(t, 0) && Encode(Scalar(t, 0))[0] == TagOf(t) < 0x80
  {
    hide EncodeNumber, Fits;
    Ranges(t, 0);
  }

  lemma ArrayParts(t: ScalarType, ns: seq<int>)
    requires forall n | n in ns :: Fits(t, n)
    ensures IsItem(Arr(t, ns)) <==> |ns| <= 65535
    ensures |ns| <= 65535 ==>
              |ns| < Pow256(2) && 0x80 + TagOf(t) < 0x100
              && Encode(Arr(t, ns)) == [0x80 + TagOf(t)] + BigEndian(2, |ns|) + EncodeNumbers(t, ns)
  {
    hide EncodeNumbers, Fits, BigEndian, Pow256;
    Pow256Values();
  }

  /** Arrays begin with 0x80 plus the tag of one element, and with their number, at most 65535. */
  lemma ArrayLayout(t: ScalarType, ns: seq<int>)
    requires forall n | n in ns :: Fits(t, n)
    ensures IsItem(Arr(t, ns)) <==> |ns| <= 65535
    ensures Fits(t, 0) && Encode(Scalar(t, 0))[0] < 0x80
    ensures |ns| <= 65535 ==>
              Encode(Arr(t, ns)) ==
              [0x80 + Encode(Scalar(t, 0))[0], |ns| / 0x100, |ns| % 0x100] + Untagged(t, ns)
  {
    hide Encode, IsItem, Untagged, EncodeNumbers, Fits, BigEndian, Pow256, TagOf;
    ZeroFits(t);
    ArrayParts(t, ns);
    UntaggedIsEncoded(t, ns);
    NetworkOrder(|ns|);
  }

  /** A frame begins with its length, cut to 16 bits; the name ends with a NUL. */
  lemma FrameLayout(e: Event)
    ensures var length := (|e.name| + |e.packet| + 3) % 0x1_0000;
            Packed(e) == [length / 0x100, length % 0x100] + e.name + [0] + e.packet
  {
    hide BigEndian, Pow256;
    NetworkOrder((|e.name| + |e.packet| + 3) % 0x1_0000);
  }

  /** The length at the head of a stream, raised to three. */
  lemma AnnouncedLayout(c: seq<byte>)
    requires |c| >= 2
    ensures var n := 0x100 * (c[0] as int) + c[1]; Announced(c) == if n < 3 then 3 else n
  {
    TwoBytes(c);
    hide FromBigEndian, Pow256;
  }

  /** What stands at the head of a stream, when the first NUL behind the length is at nul. */
  lemma ExtractLayout(c: seq<byte>, nul: nat)
    ensures |c| < 2 ==> Extract(c) == Incomplete
    ensures |c| >= 2 ==>
              var n := 0x100 * (c[0] as int) + c[1];
              var end := if n < 3 then 3 else n;
              if |c| < end then Extract(c) == Incomplete
              else
                && (0 !in c[2..end] ==> Extract(c) == Dropped(end))
                && (2 <= nul < end && c[nul] == 0 && 0 !in c[2..nul] ==>
                      Extract(c) ==
                      if IsEncoding(c[nul + 1..end]) then Picked(Event(c[2..nul], c[nul + 1..end]), end) else Rejected)
  {
    hide IsEncoding, ExtractBody, Announced;
    if |c| < 2 {
      return;
    }
    AnnouncedLayout(c);
    var end := Announced(c);
    if end <= |c| {
      var body := c[2..end];
      if 0 !in body {
        BodyOutcome(body, |body|, end);
      }
      if 2 <= nul < end && c[nul] == 0 && 0 !in c[2..nul] {
        assert body[..nul - 2] == c[2..nul] && body[nul - 2 + 1..] == c[nul + 1..end] && body[nul - 2] == 0;
        BodyOutcome(body, nul - 2, end);
      }
    }
  }

  /**
   * What one turn of picking makes of the bytes at the head of the buffer: a frame without an end of its
   * name is skipped, and ends the turn; a bad packet ends it, and stays.
   */
  lemma DrainLayout(c: seq<byte>, nul: nat)
    requires |c| >= 2
    ensures var n := 0x100 * (c[0] as int) + c[1];
            var end := if n < 3 then 3 else n;
            if |c| < end then Drained(c) == Reading([], c)
            else
              && (0 !in c[2..end] ==> Drained(c) == Reading([], c[end..]))
              && (2 <= nul < end && c[nul] == 0 && 0 !in c[2..nul] ==>
                    Drained(c) ==
                    if IsEncoding(c[nul + 1..end]) then
                      After([Event(c[2..nul], c[nul + 1..end])], Drained(c[end..]))
                    else Reading([], c))
  {
    hide IsEncoding, Extract, Drained;
    ExtractLayout(c, nul);
    DrainStep(c);
  }
}
