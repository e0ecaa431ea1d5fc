/** Integer codecs of the wire, on a host of either byte order. */
module SocketHelp {
  import opened Bytes

  datatype ByteOrder = BigHost | LittleHost

  /** A growable array of bytes that its users append to in place. */
  class ByteArray {
    var bytes: seq<byte>

    constructor ()
      ensures bytes == []
    {
      bytes := [];
    }

    method PushBack(b: byte)
      modifies this
      ensures bytes == old(bytes) + [b]
    {
      bytes := bytes + [b];
    }
  }

  /** The memory of an unsigned variable of n bytes, lowest address first. */
  function Stored(order: ByteOrder, n: nat, v: nat): (mem: seq<byte>)
    requires v < Pow256(n)
    ensures |mem| == n
  {
    match order
    case BigHost => BigEndian(n, v)
    case LittleHost => Reversed(BigEndian(n, v))
  }

  function Loaded(order: ByteOrder, mem: seq<byte>): (v: nat)
    ensures v < Pow256(|mem|)
    ensures Stored(order, |mem|, v) == mem
  {
    match order
    case BigHost =>
      BigEndianInverts(mem);
      FromBigEndian(mem)
    case LittleHost =>
      BigEndianInverts(Reversed(mem));
      ReversedTwice(mem);
      FromBigEndian(Reversed(mem))
  }

  lemma LoadedInverts(order: ByteOrder, n: nat, v: nat)
    requires v < Pow256(n)
    ensures Loaded(order, Stored(order, n, v)) == v
  {
    FromBigEndianInverts(n, v);
    ReversedTwice(BigEndian(n, v));
  }

  /** htons and htonl: the variable whose memory is v in network order. */
  function HostToNet(order: ByteOrder, n: nat, v: nat): (r: nat)
    requires v < Pow256(n)
    ensures r < Pow256(n)
    ensures Stored(order, n, r) == BigEndian(n, v)
  {
    Loaded(order, BigEndian(n, v))
  }

  /** ntohs and ntohl. */
  function NetToHost(order: ByteOrder, n: nat, v: nat): (r: nat)
    requires v < Pow256(n)
    ensures r < Pow256(n)
    ensures BigEndian(n, r) == Stored(order, n, v)
  {
    var mem := Stored(order, n, v);
    BigEndianInverts(mem);
    FromBigEndian(mem)
  }

  /** Stores two 32-bit blocks side by side: which one is the high half depends on the host. */
  lemma BlocksMakeWord(order: ByteOrder, high: nat, low: nat)
    requires high < Pow256(4) && low < Pow256(4)
    ensures high * Pow256(4) + low < Pow256(8)
    ensures Stored(order, 8, high * Pow256(4) + low) ==
            if order.BigHost? then Stored(order, 4, high) + Stored(order, 4, low)
            else Stored(order, 4, low) + Stored(order, 4, high)
  {
    BigEndianSplits(4, 4, high, low);
    var h, l := BigEndian(4, high), BigEndian(4, low);
    assert Reversed(h + l) == Reversed(l) + Reversed(h);
  }

  lemma WordOfBlocks(order: ByteOrder, high: nat, low: nat, mem: seq<byte>)
    requires high < Pow256(4) && low < Pow256(4)
    requires mem == if order.BigHost? then Stored(order, 4, high) + Stored(order, 4, low)
                    else Stored(order, 4, low) + Stored(order, 4, high)
    ensures Loaded(order, mem) < Pow256(8)
    ensures BigEndian(8, Loaded(order, mem)) == BigEndian(4, high) + BigEndian(4, low)
  {
    hide *;
    BlocksMakeWord(order, high, low);
    LoadedInverts(order, 8, high * Pow256(4) + low);
    BigEndianSplits(4, 4, high, low);
  }

  /** The two blocks of a word, in memory and on the wire. */
  lemma BlocksOfWord(order: ByteOrder, dt: nat) returns (high: nat, low: nat)
    requires dt < Pow256(8)
    ensures high < Pow256(4) && low < Pow256(4)
    ensures BigEndian(8, dt) == BigEndian(4, high) + BigEndian(4, low)
    ensures Loaded(order, Stored(order, 8, dt)[..4]) == if order.BigHost? then high else low
    ensures Loaded(order, Stored(order, 8, dt)[4..]) == if order.BigHost? then low else high
  {
    high, low := dt / 0x1_0000_0000, dt % 0x1_0000_0000;
    Pow256Values();
    hide *;
    BlocksMakeWord(order, high, low);
    BigEndianSplits(4, 4, high, low);
    LoadedInverts(order, 4, high);
    LoadedInverts(order, 4, low);
    var h, l := Stored(order, 4, high), Stored(order, 4, low);
    assert (h + l)[..4] == h && (h + l)[4..] == l && (l + h)[..4] == l && (l + h)[4..] == h;
  }

  lemma {:induction false} ZeroHighBytes(n: nat)
    ensures forall k :: 0 <= k < n ==> BigEndian(n, 0)[k] == 0
  {
    if n > 0 {
      ZeroHighBytes(n - 1);
      assert BigEndian(n, 0) == BigEndian(n - 1, 0) + [0];
    }
  }

  method IsBigEndian(order: ByteOrder) returns (big: bool)
    ensures big <==> order.BigHost?
  {
    Pow256Values();
    var v := Stored(order, 8, 1);
    ZeroHighBytes(7);
    assert BigEndian(8, 1) == BigEndian(7, 0) + [1];
    big := v[0] == 0;
  }

  /** Swaps the two 32-bit blocks that a 64-bit variable is made of. */
  method BytesSwap(blocks: array<nat>)
    requires blocks.Length == 2
    modifies blocks
    ensures blocks[0] == old(blocks[1]) && blocks[1] == old(blocks[0])
  {
    blocks[0], blocks[1] := blocks[1], blocks[0];
  }

  method Push8(data: ByteArray, dt: nat)
    requires dt < Pow256(1)
    modifies data
    ensures data.bytes == old(data.bytes) + BigEndian(1, dt)
  {
    data.PushBack(dt);
    assert BigEndian(1, dt) == BigEndian(0, dt / 256) + [dt % 256];
  }

  method Push16(order: ByteOrder, data: ByteArray, dt: nat)
    requires dt < Pow256(2)
    modifies data
    ensures data.bytes == old(data.bytes) + BigEndian(2, dt)
  {
    var ndt := HostToNet(order, 2, dt);
    var bytes := Stored(order, 2, ndt);
    data.PushBack(bytes[0]);
    data.PushBack(bytes[1]);
  }

  method Push32(order: ByteOrder, data: ByteArray, dt: nat)
    requires dt < Pow256(4)
    modifies data
    ensures data.bytes == old(data.bytes) + BigEndian(4, dt)
  {
    var ndt := HostToNet(order, 4, dt);
    var bytes := Stored(order, 4, ndt);
    data.PushBack(bytes[0]);
    data.PushBack(bytes[1]);
    data.PushBack(bytes[2]);
    data.PushBack(bytes[3]);
  }

  method Push64(order: ByteOrder, data: ByteArray, dt: nat)
    requires dt < Pow256(8)
    modifies data
    ensures data.bytes == old(data.bytes) + BigEndian(8, dt)
  {
    hide *;
    ghost var high, low := BlocksOfWord(order, dt);
    var stored := Stored(order, 8, dt);
    var blocks := new nat[2];
    blocks[0], blocks[1] := Loaded(order, stored[..4]), Loaded(order, stored[4..]);
    var big := IsBigEndian(order);
    if !big {
      BytesSwap(blocks);
    }
    Push32(order, data, blocks[0]);
    Push32(order, data, blocks[1]);
  }

  method Front8(index: nat, data: ByteArray) returns (v: nat)
    requires index + 1 <= |data.bytes|
    ensures v < Pow256(1) && BigEndian(1, v) == data.bytes[index..index + 1]
  {
    v := data.bytes[index];
    assert BigEndian(1, v) == BigEndian(0, v / 256) + [v % 256];
  }

  method Front16(order: ByteOrder, index: nat, data: ByteArray) returns (v: nat)
    requires index + 2 <= |data.bytes|
    ensures v < Pow256(2) && BigEndian(2, v) == data.bytes[index..index + 2]
  {
    var mem := [data.bytes[index], data.bytes[index + 1]];
    v := NetToHost(order, 2, Loaded(order, mem));
  }

  method Front32(order: ByteOrder, index: nat, data: ByteArray) returns (v: nat)
    requires index + 4 <= |data.bytes|
    ensures v < Pow256(4) && BigEndian(4, v) == data.bytes[index..index + 4]
  {
    var mem := [data.bytes[index], data.bytes[index + 1], data.bytes[index + 2], data.bytes[index + 3]];
    v := NetToHost(order, 4, Loaded(order, mem));
  }

  method Front64(order: ByteOrder, index: nat, data: ByteArray) returns (v: nat)
    requires index + 8 <= |data.bytes|
    ensures v < Pow256(8) && BigEndian(8, v) == data.bytes[index..index + 8]
  {
    hide *;
    var high := Front32(order, index, data);
    var low := Front32(order, index + 4, data);
    var blocks := new nat[2];
    blocks[0], blocks[1] := high, low;
    var big := IsBigEndian(order);
    if !big {
      BytesSwap(blocks);
    }
    var mem := Stored(order, 4, blocks[0]) + Stored(order, 4, blocks[1]);
    assert mem == if order.BigHost? then Stored(order, 4, high) + Stored(order, 4, low)
                  else Stored(order, 4, low) + Stored(order, 4, high);
    v := Loaded(order, mem);
    assert BigEndian(8, v) == data.bytes[index..index + 8] by {
      WordOfBlocks(order, high, low, mem);
      assert data.bytes[index..index + 8] == data.bytes[index..index + 4] + data.bytes[index + 4..index + 8];
    }
  }
}
