/** The circular buffer that keeps what a connection received until a whole frame is there. */
module RingBuffer {
  import opened Bytes
  import opened Options
  import opened Wire
  import opened SocketHelp
  import opened Packets
  import opened Framing

  /** The ROUND macro. */
  function Round(pos: nat, cells: nat): (r: nat)
    requires cells > 0
    ensures r < cells
    ensures pos < cells ==> r == pos
    ensures cells <= pos < 2 * cells ==> r == pos - cells
  {
    if cells <= pos < 2 * cells then
      assert pos % cells == (pos - cells) % cells by {
        RoundOnce(pos - cells, cells);
      }
      pos % cells
    else pos % cells
  }

  lemma RoundOnce(r: nat, cells: nat)
    requires r < cells
    ensures (r + cells) % cells == r
  {
    assert (r + cells) / cells == 1;
  }

  /** The bytes between two indices of a circle of cells. */
  function Between(cells: seq<byte>, start: nat, end: nat): (s: seq<byte>)
    requires start < |cells| && end < |cells|
    ensures |s| == if start <= end then end - start else |cells| - start + end
    ensures forall k :: 0 <= k < |s| ==> s[k] == cells[Round(start + k, |cells|)]
  {
    if start <= end then cells[start..end] else cells[start..] + cells[..end]
  }

  /**
   * The AT macro. The code reads the cell at its very index, which may lie outside the array:
   * there it finds whatever the memory holds. `wraps` is the reading that `put` is made for,
   * where the index goes round the circle.
   */
  function CellAt(cells: seq<byte>, wraps: bool, pos: nat, beyond: Memory): byte
    requires |cells| > 0
  {
    if wraps then cells[Round(pos, |cells|)]
    else if pos < |cells| then cells[pos]
    else beyond(pos)
  }

  /** Where pick_event looks for byte k of a frame: the index is rounded once, behind the length. */
  function PlaceOf(cells: nat, start: nat, k: nat): nat
    requires start < cells
  {
    if k < 2 then start + k else Round(start + 2, cells) + (k - 2)
  }

  /** The buffered bytes, as pick_event sees them. */
  function View(cells: seq<byte>, wraps: bool, start: nat, length: nat, beyond: Memory): (s: seq<byte>)
    requires start < |cells|
    ensures |s| == length
  {
    seq(length, k requires 0 <= k < length => CellAt(cells, wraps, PlaceOf(|cells|, start, k), beyond))
  }

  /** The buffer as a value: its circle of cells, and the indices of the first byte and behind the last. */
  datatype Ring = Ring(cells: seq<byte>, start: nat, end: nat) {
    predicate Valid() {
      start < |cells| && end < |cells|
    }

    /** The bytes that were put and not picked yet. */
    function Contents(): (s: seq<byte>)
      requires Valid()
      ensures |s| < |cells|
    {
      Between(cells, start, end)
    }

    /** The same bytes, as pick_event sees them. */
    function Seen(wraps: bool, beyond: Memory): (s: seq<byte>)
      requires Valid()
      ensures |s| == |Contents()|
    {
      View(cells, wraps, start, |Contents()|, beyond)
    }

    /** Removes n bytes from the front. */
    function Past(n: nat): (r: Ring)
      requires Valid() && 2 <= n <= |Contents()|
      ensures r.Valid() && |r.cells| == |cells| && r.Contents() == Contents()[n..]
    {
      PickFront(cells, start, end, n);
      this.(start := Round(start + n, |cells|))
    }

    /** Writes bytes behind the last one, round the circle. */
    function Written(s: seq<byte>): (r: Ring)
      requires Valid() && |Contents()| + |s| < |cells|
      ensures r.Valid() && |r.cells| == |cells| && r.start == start && r.Contents() == Contents() + s
      decreases |s|
    {
      if s == [] then
        this
      else
        var most := Written(s[..|s| - 1]);
        PutLast(most, Contents(), s);
        Ring(most.cells[most.end := s[|s| - 1]], start, Round(most.end + 1, |cells|))
    }
  }

  class RingBuf {
    const dt: array<byte>
    const size: nat
    const wraps: bool
    var start: nat
    var end: nat

    ghost predicate Valid()
      reads this
    {
      dt.Length == size + 1 && start <= size && end <= size
    }

    ghost function State(): (r: Ring)
      requires Valid()
      reads this, dt
      ensures r.Valid() && |r.cells| == size + 1
    {
      Ring(dt[..], start, end)
    }

    ghost function Contents(): (s: seq<byte>)
      requires Valid()
      reads this, dt
      ensures |s| <= size
    {
      State().Contents()
    }

    constructor (size: nat, wraps: bool)
      ensures Valid() && fresh(dt) && this.size == size && this.wraps == wraps
      ensures start == 0 && Contents() == []
    {
      this.size, this.wraps := size, wraps;
      dt := new byte[size + 1];
      start, end := 0, 0;
    }

    method Length() returns (n: nat)
      requires Valid()
      ensures n == |Contents()|
    {
      if start <= end {
        return end - start;
      }
      return (size + 1 - start) + end;
    }

    method Reset()
      requires Valid()
      modifies this`start
      ensures Valid() && Contents() == []
    {
      start := end;
    }

    method Put(s: seq<byte>) returns (ok: bool)
      requires Valid()
      modifies this`end, dt
      ensures Valid()
      ensures ok <==> |old(Contents())| + |s| <= size
      ensures Contents() == old(Contents()) + if ok then s else []
      ensures State() == if ok then old(State()).Written(s) else old(State())
    {
      var used := Length();
      if used + |s| > size {
        assert Contents() + [] == Contents();
        return false;
      }
      ghost var before := State();
      assert s[..0] == [];
      assert State() == before.Written(s[..0]);
      hide Between, Round, Ring.Written, Ring.Contents;
      var i := 0;
      while i < |s|
        invariant i <= |s| && Valid()
        invariant State() == before.Written(s[..i])
      {
        WrittenNext(before, s, i);
        dt[end] := s[i];
        end := (end + 1) % (size + 1);
        i := i + 1;
      }
      assert s[..i] == s;
      return true;
    }

    function At(pos: nat, beyond: Memory): byte
      requires Valid()
      reads this, dt
    {
      CellAt(dt[..], wraps, pos, beyond)
    }

    /** The length in front of a frame. */
    method FrontLength(order: ByteOrder, beyond: Memory) returns (n: nat)
      requires Valid() && |Contents()| >= 2
      ensures n == Announced(State().Seen(wraps, beyond))
    {
      ghost var view := State().Seen(wraps, beyond);
      var mem := [At(start, beyond), At(start + 1, beyond)];
      n := NetToHost(order, 2, Loaded(order, mem));
      assert view[..2] == mem;
      FromBigEndianInverts(2, n);
      if n < 2 + 1 {
        n := 2 + 1;
      }
    }

    /** Reads the name of a frame: the bytes up to the first NUL, or to the end of the frame. */
    method ReadName(packetLength: nat, beyond: Memory) returns (name: seq<byte>, remaining: nat, dtIdx: nat)
      requires Valid() && 2 <= packetLength <= |Contents()|
      ensures var body := State().Seen(wraps, beyond)[2..packetLength];
              && remaining == |body| - |name| && name == body[..|name|] && 0 !in name
              && (remaining > 0 ==> body[|name|] == 0)
      ensures dtIdx == PlaceOf(size + 1, start, packetLength - remaining)
    {
      hide View, CellAt, Between;
      ghost var view := State().Seen(wraps, beyond);
      dtIdx := Round(start + 2, size + 1);
      remaining := packetLength - 2;
      name := [];
      while remaining != 0 && At(dtIdx, beyond) != 0
        invariant 0 <= remaining <= packetLength - 2
        invariant dtIdx == PlaceOf(size + 1, start, packetLength - remaining)
        invariant name == view[2..packetLength - remaining] && 0 !in name
      {
        ViewAt(dt[..], wraps, start, |Contents()|, beyond, packetLength - remaining);
        name := name + [At(dtIdx, beyond)];
        remaining, dtIdx := remaining - 1, dtIdx + 1;
      }
      if remaining != 0 {
        ViewAt(dt[..], wraps, start, |Contents()|, beyond, packetLength - remaining);
      }
    }

    /** Copies the last bytes of a frame to a packet. */
    method ReadPacket(order: ByteOrder, packetLength: nat, from: nat, rest: nat, beyond: Memory)
      returns (packet: Packet, dtIdx: nat)
      requires Valid() && 2 <= packetLength - rest <= packetLength <= |Contents()|
      requires from == PlaceOf(size + 1, start, packetLength - rest)
      ensures fresh(packet) && fresh(packet.data)
      ensures packet.data.bytes == State().Seen(wraps, beyond)[packetLength - rest..packetLength]
      ensures dtIdx == PlaceOf(size + 1, start, packetLength)
    {
      hide View, CellAt, Between;
      ghost var cells, length := dt[..], |Contents()|;
      ghost var view := View(cells, wraps, start, length, beyond);
      packet := new Packet(order);
      dtIdx := from;
      var remaining := rest;
      while remaining != 0
        invariant 0 <= remaining <= rest
        invariant dtIdx == PlaceOf(size + 1, start, packetLength - remaining)
        invariant fresh(packet.data) && dt[..] == cells
        invariant packet.data.bytes == view[packetLength - rest..packetLength - remaining]
      {
        ViewAt(cells, wraps, start, length, beyond, packetLength - remaining);
        packet.data.PushBack(At(dtIdx, beyond));
        remaining, dtIdx := remaining - 1, dtIdx + 1;
      }
    }

    method PickEvent(order: ByteOrder, beyond: Memory, behindPacket: Memory) returns (r: Option<Event>)
      requires Valid()
      modifies this`start
      ensures Valid()
      ensures match Extract(old(State().Seen(wraps, beyond)))
              case Picked(e, n) => r == Some(e) && State() == old(State()).Past(n)
              case Dropped(n) => r == None && State() == old(State()).Past(n)
              case _ => r == None && State() == old(State())
    {
      hide IsEncoding, View, CellAt, Between, Announced, ExtractBody, Round;
      ghost var view := State().Seen(wraps, beyond);
      var used := Length();
      if used < 2 {
        return None;
      }
      var packetLength := FrontLength(order, beyond);
      if used < packetLength {
        return None;
      }
      var name, remaining, dtIdx := ReadName(packetLength, beyond);
      PickFront(dt[..], start, end, packetLength);
      BodyOutcome(view[2..packetLength], |name|, packetLength);
      if remaining == 0 {
        start := Round(start + packetLength, size + 1);
        return None;
      }
      remaining, dtIdx := remaining - 1, dtIdx + 1;
      var packet;
      packet, dtIdx := ReadPacket(order, packetLength, dtIdx, remaining, beyond);
      assert packet.data.bytes == view[2..packetLength][|name| + 1..];
      var valid := packet.IsValid(behindPacket);
      if !valid {
        return None;
      }
      start := Round(dtIdx, size + 1);
      return Some(Event(name, packet.data.bytes));
    }
  }

  lemma PutLast(most: Ring, c: seq<byte>, s: seq<byte>)
    requires most.Valid() && s != [] && |c| + |s| < |most.cells| && most.Contents() == c + s[..|s| - 1]
    ensures Ring(most.cells[most.end := s[|s| - 1]], most.start, Round(most.end + 1, |most.cells|)).Contents() == c + s
  {
    PutOne(most.cells, most.start, most.end, s[|s| - 1]);
    hide Between;
    assert s == s[..|s| - 1] + [s[|s| - 1]];
  }

  lemma WrittenNext(r: Ring, s: seq<byte>, i: nat)
    requires r.Valid() && i < |s| && |r.Contents()| + |s| < |r.cells|
    ensures var most := r.Written(s[..i]);
            r.Written(s[..i + 1]) == Ring(most.cells[most.end := s[i]], most.start, (most.end + 1) % |most.cells|)
  {
    hide Between, Ring.Contents;
    assert s[..i + 1][..i] == s[..i];
  }

  lemma PutOne(cells: seq<byte>, start: nat, end: nat, b: byte)
    requires start < |cells| && end < |cells| && |Between(cells, start, end)| + 1 < |cells|
    ensures Between(cells[end := b], start, Round(end + 1, |cells|)) == Between(cells, start, end) + [b]
  {
  }

  lemma PickFront(cells: seq<byte>, start: nat, end: nat, n: nat)
    requires start < |cells| && end < |cells| && 2 <= n <= |Between(cells, start, end)|
    ensures Round(start + n, |cells|) == Round(PlaceOf(|cells|, start, n), |cells|)
    ensures Between(cells, Round(start + n, |cells|), end) == Between(cells, start, end)[n..]
  {
  }

  lemma ViewAt(cells: seq<byte>, wraps: bool, start: nat, length: nat, beyond: Memory, k: nat)
    requires start < |cells| && k < length
    ensures View(cells, wraps, start, length, beyond)[k] == CellAt(cells, wraps, PlaceOf(|cells|, start, k), beyond)
  {
  }

  lemma BodyOutcome(body: seq<byte>, nul: nat, length: nat)
    requires nul <= |body| && 0 !in body[..nul] && (nul < |body| ==> body[nul] == 0)
    ensures ExtractBody(body, length) ==
            if nul == |body| then Dropped(length)
            else if IsEncoding(body[nul + 1..]) then Picked(Event(body[..nul], body[nul + 1..]), length)
            else Rejected
  {
    hide IsEncoding;
    assert body[0..nul] == body[..nul];
    if nul < |body| {
      FindNulUnique(body, 0, nul);
    } else {
      assert body[..nul] == body;
    }
  }
}
