/**
 * Reading a connection: chunks of the stream are put into the ring buffer, and after each of them
 * whole frames are picked for as long as that succeeds.
 */
module Reassembly {
  import opened Bytes
  import opened Options
  import opened Wire
  import opened SocketHelp
  import opened Framing
  import opened RingBuffer
  import opened Placement

  const CHUNK: nat := 512
  const BUFFER_SIZE: nat := 4095

  function Flatten(chunks: seq<seq<byte>>): seq<byte> {
    if chunks == [] then [] else chunks[0] + Flatten(chunks[1..])
  }

  /** Events picked, and what is left. */
  datatype Reading<T> = Reading(events: seq<Event>, left: T)

  function After<T>(es: seq<Event>, r: Reading<T>): Reading<T> {
    Reading(es + r.events, r.left)
  }

  lemma AfterNothing<T>(r: Reading<T>)
    ensures After([], r) == r
  {
  }

  lemma AfterLast<T>(es: seq<Event>, left: T)
    ensures After(es, Reading([], left)) == Reading(es, left)
  {
  }

  lemma AfterBoth<T>(a: seq<Event>, b: seq<Event>, r: Reading<T>)
    ensures After(a, After(b, r)) == After(a + b, r)
  {
  }

  // ---------------------------------------------------------------------------
  // The loop on the bytes that are buffered
  // ---------------------------------------------------------------------------

  /** What one turn of picking gives, and what it leaves in the buffer. */
  ghost function Drained(c: seq<byte>): (r: Reading<seq<byte>>)
    ensures |r.left| <= |c|
    decreases |c|
  {
    var step := Extract(c);
    if step.Picked? then After([step.event], Drained(c[step.length..]))
    else if step.Dropped? then Reading([], c[step.length..])
    else Reading([], c)
  }

  /** A chunk is refused, and lost, when it does not fit. */
  function Accepts(size: nat, c: seq<byte>, chunk: seq<byte>): bool {
    |c| + |chunk| <= size
  }

  ghost function Received(size: nat, c: seq<byte>, chunks: seq<seq<byte>>): Reading<seq<byte>>
    decreases |chunks|
  {
    if chunks == [] then Reading([], c)
    else
      var r := Drained(if Accepts(size, c, chunks[0]) then c + chunks[0] else c);
      After(r.events, Received(size, r.left, chunks[1..]))
  }

  ghost predicate NeverRefused(size: nat, c: seq<byte>, chunks: seq<seq<byte>>)
    decreases |chunks|
  {
    chunks == [] ||
    (Accepts(size, c, chunks[0]) && NeverRefused(size, Drained(c + chunks[0]).left, chunks[1..]))
  }

  lemma DrainStep(c: seq<byte>)
    ensures var step := Extract(c);
            Drained(c) == if step.Picked? then After([step.event], Drained(c[step.length..]))
                          else if step.Dropped? then Reading([], c[step.length..])
                          else Reading([], c)
  {
  }

  // ---------------------------------------------------------------------------
  // The loop on the buffer itself. As the code stands, `wraps` is false: what is picked is then
  // what is seen in the array and behind it, and not always what is buffered.
  // ---------------------------------------------------------------------------

  ghost function DrainedRing(r: Ring, wraps: bool, beyond: Memory): (d: Reading<Ring>)
    requires r.Valid()
    ensures d.left.Valid() && |d.left.cells| == |r.cells| && |d.left.Contents()| <= |r.Contents()|
    decreases |r.Contents()|
  {
    var step := Extract(r.Seen(wraps, beyond));
    if step.Picked? then After([step.event], DrainedRing(r.Past(step.length), wraps, beyond))
    else if step.Dropped? then Reading([], r.Past(step.length))
    else Reading([], r)
  }

  ghost function PutRing(r: Ring, chunk: seq<byte>): (p: Ring)
    requires r.Valid()
    ensures p.Valid() && |p.cells| == |r.cells| && p.start == r.start
    ensures p.Contents() == if Accepts(|r.cells| - 1, r.Contents(), chunk) then r.Contents() + chunk else r.Contents()
  {
    if Accepts(|r.cells| - 1, r.Contents(), chunk) then r.Written(chunk) else r
  }

  ghost function ReceivedRing(r: Ring, wraps: bool, chunks: seq<seq<byte>>, beyond: Memory): (d: Reading<Ring>)
    requires r.Valid()
    ensures d.left.Valid() && |d.left.cells| == |r.cells|
    decreases |chunks|
  {
    if chunks == [] then Reading([], r)
    else
      var d := DrainedRing(PutRing(r, chunks[0]), wraps, beyond);
      After(d.events, ReceivedRing(d.left, wraps, chunks[1..], beyond))
  }

  ghost predicate NeverRefusedRing(r: Ring, wraps: bool, chunks: seq<seq<byte>>, beyond: Memory)
    requires r.Valid()
    decreases |chunks|
  {
    chunks == [] ||
    (Accepts(|r.cells| - 1, r.Contents(), chunks[0]) &&
     NeverRefusedRing(DrainedRing(PutRing(r, chunks[0]), wraps, beyond).left, wraps, chunks[1..], beyond))
  }

  /** The bytes that a reading left. */
  ghost function Bare(d: Reading<Ring>): Reading<seq<byte>>
    requires d.left.Valid()
  {
    Reading(d.events, d.left.Contents())
  }

  /** Picks frames until none is left. */
  method DrainBuffer(buffer: RingBuf, order: ByteOrder, beyond: Memory, behindPacket: Memory) returns (es: seq<Event>)
    requires buffer.Valid()
    modifies buffer`start
    ensures buffer.Valid()
    ensures Reading(es, buffer.State()) == DrainedRing(old(buffer.State()), buffer.wraps, beyond)
  {
    ghost var r := buffer.State();
    AfterNothing(DrainedRing(r, buffer.wraps, beyond));
    hide DrainedRing, Extract, Between, Round, After, Ring.Seen, Ring.Past, Ring.Contents;
    es := [];
    while true
      invariant buffer.Valid()
      invariant DrainedRing(r, buffer.wraps, beyond) == After(es, DrainedRing(buffer.State(), buffer.wraps, beyond))
      decreases |buffer.Contents()|
    {
      DrainRingStep(buffer.State(), buffer.wraps, beyond);
      var e := buffer.PickEvent(order, beyond, behindPacket);
      if e == None {
        AfterLast(es, buffer.State());
        break;
      }
      AfterBoth(es, [e.value], DrainedRing(buffer.State(), buffer.wraps, beyond));
      es := es + [e.value];
    }
  }

  lemma DrainRingStep(r: Ring, wraps: bool, beyond: Memory)
    requires r.Valid()
    ensures var step := Extract(r.Seen(wraps, beyond));
            DrainedRing(r, wraps, beyond) ==
            if step.Picked? then After([step.event], DrainedRing(r.Past(step.length), wraps, beyond))
            else if step.Dropped? then Reading([], r.Past(step.length))
            else Reading([], r)
  {
  }

  /** Puts one chunk, if it fits, and picks what can be picked then. */
  method ReadChunk(buffer: RingBuf, order: ByteOrder, chunk: seq<byte>, beyond: Memory, behindPacket: Memory)
    returns (es: seq<Event>)
    requires buffer.Valid()
    modifies buffer`start, buffer`end, buffer.dt
    ensures buffer.Valid()
    ensures Reading(es, buffer.State()) == DrainedRing(PutRing(old(buffer.State()), chunk), buffer.wraps, beyond)
  {
    hide DrainedRing, Ring.Written;
    var put := buffer.Put(chunk);
    es := DrainBuffer(buffer, order, beyond, behindPacket);
  }

  /** Handles what recv gives until it has nothing more to give. */
  method ReadConnection(buffer: RingBuf, order: ByteOrder, chunks: seq<seq<byte>>, beyond: Memory, behindPacket: Memory)
    returns (es: seq<Event>)
    requires buffer.Valid()
    modifies buffer`start, buffer`end, buffer.dt
    ensures buffer.Valid()
    ensures Reading(es, buffer.State()) == ReceivedRing(old(buffer.State()), buffer.wraps, chunks, beyond)
  {
    ghost var r, left := buffer.State(), chunks;
    AfterNothing(ReceivedRing(r, buffer.wraps, chunks, beyond));
    hide DrainedRing, ReceivedRing, PutRing, After;
    es := [];
    var i := 0;
    while i < |chunks|
      invariant i <= |chunks| && left == chunks[i..] && buffer.Valid()
      invariant ReceivedRing(r, buffer.wraps, chunks, beyond) ==
                After(es, ReceivedRing(buffer.State(), buffer.wraps, left, beyond))
    {
      ReceiveRingStep(buffer.State(), buffer.wraps, left, beyond);
      var picked := ReadChunk(buffer, order, chunks[i], beyond, behindPacket);
      left := left[1..];
      AfterBoth(es, picked, ReceivedRing(buffer.State(), buffer.wraps, left, beyond));
      es := es + picked;
      i := i + 1;
    }
    NothingReceived(buffer.State(), buffer.wraps, es, beyond);
  }

  lemma ReceiveRingStep(r: Ring, wraps: bool, chunks: seq<seq<byte>>, beyond: Memory)
    requires r.Valid() && chunks != []
    ensures var d := DrainedRing(PutRing(r, chunks[0]), wraps, beyond);
            ReceivedRing(r, wraps, chunks, beyond) == After(d.events, ReceivedRing(d.left, wraps, chunks[1..], beyond))
  {
    hide DrainedRing, PutRing;
  }

  lemma NothingReceived(r: Ring, wraps: bool, es: seq<Event>, beyond: Memory)
    requires r.Valid()
    ensures After(es, ReceivedRing(r, wraps, [], beyond)) == Reading(es, r)
  {
  }

  // With an index that goes round, the loop on the buffer is the loop on the bytes that are buffered.

  lemma {:induction false} WrappedDrains(r: Ring, beyond: Memory)
    requires r.Valid()
    ensures Bare(DrainedRing(r, true, beyond)) == Drained(r.Contents())
    decreases |r.Contents()|
  {
    WrappedViewIsContents(r.cells, r.start, r.end, beyond);
    assert r.Seen(true, beyond) == r.Contents();
    DrainRingStep(r, true, beyond);
    DrainStep(r.Contents());
    hide DrainedRing, Drained, Extract, Ring.Past, Ring.Seen, Ring.Contents;
    var step := Extract(r.Contents());
    if step.Picked? {
      WrappedDrains(r.Past(step.length), beyond);
    }
  }

  lemma {:induction false} WrappedReceives(r: Ring, chunks: seq<seq<byte>>, beyond: Memory)
    requires r.Valid()
    ensures Bare(ReceivedRing(r, true, chunks, beyond)) == Received(|r.cells| - 1, r.Contents(), chunks)
    ensures NeverRefusedRing(r, true, chunks, beyond) <==> NeverRefused(|r.cells| - 1, r.Contents(), chunks)
    decreases |chunks|
  {
    hide DrainedRing, Drained, PutRing, Ring.Contents;
    if chunks != [] {
      var p := PutRing(r, chunks[0]);
      WrappedDrains(p, beyond);
      WrappedReceives(DrainedRing(p, true, beyond).left, chunks[1..], beyond);
    }
  }

  // ---------------------------------------------------------------------------
  // What arrives is what was sent, with an index that goes round. For the code as it stands see
  // the module AsWritten.
  // ---------------------------------------------------------------------------

  ghost predicate AllSendable(es: seq<Event>, bound: nat) {
    forall e | e in es :: IsSendable(e) && FrameLength(e) <= bound
  }

  ghost predicate AreChunks(chunks: seq<seq<byte>>) {
    forall chunk | chunk in chunks :: 1 <= |chunk| <= CHUNK
  }

  /** Less than the next frame is in the buffer. */
  ghost predicate Waiting(c: seq<byte>, es: seq<Event>) {
    if es == [] then c == [] else c < Packed(es[0])
  }

  lemma SendableFits(es: seq<Event>, bound: nat)
    requires AllSendable(es, bound)
    ensures AllSendable(es, MAX_FRAME)
  {
  }

  lemma PrefixCancels(p: seq<byte>, a: seq<byte>, b: seq<byte>)
    requires p + a <= p + b
    ensures a <= b
  {
    assert a == (p + a)[|p|..] && b == (p + b)[|p|..];
    assert a == b[..|a|];
  }

  lemma {:induction false} PackedAllSplits(es: seq<Event>, k: nat)
    requires k <= |es|
    ensures PackedAll(es) == PackedAll(es[..k]) + PackedAll(es[k..])
  {
    hide Packed;
    if k > 0 {
      PackedAllSplits(es[1..], k - 1);
      assert es[..k][1..] == es[1..][..k - 1] && es[1..][k - 1..] == es[k..];
    } else {
      assert es[..0] == [] && es[0..] == es;
    }
  }

  /** Reading s gave the first k events, and left the beginning of the next frame. */
  ghost predicate Splits(s: seq<byte>, es: seq<Event>, k: nat, r: Reading<seq<byte>>) {
    k <= |es| && r.events == es[..k] && PackedAll(es[..k]) + r.left == s && Waiting(r.left, es[k..])
  }

  lemma SplitsNone(s: seq<byte>, es: seq<Event>)
    requires Waiting(s, es)
    ensures Splits(s, es, 0, Reading([], s))
  {
    assert es[..0] == [] && es[0..] == es;
    assert PackedAll([]) + s == s;
  }

  lemma SplitsBoth(s: seq<byte>, t: seq<byte>, es: seq<Event>, k: nat, a: Reading<seq<byte>>,
          m: nat, b: Reading<seq<byte>>)
    requires Splits(s, es, k, a) && Splits(a.left + t, es[k..], m, b)
    ensures Splits(s + t, es, k + m, After(a.events, b))
  {
    hide Packed, PackedAll, Waiting;
    var n := k + m;
    var p, q := es[..k], es[k..][..m];
    assert es[..n] == p + q && es[n..] == es[k..][m..];
    PackedAllSplits(es[..n], k);
    assert es[..n][..k] == p && es[..n][k..] == q;
    assert (PackedAll(p) + PackedAll(q)) + b.left == PackedAll(p) + (PackedAll(q) + b.left);
    assert PackedAll(p) + (a.left + t) == s + t;
  }

  lemma FirstOfStream(c: seq<byte>, es: seq<Event>)
    requires c <= PackedAll(es) && es != [] && |c| >= FrameLength(es[0])
    ensures var f, rest := Packed(es[0]), c[FrameLength(es[0])..];
            f <= c && c == f + rest && rest <= PackedAll(es[1..])
  {
    var f := Packed(es[0]);
    assert PackedAll(es) == f + PackedAll(es[1..]);
    hide Packed, PackedAll;
    assert c == f + c[|f|..];
    PrefixCancels(f, c[|f|..], PackedAll(es[1..]));
  }

  /** The beginning of a stream of frames either ends in its first frame, or has that frame in front. */
  lemma StreamFront(c: seq<byte>, es: seq<Event>)
    requires AllSendable(es, MAX_FRAME) && c <= PackedAll(es) && es != []
    ensures var f, n := Packed(es[0]), FrameLength(es[0]);
            if |c| < n then c < f && Extract(c) == Incomplete
            else f <= c && c == f + c[n..] && c[n..] <= PackedAll(es[1..]) && Extract(c) == Picked(es[0], n)
  {
    var e, f := es[0], Packed(es[0]);
    assert FrameLength(e) <= MAX_FRAME && IsSendable(e);
    assert f <= PackedAll(es);
    hide Extract, Packed, PackedAll, IsSendable;
    if |c| < |f| {
      assert c == f[..|c|];
      PrefixIsIncomplete(e, c);
    } else {
      FirstOfStream(c, es);
      PackedIsPicked(e, c[|f|..]);
    }
  }

  /** Draining the beginning of a stream of frames gives the complete ones. */
  lemma {:induction false} DrainPrefix(c: seq<byte>, es: seq<Event>) returns (k: nat)
    requires AllSendable(es, MAX_FRAME) && c <= PackedAll(es)
    ensures Splits(c, es, k, Drained(c))
    decreases es
  {
    DrainStep(c);
    if es == [] {
      k := 0;
      assert Extract(c) == Incomplete;
      SplitsNone(c, es);
    } else {
      StreamFront(c, es);
      var f, tail := Packed(es[0]), es[1..];
      hide Extract, Packed, IsSendable, Drained, PackedAll;
      if |c| < |f| {
        k := 0;
        SplitsNone(c, es);
      } else {
        var rest := c[|f|..];
        var n := DrainPrefix(rest, tail);
        k := 1 + n;
        FirstFrame(es);
        assert [] + rest == rest;
        SplitsBoth(f, rest, es, 1, Reading([es[0]], []), n, Drained(rest));
      }
    }
  }

  lemma FirstFrame(es: seq<Event>)
    requires es != []
    ensures Splits(Packed(es[0]), es, 1, Reading([es[0]], []))
  {
    assert es[..1] == [es[0]] && [es[0]][1..] == [];
    assert PackedAll([es[0]]) == Packed(es[0]) + [];
  }

  /** The induction over the chunks, from any point at which less than the next frame is waiting. */
  lemma {:induction false} ReassemblesFrom(size: nat, c: seq<byte>, es: seq<Event>, chunks: seq<seq<byte>>)
    returns (k: nat)
    requires size >= CHUNK && AllSendable(es, size - CHUNK + 1) && AreChunks(chunks)
    requires Waiting(c, es) && c + Flatten(chunks) <= PackedAll(es)
    ensures NeverRefused(size, c, chunks) && Splits(c + Flatten(chunks), es, k, Received(size, c, chunks))
    decreases |chunks|
  {
    hide Drained, Packed, PackedAll, AllSendable, AreChunks, Splits;
    if chunks == [] {
      assert c + [] == c;
      SplitsNone(c, es);
      return 0;
    }
    var n := FirstChunkDrains(size, c, es, chunks);
    var left := Drained(c + chunks[0]).left;
    var m := ReassemblesFrom(size, left, es[n..], chunks[1..]);
    k := n + m;
    RestReassembles(size, c, es, chunks, n, m);
  }

  lemma FirstChunkDrains(size: nat, c: seq<byte>, es: seq<Event>, chunks: seq<seq<byte>>) returns (n: nat)
    requires size >= CHUNK && AllSendable(es, size - CHUNK + 1) && chunks != [] && AreChunks(chunks)
    requires Waiting(c, es) && c + Flatten(chunks) <= PackedAll(es)
    ensures n <= |es| && AllSendable(es[n..], size - CHUNK + 1) && AreChunks(chunks[1..])
    ensures Accepts(size, c, chunks[0]) && Splits(c + chunks[0], es, n, Drained(c + chunks[0]))
    ensures var left := Drained(c + chunks[0]).left;
            Waiting(left, es[n..]) && left + Flatten(chunks[1..]) <= PackedAll(es[n..])
  {
    var chunk, rest := chunks[0], Flatten(chunks[1..]);
    NextChunkFits(size, c, es, chunk, rest);
    SendableFits(es, size - CHUNK + 1);
    FewerChunks(chunks);
    hide *;
    n := DrainPrefix(c + chunk, es);
    LeftGoesOn(c + chunk, rest, es, n, Drained(c + chunk));
    SendableTail(es, size - CHUNK + 1, n);
  }

  lemma Concat3(a: seq<byte>, b: seq<byte>, c: seq<byte>)
    ensures a + (b + c) == (a + b) + c
  {
  }

  lemma RestReassembles(size: nat, c: seq<byte>, es: seq<Event>, chunks: seq<seq<byte>>, n: nat, m: nat)
    requires chunks != [] && Accepts(size, c, chunks[0]) && n <= |es|
    requires Splits(c + chunks[0], es, n, Drained(c + chunks[0]))
    requires var left := Drained(c + chunks[0]).left;
             && NeverRefused(size, left, chunks[1..])
             && Splits(left + Flatten(chunks[1..]), es[n..], m, Received(size, left, chunks[1..]))
    ensures NeverRefused(size, c, chunks) && Splits(c + Flatten(chunks), es, n + m, Received(size, c, chunks))
  {
    ReceivedStep(size, c, chunks);
    var chunk, rest, r := chunks[0], Flatten(chunks[1..]), Drained(c + chunks[0]);
    Concat3(c, chunk, rest);
    hide *;
    SplitsBoth(c + chunk, rest, es, n, r, m, Received(size, r.left, chunks[1..]));
  }

  lemma NextChunkFits(size: nat, c: seq<byte>, es: seq<Event>, chunk: seq<byte>, rest: seq<byte>)
    requires size >= CHUNK && AllSendable(es, size - CHUNK + 1) && |chunk| <= CHUNK
    requires Waiting(c, es) && c + (chunk + rest) <= PackedAll(es)
    ensures Accepts(size, c, chunk)
    ensures c + (chunk + rest) == (c + chunk) + rest && c + chunk <= PackedAll(es)
  {
    hide IsSendable, Packed;
    if es != [] {
      assert |c| < |Packed(es[0])|;
    }
    assert c + (chunk + rest) == (c + chunk) + rest;
  }

  lemma FewerChunks(chunks: seq<seq<byte>>)
    requires chunks != [] && AreChunks(chunks)
    ensures AreChunks(chunks[1..])
  {
  }

  lemma SendableTail(es: seq<Event>, bound: nat, k: nat)
    requires AllSendable(es, bound) && k <= |es|
    ensures AllSendable(es[k..], bound)
  {
  }

  lemma LeftGoesOn(s: seq<byte>, t: seq<byte>, es: seq<Event>, k: nat, r: Reading<seq<byte>>)
    requires Splits(s, es, k, r) && s + t <= PackedAll(es)
    ensures k <= |es| && Waiting(r.left, es[k..]) && r.left + t <= PackedAll(es[k..])
  {
    hide PackedAll, Waiting, Packed;
    PackedAllSplits(es, k);
    PrefixGoesOn(PackedAll(es[..k]), r.left, s, t, PackedAll(es[k..]));
  }

  lemma PrefixGoesOn(p: seq<byte>, l: seq<byte>, s: seq<byte>, t: seq<byte>, q: seq<byte>)
    requires p + l == s && s + t <= p + q
    ensures l + t <= q
  {
    assert p + (l + t) == s + t;
    PrefixCancels(p, l + t, q);
  }

  lemma ReceivedStep(size: nat, c: seq<byte>, chunks: seq<seq<byte>>)
    requires chunks != [] && Accepts(size, c, chunks[0])
    ensures var r := Drained(c + chunks[0]);
            && Received(size, c, chunks) == After(r.events, Received(size, r.left, chunks[1..]))
            && NeverRefused(size, c, chunks) == NeverRefused(size, r.left, chunks[1..])
            && Flatten(chunks) == chunks[0] + Flatten(chunks[1..])
  {
    hide Drained;
  }

  /**
   * However the stream of frames is cut into chunks, no chunk is refused, and the events come out
   * in order: all those whose frames have arrived. Only the beginning of the next frame is kept.
   */
  lemma {:induction false} StreamReassembles(size: nat, es: seq<Event>, chunks: seq<seq<byte>>)
    requires size >= CHUNK && AllSendable(es, size - CHUNK + 1) && AreChunks(chunks)
    requires Flatten(chunks) <= PackedAll(es)
    ensures NeverRefused(size, [], chunks)
    ensures exists k :: Splits(Flatten(chunks), es, k, Received(size, [], chunks))
    ensures Flatten(chunks) == PackedAll(es) ==> Received(size, [], chunks) == Reading(es, [])
  {
    assert [] + Flatten(chunks) == Flatten(chunks);
    var k := ReassemblesFrom(size, [], es, chunks);
    hide Packed, Drained, IsSendable, Received, NeverRefused;
    if Flatten(chunks) == PackedAll(es) {
      WholeStream(es, k, Received(size, [], chunks));
    }
  }

  lemma WholeStream(es: seq<Event>, k: nat, r: Reading<seq<byte>>)
    requires Splits(PackedAll(es), es, k, r)
    ensures r == Reading(es, [])
  {
    hide Packed;
    PackedAllSplits(es, k);
    assert r.left == PackedAll(es[k..]);
    assert k == |es| && es[..k] == es;
  }

  // The bound on the frames is exact.

  function Singles(s: seq<byte>): seq<seq<byte>> {
    if s == [] then [] else [[s[0]]] + Singles(s[1..])
  }

  lemma {:induction false} SinglesFlatten(s: seq<byte>, last: seq<byte>)
    ensures Flatten(Singles(s) + [last]) == s + last
    ensures 1 <= |last| <= CHUNK ==> AreChunks(Singles(s) + [last])
  {
    var chunks := Singles(s) + [last];
    if s == [] {
      assert chunks == [last] && chunks[1..] == [];
    } else {
      SinglesFlatten(s[1..], last);
      assert chunks[1..] == Singles(s[1..]) + [last];
    }
  }

  /** A beginning of a frame that comes byte by byte stays in the buffer. */
  lemma {:induction false} SinglesAreKept(size: nat, c: seq<byte>, s: seq<byte>, e: Event, last: seq<byte>)
    requires FrameLength(e) <= MAX_FRAME && c + s < Packed(e)
    requires NeverRefused(size, c, Singles(s) + [last])
    ensures |c| + |s| + |last| <= size
    decreases s
  {
    hide Packed;
    var chunks := Singles(s) + [last];
    if s != [] {
      var c1 := c + [s[0]];
      assert chunks[0] == [s[0]] && chunks[1..] == Singles(s[1..]) + [last];
      assert c1 + s[1..] == c + s;
      PrefixIsIncomplete(e, c1);
      SinglesAreKept(size, c1, s[1..], e, last);
    }
  }

  lemma TwoFrames(e: Event)
    ensures PackedAll([e, e]) == Packed(e) + Packed(e)
  {
    hide Packed;
    PackedAllSplits([e, e], 1);
    assert [e, e][..1] == [e] && [e, e][1..] == [e] && [e][1..] == [];
    assert PackedAll([e]) == Packed(e) + [];
  }

  /** The longest beginning of a frame that the bound allows, byte by byte, and then a full chunk. */
  lemma TooLongOverflows(size: nat) returns (es: seq<Event>, chunks: seq<seq<byte>>)
    requires 2 * CHUNK <= size && size - CHUNK + 2 <= MAX_FRAME
    ensures AllSendable(es, size - CHUNK + 2) && AreChunks(chunks)
    ensures Flatten(chunks) <= PackedAll(es) && !NeverRefused(size, [], chunks)
  {
    var bound := size - CHUNK + 2;
    var e := FrameOfLength(bound);
    es := [e, e];
    TwoFrames(e);
    var f := Packed(e);
    hide Packed, IsSendable, PackedAll, NeverRefused, Flatten, Singles;
    var s := f + f;
    var first, last := s[..bound - 1], s[bound - 1..size + 1];
    assert |last| == CHUNK && first == f[..bound - 1];
    chunks := Singles(first) + [last];
    SinglesFlatten(first, last);
    assert first + last == s[..size + 1];
    if NeverRefused(size, [], chunks) {
      assert [] + first == first;
      SinglesAreKept(size, [], first, e, last);
    }
  }

  lemma FrameOfLength(n: nat) returns (e: Event)
    requires MIN_FRAME <= n <= MAX_FRAME
    ensures IsSendable(e) && FrameLength(e) == n
  {
    assert AreItems([]) && EncodeAll([]) == [];
    e := Event(seq(n - 3, _ => 1), []);
  }

  ghost predicate NoLossUpTo(size: nat, bound: nat) {
    forall es: seq<Event>, chunks: seq<seq<byte>> ::
      AllSendable(es, bound) && AreChunks(chunks) && Flatten(chunks) <= PackedAll(es) ==> NeverRefused(size, [], chunks)
  }

  /**
   * Frames up to a bound never overflow the buffer exactly when a chunk still fits behind all but
   * the last of their bytes.
   */
  lemma BoundIsExact(size: nat, bound: nat)
    requires 2 * CHUNK <= size && bound <= MAX_FRAME
    ensures NoLossUpTo(size, bound) <==> bound <= size - CHUNK + 1
  {
    if bound <= size - CHUNK + 1 {
      forall es: seq<Event>, chunks: seq<seq<byte>>
        | AllSendable(es, bound) && AreChunks(chunks) && Flatten(chunks) <= PackedAll(es)
        ensures NeverRefused(size, [], chunks)
      {
        StreamReassembles(size, es, chunks);
      }
    } else {
      var es, chunks := TooLongOverflows(size);
      assert AllSendable(es, bound);
    }
  }

  // A frame with a bad packet, for both readings of the index.

  /** A byte is seen as it was put, or it is one behind the array. */
  lemma SeenAt(r: Ring, wraps: bool, beyond: Memory, k: nat)
    requires r.Valid() && k < |r.Contents()|
    ensures var p := PlaceOf(|r.cells|, r.start, k);
            r.Seen(wraps, beyond)[k] == if wraps || p < |r.cells| then r.Contents()[k] else beyond(p)
  {
  }

  /** Bytes that are put later do not change what is seen of those in front. */
  lemma SeenGrows(r: Ring, wraps: bool, beyond: Memory, s: seq<byte>)
    requires r.Valid() && |r.Contents()| + |s| < |r.cells|
    ensures r.Seen(wraps, beyond) <= r.Written(s).Seen(wraps, beyond)
  {
    var w := r.Written(s);
    hide Ring.Contents, Ring.Seen, Ring.Written, PlaceOf;
    forall k | 0 <= k < |r.Contents()| ensures w.Seen(wraps, beyond)[k] == r.Seen(wraps, beyond)[k] {
      SeenAt(r, wraps, beyond, k);
      SeenAt(w, wraps, beyond, k);
    }
  }

  lemma PuttingShowsMore(r: Ring, wraps: bool, beyond: Memory, chunk: seq<byte>)
    requires r.Valid()
    ensures r.Seen(wraps, beyond) <= PutRing(r, chunk).Seen(wraps, beyond)
  {
    hide Ring.Contents, Ring.Seen, Ring.Written;
    if Accepts(|r.cells| - 1, r.Contents(), chunk) {
      SeenGrows(r, wraps, beyond, chunk);
    }
  }

  lemma RejectedStays(r: Ring, wraps: bool, beyond: Memory, chunk: seq<byte>)
    requires r.Valid() && Extract(r.Seen(wraps, beyond)).Rejected?
    ensures var p := PutRing(r, chunk);
            Extract(p.Seen(wraps, beyond)).Rejected? && DrainedRing(p, wraps, beyond) == Reading([], p)
  {
    hide Extract, Ring.Contents, Ring.Seen, PutRing, DrainedRing;
    PuttingShowsMore(r, wraps, beyond, chunk);
    var p := PutRing(r, chunk);
    var before, after := r.Seen(wraps, beyond), p.Seen(wraps, beyond);
    assert after == before + after[|before|..];
    FoundStays(before, after[|before|..]);
    DrainRingStep(p, wraps, beyond);
  }

  /** A frame with a bad packet is never dropped: it stays in front, and no event comes out any more. */
  lemma {:induction false} RejectedBlocks(r: Ring, wraps: bool, chunks: seq<seq<byte>>, beyond: Memory)
    requires r.Valid() && Extract(r.Seen(wraps, beyond)).Rejected?
    ensures var d := ReceivedRing(r, wraps, chunks, beyond);
            && d.events == [] && d.left.start == r.start && r.Contents() <= d.left.Contents()
            && Extract(d.left.Seen(wraps, beyond)).Rejected?
    decreases |chunks|
  {
    hide Extract, DrainedRing, PutRing, Ring.Contents, Ring.Seen;
    if chunks != [] {
      RejectedStays(r, wraps, beyond, chunks[0]);
      RejectedBlocks(PutRing(r, chunks[0]), wraps, chunks[1..], beyond);
    }
  }

  /** Behind such a frame the buffer only fills up. */
  lemma {:induction false} RejectedFills(r: Ring, wraps: bool, chunks: seq<seq<byte>>, beyond: Memory)
    requires r.Valid() && Extract(r.Seen(wraps, beyond)).Rejected? && NeverRefusedRing(r, wraps, chunks, beyond)
    ensures |r.Contents()| + |Flatten(chunks)| < |r.cells|
    decreases |chunks|
  {
    hide Extract, DrainedRing, PutRing, Ring.Contents, Ring.Seen;
    if chunks != [] {
      RejectedStays(r, wraps, beyond, chunks[0]);
      RejectedFills(PutRing(r, chunks[0]), wraps, chunks[1..], beyond);
    }
  }
}
