/** Packets: the writers that append items to a byte array, and the validator that walks it. */
module Packets {
  import opened Bytes
  import opened Options
  import opened SocketHelp
  import opened Wire

  datatype WriteError =
    | WrongArray          // more than 65535 elements
    | EmptyObject         // an object without fields
    | TooManyFields       // the assertion on the number of fields

  /** The values that typed variables can hold, whether or not they can be written. */
  predicate IsTyped(v: Value)
    decreases v
  {
    match v
    case Scalar(t, n) => Fits(t, n)
    case Str(_) => true
    case Arr(t, ns) => forall n | n in ns :: Fits(t, n)
    case Obj(fields) => forall f | f in fields :: IsTyped(f)
  }

  /** A C string ends at its first NUL. */
  function CutAtNul(chars: seq<byte>): (r: seq<byte>)
    ensures 0 !in r && r <= chars
    ensures |r| < |chars| ==> chars[|r|] == 0
  {
    var e := FindNul(chars, 0);
    assert chars[0..e] == chars[..e];
    chars[..e]
  }

  /** The value that is left once every string has been cut at its first NUL. */
  function Stripped(v: Value): (r: Value)
    decreases v, 0
  {
    match v
    case Str(chars) => Str(CutAtNul(chars))
    case Obj(fields) => Obj(StrippedAll(fields))
    case _ => v
  }

  function StrippedAll(vs: seq<Value>): (r: seq<Value>)
    ensures |r| == |vs|
    decreases vs
  {
    if vs == [] then [] else [Stripped(vs[0])] + StrippedAll(vs[1..])
  }

  /** The first reason, in writing order, for which a value cannot be written. */
  function WriteErrorOf(v: Value): (e: Option<WriteError>)
    decreases v, 0
  {
    match v
    case Arr(_, ns) => if |ns| > MAX_ELEMENTS then Some(WrongArray) else None
    case Obj(fields) =>
      if |fields| > MAX_FIELDS then Some(TooManyFields)
      else if fields == [] then Some(EmptyObject)
      else FirstWriteError(fields)
    case _ => None
  }

  function FirstWriteError(vs: seq<Value>): (e: Option<WriteError>)
    decreases vs
  {
    if vs == [] then None
    else if WriteErrorOf(vs[0]).Some? then WriteErrorOf(vs[0])
    else FirstWriteError(vs[1..])
  }

  /** The bytes a write leaves behind, also when it fails on the way. */
  function Emitted(v: Value): (s: seq<byte>)
    requires IsTyped(v)
    decreases v, 0
  {
    match v
    case Scalar(_, _) => Encode(v)
    case Str(chars) => Encode(Str(CutAtNul(chars)))
    case Arr(t, ns) => if |ns| > MAX_ELEMENTS then [] else EncodeArr(t, ns)
    case Obj(fields) =>
      if |fields| > MAX_FIELDS || fields == [] then []
      else [OBJECT_TAG, |fields|] + EmittedAll(fields)
  }

  function EmittedAll(vs: seq<Value>): (s: seq<byte>)
    requires forall v | v in vs :: IsTyped(v)
    decreases vs
  {
    if vs == [] then []
    else if WriteErrorOf(vs[0]).Some? then Emitted(vs[0])
    else Emitted(vs[0]) + EmittedAll(vs[1..])
  }

  /** A write that succeeds appends the encoding of the value, with strings cut at their first NUL. */
  lemma {:induction false} WriteEncodes(v: Value)
    requires IsTyped(v) && WriteErrorOf(v).None?
    ensures IsItem(Stripped(v)) && Emitted(v) == Encode(Stripped(v))
    decreases v, 0
  {
    if v.Obj? {
      WriteAllEncodes(v.fields);
    }
  }

  lemma {:induction false} WriteAllEncodes(vs: seq<Value>)
    requires (forall v | v in vs :: IsTyped(v)) && FirstWriteError(vs).None?
    ensures AreItems(StrippedAll(vs)) && EmittedAll(vs) == EncodeAll(StrippedAll(vs))
    decreases vs
  {
    hide Encode, Emitted, IsTyped, IsItem;
    if vs != [] {
      WriteEncodes(vs[0]);
      WriteAllEncodes(vs[1..]);
      assert StrippedAll(vs)[1..] == StrippedAll(vs[1..]);
    }
  }

  /** A write that fails leaves nothing, or the beginning of an item without its end. */
  lemma {:induction false} FailedWriteTruncates(v: Value)
    requires IsTyped(v) && WriteErrorOf(v).Some?
    ensures Emitted(v) == [] || IsTruncated(Emitted(v))
    decreases v, 0
  {
    if v.Obj? && 0 < |v.fields| <= MAX_FIELDS {
      var ws := FailedWritesCutShort(v.fields);
      var header: seq<byte> := [OBJECT_TAG, |v.fields|];
      assert Encode(Obj(ws)) == header + EncodeAll(ws);
      assert CutsShort(Emitted(v), Encode(Obj(ws)));
    }
  }

  lemma {:induction false} FailedWritesCutShort(vs: seq<Value>) returns (ws: seq<Value>)
    requires (forall v | v in vs :: IsTyped(v)) && FirstWriteError(vs).Some?
    ensures |ws| == |vs| && AreItems(ws)
    ensures EmittedAll(vs) < EncodeAll(ws)
    decreases vs
  {
    hide Encode, Emitted, IsTyped, IsItem;
    var first, rest := vs[0], vs[1..];
    if WriteErrorOf(first).Some? {
      FailedWriteTruncates(first);
      var filler := Fillers(|rest|);
      var p := Emitted(first);
      if p == [] {
        ws := Fillers(|vs|);
      } else {
        var w :| IsItem(w) && CutsShort(p, Encode(w));
        ws := [w] + filler;
        assert ws[0] == w && ws[1..] == filler;
      }
    } else {
      WriteEncodes(first);
      var tail := FailedWritesCutShort(rest);
      ws := [Stripped(first)] + tail;
      assert ws[1..] == tail;
    }
  }

  lemma Fillers(n: nat) returns (ws: seq<Value>)
    ensures |ws| == n && AreItems(ws)
  {
    ws := seq(n, i => Str([]));
  }

  /** Nobody downstream mistakes what a failed write left behind for a packet. */
  lemma FailedWriteIsRejected(before: seq<Value>, v: Value)
    requires AreItems(before) && IsTyped(v) && WriteErrorOf(v).Some? && Emitted(v) != []
    ensures !IsEncoding(EncodeAll(before) + Emitted(v))
  {
    FailedWriteTruncates(v);
    TruncatedTailRejected(before, Emitted(v));
  }

  /** How far past a packet of this size the validator's index can get, from an item that starts at i. */
  function Reach(size: nat, i: nat): nat {
    if i < size then size + 524_290 + 2295 * (size - i) else i + 8
  }

  class Packet {
    const order: ByteOrder
    const data: ByteArray

    constructor (order: ByteOrder)
      ensures this.order == order && fresh(data) && data.bytes == []
    {
      this.order := order;
      data := new ByteArray();
    }

    // ---------------------------------------------------------------------------
    // Writers
    // ---------------------------------------------------------------------------

    method PushNumber(t: ScalarType, n: int)
      requires Fits(t, n)
      modifies data
      ensures data.bytes == old(data.bytes) + EncodeNumber(t, n)
    {
      var p := PatternOf(t, n);
      match Width(t) {
        case 1 => Push8(data, p);
        case 2 => Push16(order, data, p);
        case 4 => Push32(order, data, p);
        case 8 => Push64(order, data, p);
      }
    }

    method WriteScalar(t: ScalarType, n: int)
      requires Fits(t, n)
      modifies data
      ensures data.bytes == old(data.bytes) + Encode(Scalar(t, n))
    {
      data.PushBack(TagOf(t));
      PushNumber(t, n);
    }

    method WriteString(dt: seq<byte>)
      modifies data
      ensures data.bytes == old(data.bytes) + Encode(Str(CutAtNul(dt)))
    {
      data.PushBack(STRING_TAG);
      var i := 0;
      while i < |dt| && dt[i] != 0
        invariant i <= |dt| && 0 !in dt[0..i]
        invariant data.bytes == old(data.bytes) + [STRING_TAG] + dt[..i]
      {
        data.PushBack(dt[i]);
        assert dt[0..i + 1] == dt[0..i] + [dt[i]];
        i := i + 1;
      }
      data.PushBack(0);
      if i < |dt| {
        FindNulUnique(dt, 0, i);
      } else {
        assert FindNul(dt, 0) == |dt|;
      }
      assert CutAtNul(dt) == dt[..i];
    }

    method PushNumbers(t: ScalarType, ns: seq<int>)
      requires forall n | n in ns :: Fits(t, n)
      modifies data
      ensures data.bytes == old(data.bytes) + EncodeNumbers(t, ns)
    {
      hide Fits, EncodeNumber;
      var i := 0;
      while i < |ns|
        invariant i <= |ns|
        invariant data.bytes + EncodeNumbers(t, ns[i..]) == old(data.bytes) + EncodeNumbers(t, ns)
      {
        PushNumber(t, ns[i]);
        assert ns[i..][1..] == ns[i + 1..];
        i := i + 1;
      }
    }

    method WriteArray(t: ScalarType, ns: seq<int>) returns (e: Option<WriteError>)
      requires forall n | n in ns :: Fits(t, n)
      modifies data
      ensures e == WriteErrorOf(Arr(t, ns))
      ensures data.bytes == old(data.bytes) + Emitted(Arr(t, ns))
    {
      if |ns| > MAX_ELEMENTS {
        return Some(WrongArray);
      }
      data.PushBack(ARRAY_FLAG + TagOf(t));
      Pow256Values();
      Push16(order, data, |ns|);
      hide *;
      PushNumbers(t, ns);
      return None;
    }

    method WriteObjectHeader(length: nat) returns (e: Option<WriteError>)
      modifies data
      ensures e == if length > MAX_FIELDS then Some(TooManyFields)
                   else if length == 0 then Some(EmptyObject) else None
      ensures data.bytes == old(data.bytes) + if e.None? then [OBJECT_TAG, length] else []
    {
      if length > MAX_FIELDS {
        return Some(TooManyFields);
      }
      if length == 0 {
        return Some(EmptyObject);
      }
      data.PushBack(OBJECT_TAG);
      data.PushBack(length);
      return None;
    }

    method WriteAsObject(args: seq<Value>) returns (e: Option<WriteError>)
      requires forall v | v in args :: IsTyped(v)
      modifies data
      ensures e == WriteErrorOf(Obj(args))
      ensures data.bytes == old(data.bytes) + Emitted(Obj(args))
      decreases args, 1
    {
      hide EmittedAll, FirstWriteError;
      e := WriteObjectHeader(|args|);
      if e.Some? {
        return;
      }
      e := WriteToPacket(args);
    }

    method WriteToPacket(args: seq<Value>) returns (e: Option<WriteError>)
      requires forall v | v in args :: IsTyped(v)
      modifies data
      ensures e == FirstWriteError(args)
      ensures data.bytes == old(data.bytes) + EmittedAll(args)
      decreases args, 0
    {
      hide Emitted, WriteErrorOf, IsTyped;
      if args == [] {
        return None;
      }
      e := Write(args[0]);
      if e.Some? {
        return;
      }
      e := WriteToPacket(args[1..]);
    }

    method Write(v: Value) returns (e: Option<WriteError>)
      requires IsTyped(v)
      modifies data
      ensures e == WriteErrorOf(v)
      ensures data.bytes == old(data.bytes) + Emitted(v)
      decreases v
    {
      match v {
        case Scalar(t, n) => WriteScalar(t, n); e := None;
        case Str(chars) => WriteString(chars); e := None;
        case Arr(t, ns) => e := WriteArray(t, ns);
        case Obj(fields) => e := WriteAsObject(fields);
      }
    }

    // ---------------------------------------------------------------------------
    // Validation
    // ---------------------------------------------------------------------------

    /** What is found at an index: past the end, whatever the memory there holds. */
    function At(i: nat, beyond: Memory): byte
      reads data
    {
      if i < |data.bytes| then data.bytes[i] else beyond(i)
    }

    method ValidString(size: nat, i: nat, beyond: Memory) returns (ok: bool, last: nat)
      requires size == |data.bytes|
      ensures ok ==> last > i
      ensures last <= if i < size then size else i + 1
      ensures i < size ==> (ok && last < size <==> ParseStr(data.bytes, i).Item?)
      ensures i < size && ok && last < size ==> last + 1 == ParseStr(data.bytes, i).next
    {
      ghost var s := data.bytes;
      last := i + 1;
      while At(last, beyond) != 0 && last < size
        invariant i < last && (last <= size || last == i + 1)
        invariant last <= size ==> 0 !in s[i + 1..last]
        decreases size - last
      {
        assert s[i + 1..last + 1] == s[i + 1..last] + [s[last]];
        last := last + 1;
      }
      if last < size {
        FindNulUnique(s, i + 1, last);
      }
      ok := last != size;
    }

    method ValidArray(size: nat, i: nat, t: ScalarType) returns (ok: bool, last: nat)
      requires size == |data.bytes|
      ensures ok ==> i < size && i < last <= size + 524_290
      ensures i < size ==> (ok && last < size <==> ParseArr(data.bytes, i, t).Item?)
      ensures i < size && ok && last < size ==> last + 1 == ParseArr(data.bytes, i, t).next
    {
      last := i + 1;
      if last + 2 > size {
        return false, last;
      }
      var length := Front16(order, last, data);
      ArraySize(data.bytes[last..last + 2], length, t);
      hide Pow256, BigEndian, FromBigEndian, ParseNumbers, Span;
      last := last + 2 + Span(t, length) - 1;
      ok := true;
    }

    method ValidObject(size: nat, i: nat, beyond: Memory) returns (ok: bool, last: nat)
      requires size == |data.bytes| && (i < size ==> data.bytes[i] == OBJECT_TAG)
      ensures ok ==> i < last <= Reach(size, i)
      ensures i < size ==> (ok && last < size <==> ParseItem(data.bytes, i).Item?)
      ensures i < size && ok && last < size ==> last + 1 == ParseItem(data.bytes, i).next
      decreases if i < size then size - i else 0, 0
    {
      ghost var s := data.bytes;
      last := i + 1;
      if last + 1 > size {
        return false, last;
      }
      ObjectEndsWithFields(s, i);
      hide *;
      var length: nat := data.bytes[last];
      last := last + 1;
      ghost var fields := ParseItems(s, last, length);
      assert ChildrenLeft(s, fields, last, length) && last <= Reach(size, i + 1) + 1 by {
        ReachStart(size, i);
        ChildrenStart(s, last, length);
      }
      var j: nat := 0;
      while j < length
        invariant j <= length
        invariant i + 2 <= last <= Reach(size, i + 1) + 1 + 9 * j
        invariant ChildrenLeft(s, fields, last, length - j)
      {
        ghost var child := last;
        ok, last := ValidNextItem(size, last, beyond);
        ChildrenStep(s, fields, child, length - j, ok, last);
        if !ok {
          return;
        }
        ReachStep(size, i, child, j, last);
        last := last + 1;
        j := j + 1;
      }
      ReachEnd(size, i, last);
      ChildrenEnd(s, fields, last);
      last := last - 1;
      ok := true;
    }

    /**
     * Tries to step over the item at i, and stops on its last byte. An item may run past the end: the
     * walk goes on, and the verdict is left to the caller. The index does not wrap round its 32 bits
     * for any packet that fits in a frame.
     */
    method ValidNextItem(size: nat, i: nat, beyond: Memory) returns (ok: bool, last: nat)
      requires size == |data.bytes|
      ensures ok ==> i < last <= Reach(size, i)
      ensures ok && i < size <= 65535 ==> last + 1 < 0x1_0000_0000
      ensures i < size ==> (ok && last < size <==> ParseItem(data.bytes, i).Item?)
      ensures i < size && ok && last < size ==> last + 1 == ParseItem(data.bytes, i).next
      decreases if i < size then size - i else 0, 1
    {
      hide ParseStr, ParseArr, ParseItems;
      var tag := At(i, beyond);
      if tag == STRING_TAG {
        ok, last := ValidString(size, i, beyond);
      } else if tag == OBJECT_TAG {
        ok, last := ValidObject(size, i, beyond);
      } else if ScalarOfTag(tag).Some? {
        last := i + Width(ScalarOfTag(tag).value);
        ok := true;
      } else if ArrayOfTag(tag).Some? {
        ok, last := ValidArray(size, i, ArrayOfTag(tag).value);
      } else {
        ok, last := false, i;
      }
    }

    /** True exactly when the bytes are the encoding of some list of values. */
    method IsValid(beyond: Memory) returns (ok: bool)
      ensures ok <==> IsEncoding(data.bytes)
    {
      hide ParseItem;
      var size := |data.bytes|;
      IsEncodingIffParses(data.bytes);
      var i := 0;
      while i < size
        invariant i <= size ==> (ParseAll(data.bytes, 0).Some? <==> ParseAll(data.bytes, i).Some?)
        invariant i > size ==> ParseAll(data.bytes, 0).None?
      {
        var valid;
        valid, i := ValidNextItem(size, i, beyond);
        if !valid {
          return false;
        }
        i := i + 1;
      }
      ok := i == size;
    }
  }

  /** What is left to read of an object's fields, when the validator stands at i with n children to go. */
  ghost predicate ChildrenLeft(s: seq<byte>, fields: ParsedList, i: nat, n: nat) {
    if i > |s| then fields.NoItems?
    else
      var left := ParseItems(s, i, n);
      (fields.Items? <==> left.Items?) && (fields.Items? ==> fields.next == left.next)
  }

  lemma ArraySize(s: seq<byte>, length: nat, t: ScalarType)
    requires length < Pow256(2) && s == BigEndian(2, length)
    ensures FromBigEndian(s) == length && Span(t, length) <= 524_280
  {
    FromBigEndianInverts(2, length);
    Pow256Values();
    hide *;
    SpanBound(t, length);
  }

  lemma {:induction false} SpanBound(t: ScalarType, n: nat)
    ensures Span(t, n) <= 8 * n
  {
    if n > 0 {
      SpanBound(t, n - 1);
    }
  }

  lemma ObjectEndsWithFields(s: seq<byte>, i: nat)
    requires i + 2 <= |s| && s[i] == OBJECT_TAG
    ensures var fields := ParseItems(s, i + 2, s[i + 1]);
            && (ParseItem(s, i).Item? <==> fields.Items?)
            && (fields.Items? ==> ParseItem(s, i).next == fields.next)
  {
  }

  lemma ChildrenStart(s: seq<byte>, i: nat, n: nat)
    requires i <= |s|
    ensures ChildrenLeft(s, ParseItems(s, i, n), i, n)
  {
  }

  lemma ChildrenStep(s: seq<byte>, fields: ParsedList, i: nat, n: nat, ok: bool, last: nat)
    requires n > 0 && ChildrenLeft(s, fields, i, n) && (ok ==> i < last)
    requires i < |s| ==> (ok && last < |s| <==> ParseItem(s, i).Item?)
    requires i < |s| && ok && last < |s| ==> last + 1 == ParseItem(s, i).next
    ensures if ok then ChildrenLeft(s, fields, last + 1, n - 1) else fields.NoItems?
  {
    assert i == |s| ==> ParseItem(s, i).NoItem?;
    hide ParseItem;
  }

  lemma ChildrenEnd(s: seq<byte>, fields: ParsedList, i: nat)
    requires ChildrenLeft(s, fields, i, 0)
    ensures fields.Items? <==> i <= |s|
    ensures fields.Items? ==> fields.next == i
  {
  }

  lemma ReachStart(size: nat, i: nat)
    requires i + 2 <= size
    ensures i + 2 <= Reach(size, i + 1) + 1
  {
  }

  lemma ReachStep(size: nat, i: nat, child: nat, j: nat, last: nat)
    requires i + 2 <= child <= Reach(size, i + 1) + 1 + 9 * j && last <= Reach(size, child)
    ensures last + 1 <= Reach(size, i + 1) + 1 + 9 * (j + 1)
  {
  }

  lemma ReachEnd(size: nat, i: nat, last: nat)
    requires i + 2 <= size && last <= Reach(size, i + 1) + 1 + 9 * MAX_FIELDS
    ensures last - 1 <= Reach(size, i)
  {
  }
}
