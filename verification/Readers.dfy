/** The typed reader of a packet. */
module Readers {
  import opened Bytes
  import opened Options
  import opened SocketHelp
  import opened Wire
  import opened Packets

  /** The type of a variable that is read into. */
  datatype Shape =
    | ScalarShape(kind: ScalarType)
    | CharShape
    | StrShape
    | ArrShape(kind: ScalarType)
    | CharArrShape
    | ObjShape(fields: seq<Shape>)

  /** Expected carries the tag that was found: the reader names its exceptions after that one. */
  datatype ReadError = Expected(tag: byte) | Unknown | EmptyObjectRead | WrongSizedObject

  datatype ReadResult = Ended | Got(value: Value) | Thrown(error: ReadError)

  /** The variables that were assigned, and why reading stopped early if it did. */
  datatype ReadList = GotAll(values: seq<Value>) | Stopped(values: seq<Value>, error: ReadError)

  function ExceptionByType(tag: byte): ReadError {
    if tag in {STRING_TAG, OBJECT_TAG} || ScalarOfTag(tag).Some? || ArrayOfTag(tag).Some?
    then Expected(tag) else Unknown
  }

  /** A byte read as a char: the bit pattern is kept. */
  function AsChar(t: ScalarType, n: int): (c: int)
    requires Width(t) == 1 && Fits(t, n)
    ensures Fits(Int8, c) && PatternOf(Int8, c) == PatternOf(t, n)
  {
    NumberOf(Int8, PatternOf(t, n))
  }

  function AsChars(t: ScalarType, ns: seq<int>): (cs: seq<int>)
    requires Width(t) == 1 && forall n | n in ns :: Fits(t, n)
    ensures |cs| == |ns|
  {
    if ns == [] then [] else [AsChar(t, ns[0])] + AsChars(t, ns[1..])
  }

  /** What a variable of some shape receives from an item. */
  function Reading(shape: Shape, v: Value): (r: ReadResult)
    requires IsItem(v)
    ensures !r.Ended?
    decreases shape, 0
  {
    match shape
    case ScalarShape(t) => if v.Scalar? && v.kind == t then Got(v) else Thrown(Expected(ItemTag(v)))
    case CharShape =>
      if v.Scalar? && Width(v.kind) == 1 then Got(Scalar(Int8, AsChar(v.kind, v.number)))
      else Thrown(Expected(ItemTag(v)))
    case StrShape => if v.Str? then Got(v) else Thrown(Expected(ItemTag(v)))
    case ArrShape(t) => if v.Arr? && v.kind == t then Got(v) else Thrown(Expected(ItemTag(v)))
    case CharArrShape =>
      if v.Arr? && Width(v.kind) == 1 then Got(Arr(Int8, AsChars(v.kind, v.numbers)))
      else Thrown(Expected(ItemTag(v)))
    case ObjShape(fields) =>
      if !v.Obj? then Thrown(Expected(OBJECT_TAG))
      else if v.fields == [] then Thrown(EmptyObjectRead)
      else if |v.fields| != |fields| then Thrown(WrongSizedObject)
      else
        match ReadingAll(fields, v.fields)
        case GotAll(values) => Got(Obj(values))
        case Stopped(_, e) => Thrown(e)
  }

  /** Variables and items are paired until either runs out, or one does not fit. */
  function ReadingAll(shapes: seq<Shape>, vs: seq<Value>): (r: ReadList)
    requires AreItems(vs)
    ensures r.GotAll? ==> |r.values| == if |vs| < |shapes| then |vs| else |shapes|
    decreases shapes
  {
    if shapes == [] || vs == [] then GotAll([])
    else
      match Reading(shapes[0], vs[0])
      case Thrown(e) => Stopped([], e)
      case Got(v) =>
        match ReadingAll(shapes[1..], vs[1..])
        case GotAll(values) => GotAll([v] + values)
        case Stopped(values, e) => Stopped([v] + values, e)
  }

  function ShapeOf(v: Value): Shape
    decreases v, 0
  {
    match v
    case Scalar(t, _) => ScalarShape(t)
    case Str(_) => StrShape
    case Arr(t, _) => ArrShape(t)
    case Obj(fields) => ObjShape(ShapesOf(fields))
  }

  function ShapesOf(vs: seq<Value>): (r: seq<Shape>)
    ensures |r| == |vs|
    decreases vs
  {
    if vs == [] then [] else [ShapeOf(vs[0])] + ShapesOf(vs[1..])
  }

  // ---------------------------------------------------------------------------
  // Reading from bytes
  // ---------------------------------------------------------------------------

  /**
   * What reading at i gives, and where it leaves the index: unmoved, unless a value came out.
   * At the end of the packet an object is missed, and any other variable is left alone.
   */
  function ReadingAt(s: seq<byte>, i: nat, shape: Shape): (ReadResult, nat)
    requires i < |s| ==> ParseItem(s, i).Item?
  {
    if i >= |s| then (if shape.ObjShape? then Thrown(Expected(OBJECT_TAG)) else Ended, i)
    else
      var item := ParseItem(s, i);
      ParseItemSound(s, i);
      var r := Reading(shape, item.value);
      (r, if r.Got? then item.next else i)
  }

  /** At the end of a packet nothing is read, and only for an object that is an error. */
  lemma NothingIsReadAtEnd(s: seq<byte>, i: nat, shape: Shape)
    requires i >= |s|
    ensures ReadingAt(s, i, shape) == (if shape.ObjShape? then Thrown(Expected(0x40)) else Ended, i)
  {
    assert OBJECT_TAG == 0x40;
  }

  /** The exception for a type: one for each tag of the format, and one for all other bytes. */
  lemma ExceptionsAreNamed(tag: byte)
    ensures ExceptionByType(tag) ==
            if 0x01 <= tag <= 0x08 || 0x81 <= tag <= 0x88 || tag in {0x10, 0x11, 0x20, 0x40, 0x90, 0x91}
            then Expected(tag) else Unknown
  {
  }

  /** A byte read as a char is negative from 128 on. */
  lemma CharsAreSigned(n: int)
    requires -128 <= n < 256
    ensures n < 128 ==> AsChar(Int8, n) == n
    ensures n >= 0 ==> AsChar(UInt8, n) == if n < 128 then n else n - 256
  {
  }

  /** Items stand at i, n of them or as many as there are. */
  predicate Readable(s: seq<byte>, i: nat, n: nat)
    decreases n
  {
    n == 0 || i >= |s| || (ParseItem(s, i).Item? && Readable(s, ParseItem(s, i).next, n - 1))
  }

  function ReadingAllAt(s: seq<byte>, i: nat, shapes: seq<Shape>): (ReadList, nat)
    requires Readable(s, i, |shapes|)
    decreases shapes
  {
    if shapes == [] then (GotAll([]), i)
    else
      match ReadingAt(s, i, shapes[0])
      case (Ended, _) => ReadingAllAt(s, i, shapes[1..])
      case (Thrown(e), _) => (Stopped([], e), i)
      case (Got(v), next) =>
        match ReadingAllAt(s, next, shapes[1..])
        case (GotAll(values), end) => (GotAll([v] + values), end)
        case (Stopped(values, e), end) => (Stopped([v] + values, e), end)
  }

  lemma {:induction false} ItemsAreReadable(s: seq<byte>, i: nat, n: nat)
    requires i <= |s| && ParseItems(s, i, n).Items?
    ensures Readable(s, i, n)
    decreases n
  {
    hide ParseItem;
    if n > 0 {
      ItemsAreReadable(s, ParseItem(s, i).next, n - 1);
    }
  }

  lemma {:induction false} AllIsReadable(s: seq<byte>, i: nat, n: nat)
    requires i <= |s| && ParseAll(s, i).Some?
    ensures Readable(s, i, n)
    decreases n
  {
    hide ParseItem;
    if n > 0 && i < |s| {
      AllIsReadable(s, ParseItem(s, i).next, n - 1);
    }
  }

  /** The fields of an object are read one for one, and a complete reading ends where they end. */
  lemma {:induction false} ReadingFields(s: seq<byte>, i: nat, shapes: seq<Shape>)
    requires i <= |s| && ParseItems(s, i, |shapes|).Items?
    ensures Readable(s, i, |shapes|)
    ensures var items := ParseItems(s, i, |shapes|);
            && AreItems(items.values)
            && ReadingAllAt(s, i, shapes).0 == ReadingAll(shapes, items.values)
            && (ReadingAllAt(s, i, shapes).0.GotAll? ==> ReadingAllAt(s, i, shapes).1 == items.next)
    decreases shapes
  {
    ItemsAreReadable(s, i, |shapes|);
    ParseItemsSound(s, i, |shapes|);
    if shapes != [] {
      if i == |s| {
        NothingAtEnd(s, i);
      }
      hide ParseItem, Reading;
      var item, items := ParseItem(s, i), ParseItems(s, i, |shapes|);
      ParseItemSound(s, i);
      assert items.values[0] == item.value;
      assert items.values[1..] == ParseItems(s, item.next, |shapes| - 1).values;
      ReadingFields(s, item.next, shapes[1..]);
    }
  }

  lemma NothingAtEnd(s: seq<byte>, i: nat)
    requires i == |s|
    ensures ParseItem(s, i).NoItem?
  {
  }

  /** Variables of the right types receive exactly the value that was written. */
  lemma {:induction false} OwnShapeReads(v: Value)
    requires IsItem(v) && WriteErrorOf(v).None?
    ensures Reading(ShapeOf(v), v) == Got(v)
    decreases v, 0
  {
    if v.Obj? {
      OwnShapesRead(v.fields);
    }
  }

  lemma {:induction false} OwnShapesRead(vs: seq<Value>)
    requires AreItems(vs) && FirstWriteError(vs).None?
    ensures ReadingAll(ShapesOf(vs), vs) == GotAll(vs)
    decreases vs
  {
    hide Reading, ShapeOf, IsItem, WriteErrorOf;
    if vs != [] {
      var first, rest, shapes := vs[0], vs[1..], ShapesOf(vs);
      OwnShapeReads(first);
      OwnShapesRead(rest);
      assert shapes[0] == ShapeOf(first) && shapes[1..] == ShapesOf(rest);
      assert vs == [first] + rest;
    }
  }

  lemma {:induction false} StrippedStaysWritable(v: Value)
    requires WriteErrorOf(v).None?
    ensures WriteErrorOf(Stripped(v)).None? && ShapeOf(Stripped(v)) == ShapeOf(v)
    decreases v, 0
  {
    if v.Obj? {
      StrippedAllStayWritable(v.fields);
    }
  }

  lemma {:induction false} StrippedAllStayWritable(vs: seq<Value>)
    requires FirstWriteError(vs).None?
    ensures FirstWriteError(StrippedAll(vs)).None? && ShapesOf(StrippedAll(vs)) == ShapesOf(vs)
    decreases vs
  {
    hide WriteErrorOf, Stripped, ShapeOf;
    if vs != [] {
      StrippedStaysWritable(vs[0]);
      StrippedAllStayWritable(vs[1..]);
      assert StrippedAll(vs)[1..] == StrippedAll(vs[1..]);
    }
  }

  /** Without NULs in its strings, nothing is cut from a value. */
  lemma {:induction false} ItemsAreNotStripped(v: Value)
    requires IsItem(v)
    ensures Stripped(v) == v
    decreases v, 0
  {
    if v.Obj? {
      AllItemsAreNotStripped(v.fields);
    }
  }

  lemma {:induction false} AllItemsAreNotStripped(vs: seq<Value>)
    requires AreItems(vs)
    ensures StrippedAll(vs) == vs
    decreases vs
  {
    hide IsItem;
    if vs != [] {
      ItemsAreNotStripped(vs[0]);
      AllItemsAreNotStripped(vs[1..]);
    }
  }

  /**
   * Writing a value and reading it back with variables of the same types returns it, with strings
   * cut at their first NUL, and moves the reader exactly over it, whatever stands before and after.
   */
  lemma {:induction false} WriteReadRoundTrip(before: seq<byte>, v: Value, after: seq<byte>)
    requires IsTyped(v) && WriteErrorOf(v).None?
    ensures var s := before + Emitted(v) + after;
            && ParseItem(s, |before|) == Item(Stripped(v), |before| + |Emitted(v)|)
            && ReadingAt(s, |before|, ShapeOf(v)) == (Got(Stripped(v)), |before| + |Emitted(v)|)
            && (IsItem(v) ==> Stripped(v) == v)
  {
    WriteEncodes(v);
    StrippedStaysWritable(v);
    StandsInside(before, Emitted(v), after);
    ReadsWhereItStands(before + Emitted(v) + after, |before|, Stripped(v));
    hide *;
    if IsItem(v) {
      ItemsAreNotStripped(v);
    }
  }

  lemma ReadsWhereItStands(s: seq<byte>, i: nat, v: Value)
    requires IsItem(v) && WriteErrorOf(v).None? && StandsAt(s, i, Encode(v))
    ensures ParseItem(s, i) == Item(v, i + |Encode(v)|)
    ensures ReadingAt(s, i, ShapeOf(v)) == (Got(v), i + |Encode(v)|)
  {
    ParseItemComplete(s, i, v);
    OwnShapeReads(v);
    hide ParseItem, Encode, Reading, ShapeOf, IsItem, WriteErrorOf;
  }

  lemma StandsInside(before: seq<byte>, e: seq<byte>, after: seq<byte>)
    ensures StandsAt(before + e + after, |before|, e)
  {
  }

  /** In a good packet the reader goes from one item to the next, or stays where it is. */
  lemma ReadingStaysOnItems(s: seq<byte>, i: nat, shape: Shape)
    requires i <= |s| && ParseAll(s, i).Some?
    ensures var (r, j) := ReadingAt(s, i, shape);
            && i <= j <= |s| && ParseAll(s, j).Some?
            && (r.Got? ==> ParseAll(s, i).value == [ParseItem(s, i).value] + ParseAll(s, j).value)
            && (!r.Got? ==> j == i)
  {
    hide ParseItem, Reading;
  }

  // ---------------------------------------------------------------------------
  // The reader
  // ---------------------------------------------------------------------------

  class PacketReader {
    const packet: Packet
    var idx: nat

    constructor (packet: Packet)
      ensures this.packet == packet && idx == 0
    {
      this.packet := packet;
      idx := 0;
    }

    constructor Copy(reader: PacketReader)
      ensures packet == reader.packet && idx == reader.idx
    {
      packet := reader.packet;
      idx := reader.idx;
    }

    /** There is something left to read. */
    predicate More()
      reads this, packet.data
    {
      idx < |packet.data.bytes|
    }

    function NextType(): byte
      reads this, packet.data
    {
      if More() then packet.data.bytes[idx] else 0
    }

    /** The packet is not corrupted where the reader stands. */
    ghost predicate AtItem()
      reads this, packet.data
    {
      More() ==> ParseItem(packet.data.bytes, idx).Item?
    }

    method FrontNumber(t: ScalarType) returns (n: int)
      requires idx + Width(t) <= |packet.data.bytes|
      ensures n == NumberOf(t, FromBigEndian(packet.data.bytes[idx..idx + Width(t)]))
    {
      hide Pow256, BigEndian, FromBigEndian, NumberOf;
      var p;
      match Width(t) {
        case 1 => p := Front8(idx, packet.data);
        case 2 => p := Front16(packet.order, idx, packet.data);
        case 4 => p := Front32(packet.order, idx, packet.data);
        case 8 => p := Front64(packet.order, idx, packet.data);
      }
      FromBigEndianInverts(Width(t), p);
      n := NumberOf(t, p);
    }

    method ReadScalar(t: ScalarType) returns (r: ReadResult)
      requires AtItem()
      modifies this
      ensures (r, idx) == old(ReadingAt(packet.data.bytes, idx, ScalarShape(t)))
    {
      if !More() {
        return Ended;
      }
      ScalarReading(packet.data.bytes, idx, t);
      hide Pow256, BigEndian, FromBigEndian, NumberOf, ReadingAt, ExceptionByType;
      var tag := packet.data.bytes[idx];
      if tag != TagOf(t) {
        return Thrown(ExceptionByType(tag));
      }
      idx := idx + 1;
      var n := FrontNumber(t);
      idx := idx + Width(t);
      r := Got(Scalar(t, n));
    }

    method ReadChar() returns (r: ReadResult)
      requires AtItem()
      modifies this
      ensures (r, idx) == old(ReadingAt(packet.data.bytes, idx, CharShape))
    {
      if !More() {
        return Ended;
      }
      CharReading(packet.data.bytes, idx);
      hide Pow256, BigEndian, FromBigEndian, NumberOf, ReadingAt, ExceptionByType;
      var tag := packet.data.bytes[idx];
      if tag != TagOf(Int8) && tag != TagOf(UInt8) {
        return Thrown(ExceptionByType(tag));
      }
      idx := idx + 1;
      var n := FrontNumber(Int8);
      idx := idx + 1;
      r := Got(Scalar(Int8, n));
    }

    method ReadString() returns (r: ReadResult)
      requires AtItem()
      modifies this
      ensures (r, idx) == old(ReadingAt(packet.data.bytes, idx, StrShape))
    {
      if !More() {
        return Ended;
      }
      ghost var s, start := packet.data.bytes, idx;
      StrReading(s, idx);
      hide ReadingAt, ExceptionByType, FindNul;
      var tag := packet.data.bytes[idx];
      if tag != STRING_TAG {
        return Thrown(ExceptionByType(tag));
      }
      idx := idx + 1;
      var out := [];
      while packet.data.bytes[idx] != 0
        invariant start + 1 <= idx <= FindNul(s, start + 1) < |s|
        invariant out == s[start + 1..idx] && 0 !in out
        decreases |s| - idx
      {
        out := out + [packet.data.bytes[idx]];
        idx := idx + 1;
      }
      FindNulUnique(s, start + 1, idx);
      idx := idx + 1;
      r := Got(Str(out));
    }

    method ReadArray(t: ScalarType) returns (r: ReadResult)
      requires AtItem()
      modifies this
      ensures (r, idx) == old(ReadingAt(packet.data.bytes, idx, ArrShape(t)))
    {
      if !More() {
        return Ended;
      }
      ArrReading(packet.data.bytes, idx, t);
      hide ParseArr, ReadingAt, ExceptionByType;
      var tag := packet.data.bytes[idx];
      if tag != ARRAY_FLAG + TagOf(t) {
        return Thrown(ExceptionByType(tag));
      }
      r := ReadElements(t);
    }

    method ReadCharArray() returns (r: ReadResult)
      requires AtItem()
      modifies this
      ensures (r, idx) == old(ReadingAt(packet.data.bytes, idx, CharArrShape))
    {
      if !More() {
        return Ended;
      }
      CharArrReading(packet.data.bytes, idx);
      hide ParseArr, ReadingAt, ExceptionByType;
      var tag := packet.data.bytes[idx];
      if tag != ARRAY_FLAG + TagOf(Int8) && tag != ARRAY_FLAG + TagOf(UInt8) {
        return Thrown(ExceptionByType(tag));
      }
      r := ReadElements(Int8);
    }

    /** Reads the length and the elements that follow the tag of an array. */
    method ReadElements(t: ScalarType) returns (r: ReadResult)
      requires More() && ParseArr(packet.data.bytes, idx, t).Item?
      modifies this
      ensures r == Got(ParseArr(packet.data.bytes, old(idx), t).value)
      ensures idx == ParseArr(packet.data.bytes, old(idx), t).next
    {
      hide Pow256, BigEndian, FromBigEndian, ParseNumbers, Span;
      idx := idx + 1;
      var length := Front16(packet.order, idx, packet.data);
      FromBigEndianInverts(2, length);
      idx := idx + 2;
      var ns := ReadNumbers(t, length);
      r := Got(Arr(t, ns));
    }

    method ReadNumbers(t: ScalarType, length: nat) returns (ns: seq<int>)
      requires idx + Span(t, length) <= |packet.data.bytes|
      modifies this
      ensures idx == old(idx) + Span(t, length)
      ensures ns == ParseNumbers(t, packet.data.bytes[old(idx)..idx], length)
    {
      hide *;
      var w := Width(t);
      ghost var s, end := packet.data.bytes, idx + Span(t, length);
      ghost var whole := ParseNumbers(t, s[idx..end], length);
      ns := [];
      for i := 0 to length
        invariant idx <= end <= |s| && end == idx + Span(t, length - i)
        invariant ns + ParseNumbers(t, s[idx..end], length - i) == whole
      {
        ghost var here := s[idx..end];
        NumbersStep(t, here, length - i);
        assert here[..w] == s[idx..idx + w] && here[w..] == s[idx + w..end];
        var n := FrontNumber(t);
        ns := ns + [n];
        idx := idx + w;
      }
      NumbersDone(t, s[idx..end]);
      assert idx == end;
    }

    method ReadObjectHeader(length: nat) returns (e: Option<ReadError>)
      requires AtItem()
      modifies this
      ensures idx == if e.None? then old(idx) + 2 else old(idx)
      ensures !old(More()) ==> e == Some(Expected(OBJECT_TAG))
      ensures old(More()) ==>
                var v := ParseItem(packet.data.bytes, old(idx)).value;
                e == if !v.Obj? then Some(Expected(OBJECT_TAG))
                     else if v.fields == [] then Some(EmptyObjectRead)
                     else if |v.fields| != length then Some(WrongSizedObject)
                     else None
    {
      if NextType() != OBJECT_TAG {
        if More() {
          TagsTell(packet.data.bytes, idx);
        }
        return Some(Expected(OBJECT_TAG));
      }
      ObjectItem(packet.data.bytes, idx);
      var objLength: nat := packet.data.bytes[idx + 1];
      if objLength == 0 {
        return Some(EmptyObjectRead);
      }
      if objLength != length {
        return Some(WrongSizedObject);
      }
      idx := idx + 2;
      return None;
    }

    /** Reads the fields of one object through a copy of the reader, which only takes over on success. */
    method ReadAsObject(shapes: seq<Shape>) returns (r: ReadResult)
      requires AtItem()
      modifies this
      ensures (r, idx) == old(ReadingAt(packet.data.bytes, idx, ObjShape(shapes)))
      decreases shapes, 1
    {
      ObjReading(packet.data.bytes, idx, shapes);
      hide ReadingAt, ReadingAllAt, Readable;
      var tmp := new PacketReader.Copy(this);
      var e := tmp.ReadObjectHeader(|shapes|);
      if e.Some? {
        return Thrown(e.value);
      }
      var fields := tmp.ReadFrom(shapes);
      match fields {
        case Stopped(_, error) =>
          return Thrown(error);
        case GotAll(values) =>
          idx := tmp.idx;
          return Got(Obj(values));
      }
    }

    method ReadFrom(shapes: seq<Shape>) returns (r: ReadList)
      requires Readable(packet.data.bytes, idx, |shapes|)
      modifies this
      ensures (r, idx) == old(ReadingAllAt(packet.data.bytes, idx, shapes))
      decreases shapes, 0
    {
      if shapes == [] {
        return GotAll([]);
      }
      var first := Read(shapes[0]);
      if first.Thrown? {
        return Stopped([], first.error);
      }
      var rest := ReadFrom(shapes[1..]);
      if first.Ended? {
        return rest;
      }
      match rest {
        case GotAll(values) => r := GotAll([first.value] + values);
        case Stopped(values, e) => r := Stopped([first.value] + values, e);
      }
    }

    method Read(shape: Shape) returns (r: ReadResult)
      requires AtItem()
      modifies this
      ensures (r, idx) == old(ReadingAt(packet.data.bytes, idx, shape))
      decreases shape
    {
      match shape {
        case ScalarShape(t) => r := ReadScalar(t);
        case CharShape => r := ReadChar();
        case StrShape => r := ReadString();
        case ArrShape(t) => r := ReadArray(t);
        case CharArrShape => r := ReadCharArray();
        case ObjShape(fields) => r := ReadAsObject(fields);
      }
    }
  }

  lemma ObjectItem(s: seq<byte>, i: nat)
    requires i < |s| && s[i] == OBJECT_TAG && ParseItem(s, i).Item?
    ensures i + 2 <= |s|
    ensures var r := ParseItem(s, i);
            && r.value.Obj? && |r.value.fields| == s[i + 1]
            && ParseItems(s, i + 2, s[i + 1]) == Items(r.value.fields, r.next)
  {
  }

  /** The first byte of an item tells its kind. */
  lemma TagsTell(s: seq<byte>, i: nat)
    requires i < |s| && ParseItem(s, i).Item?
    ensures var v := ParseItem(s, i).value;
            && IsItem(v) && ItemTag(v) == s[i]
            && ExceptionByType(s[i]) == Expected(s[i])
            && (v.Scalar? ==> ScalarOfTag(s[i]) == Some(v.kind))
            && (v.Arr? ==> ScalarOfTag(s[i]).None? && ArrayOfTag(s[i]) == Some(v.kind))
            && (v.Str? <==> s[i] == STRING_TAG)
            && (v.Obj? <==> s[i] == OBJECT_TAG)
  {
    hide ParseItem, Encode;
    ParseItemSound(s, i);
    var r := ParseItem(s, i);
    assert s[i] == s[i..r.next][0];
    if r.value.Scalar? || r.value.Arr? {
      ScalarTagsDiffer(r.value.kind);
    }
  }

  /** Reading an object is reading its header, and then its fields from behind the header. */
  lemma ObjReading(s: seq<byte>, i: nat, shapes: seq<Shape>)
    requires i < |s| ==> ParseItem(s, i).Item?
    ensures i >= |s| ==> ReadingAt(s, i, ObjShape(shapes)) == (Thrown(Expected(OBJECT_TAG)), i)
    ensures i < |s| ==>
              var v, r := ParseItem(s, i).value, ReadingAt(s, i, ObjShape(shapes));
              if !v.Obj? then r == (Thrown(Expected(OBJECT_TAG)), i)
              else if v.fields == [] then r == (Thrown(EmptyObjectRead), i)
              else if |v.fields| != |shapes| then r == (Thrown(WrongSizedObject), i)
              else
                && Readable(s, i + 2, |shapes|)
                && match ReadingAllAt(s, i + 2, shapes)
                   case (GotAll(values), end) => r == (Got(Obj(values)), end)
                   case (Stopped(_, e), _) => r == (Thrown(e), i)
  {
    if i < |s| {
      TagsTell(s, i);
      if s[i] == OBJECT_TAG {
        ObjectItem(s, i);
        if s[i + 1] == |shapes| {
          ReadingFields(s, i + 2, shapes);
        }
      }
      hide ParseItem, ParseItems, ReadingAll, ReadingAllAt, Readable, IsItem;
    }
  }

  lemma NumbersStep(t: ScalarType, s: seq<byte>, n: nat)
    requires n > 0 && |s| == Span(t, n)
    ensures |s| == Width(t) + Span(t, n - 1)
    ensures ParseNumbers(t, s, n) ==
            [NumberOf(t, FromBigEndian(s[..Width(t)]))] + ParseNumbers(t, s[Width(t)..], n - 1)
  {
    hide Pow256, FromBigEndian, NumberOf, Width;
  }

  lemma NumbersDone(t: ScalarType, s: seq<byte>)
    requires |s| == Span(t, 0)
    ensures |s| == 0 && ParseNumbers(t, s, 0) == []
  {
  }

  /** What a variable of a scalar or array type sees at i: the tag it wants, and then its contents. */
  ghost predicate Sees(s: seq<byte>, i: nat, shape: Shape, wanted: bool, content: Parsed)
    requires i < |s| && ParseItem(s, i).Item?
  {
    if wanted then content.Item? && ReadingAt(s, i, shape) == (Got(content.value), content.next)
    else ReadingAt(s, i, shape) == (Thrown(ExceptionByType(s[i])), i)
  }

  lemma ScalarReading(s: seq<byte>, i: nat, t: ScalarType)
    requires i < |s| && ParseItem(s, i).Item?
    ensures Sees(s, i, ScalarShape(t), s[i] == TagOf(t), ParseScalar(s, i, t))
  {
    TagsTell(s, i);
    ScalarTagsDiffer(t);
    assert s[i] == TagOf(t) ==> ParseItem(s, i) == ParseScalar(s, i, t);
    hide ParseItem, NumberOf, FromBigEndian, Pow256;
  }

  lemma CharReading(s: seq<byte>, i: nat)
    requires i < |s| && ParseItem(s, i).Item?
    ensures Sees(s, i, CharShape, s[i] in {TagOf(Int8), TagOf(UInt8)}, ParseScalar(s, i, Int8))
  {
    TagsTell(s, i);
    assert s[i] == TagOf(Int8) ==> ParseItem(s, i) == ParseScalar(s, i, Int8);
    assert s[i] == TagOf(UInt8) ==> ParseItem(s, i) == ParseScalar(s, i, UInt8);
    hide ParseItem, NumberOf, FromBigEndian, Pow256;
  }

  lemma StrReading(s: seq<byte>, i: nat)
    requires i < |s| && ParseItem(s, i).Item?
    ensures Sees(s, i, StrShape, s[i] == STRING_TAG, ParseStr(s, i))
  {
    TagsTell(s, i);
    assert s[i] == STRING_TAG ==> ParseItem(s, i) == ParseStr(s, i);
    hide ParseItem, ParseStr;
  }

  lemma ArrReading(s: seq<byte>, i: nat, t: ScalarType)
    requires i < |s| && ParseItem(s, i).Item?
    ensures Sees(s, i, ArrShape(t), s[i] == ARRAY_FLAG + TagOf(t), ParseArr(s, i, t))
  {
    TagsTell(s, i);
    ScalarTagsDiffer(t);
    assert s[i] == ARRAY_FLAG + TagOf(t) ==> ParseItem(s, i) == ParseArr(s, i, t);
    hide ParseItem, ParseArr;
  }

  lemma CharArrReading(s: seq<byte>, i: nat)
    requires i < |s| && ParseItem(s, i).Item?
    ensures Sees(s, i, CharArrShape, s[i] in {ARRAY_FLAG + TagOf(Int8), ARRAY_FLAG + TagOf(UInt8)},
                 ParseArr(s, i, Int8))
  {
    TagsTell(s, i);
    CharArrParse(s, i, Int8);
    CharArrParse(s, i, UInt8);
    assert s[i] == ARRAY_FLAG + TagOf(Int8) ==> ParseItem(s, i) == ParseArr(s, i, Int8);
    assert s[i] == ARRAY_FLAG + TagOf(UInt8) ==> ParseItem(s, i) == ParseArr(s, i, UInt8);
    hide ParseItem, ParseArr, AsChars;
  }

  lemma CharArrParse(s: seq<byte>, i: nat, t: ScalarType)
    requires i < |s| && Width(t) == 1
    ensures var r, c := ParseArr(s, i, t), ParseArr(s, i, Int8);
            && (r.Item? <==> c.Item?)
            && (r.Item? ==> r.value.Arr? && r.value.kind == t && (forall n | n in r.value.numbers :: Fits(t, n))
                            && c == Item(Arr(Int8, AsChars(t, r.value.numbers)), r.next))
  {
    if i + 3 <= |s| {
      var n := FromBigEndian(s[i + 1..i + 3]);
      SpanOfBytes(t, n);
      SpanOfBytes(Int8, n);
      if i + 3 + n <= |s| {
        CharsParse(t, s[i + 3..i + 3 + n], n);
      }
    }
    hide Pow256, FromBigEndian, ParseNumbers, Fits, Span;
  }

  lemma {:induction false} SpanOfBytes(t: ScalarType, n: nat)
    requires Width(t) == 1
    ensures Span(t, n) == n
  {
    if n > 0 {
      SpanOfBytes(t, n - 1);
    }
  }

  /** The bytes of an array of chars read the same whatever the sign it was written with. */
  lemma {:induction false} CharsParse(t: ScalarType, s: seq<byte>, n: nat)
    requires Width(t) == 1 && |s| == n == Span(t, n) == Span(Int8, n)
    ensures AsChars(t, ParseNumbers(t, s, n)) == ParseNumbers(Int8, s, n)
    decreases n
  {
    hide Pow256, FromBigEndian, NumberOf, PatternOf, Fits;
    if n > 0 {
      NumbersStep(t, s, n);
      NumbersStep(Int8, s, n);
      CharsParse(t, s[1..], n - 1);
    }
  }
}
