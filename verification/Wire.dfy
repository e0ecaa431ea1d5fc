/** The packet format: what a list of typed values looks like as bytes, and back. */
module Wire {
  import opened Bytes
  import opened Options

  datatype ScalarType =
    | Int8 | Int16 | Int32 | Int64
    | UInt8 | UInt16 | UInt32 | UInt64
    | Float | Double

  /** A float or a double is its bit pattern. A string is the bytes before its NUL. */
  datatype Value =
    | Scalar(kind: ScalarType, number: int)
    | Str(chars: seq<byte>)
    | Arr(kind: ScalarType, numbers: seq<int>)
    | Obj(fields: seq<Value>)

  const STRING_TAG: byte := 0x20
  const OBJECT_TAG: byte := 0x40
  const ARRAY_FLAG: int := 0x80
  const MAX_FIELDS: nat := 255
  const MAX_ELEMENTS: nat := 65535

  function Width(t: ScalarType): (w: nat)
    ensures w in {1, 2, 4, 8}
  {
    match t
    case Int8 | UInt8 => 1
    case Int16 | UInt16 => 2
    case Int32 | UInt32 | Float => 4
    case Int64 | UInt64 | Double => 8
  }

  /** The bytes that n numbers of one type take. */
  function Span(t: ScalarType, n: nat): nat {
    if n == 0 then 0 else Width(t) + Span(t, n - 1)
  }

  function TagOf(t: ScalarType): byte {
    match t
    case Int8 => 0x01
    case Int16 => 0x02
    case Int32 => 0x03
    case Int64 => 0x04
    case UInt8 => 0x05
    case UInt16 => 0x06
    case UInt32 => 0x07
    case UInt64 => 0x08
    case Float => 0x10
    case Double => 0x11
  }

  function ScalarOfTag(b: int): (t: Option<ScalarType>)
    ensures t.Some? ==> TagOf(t.value) == b
    ensures t.None? ==> forall u :: TagOf(u) != b
  {
    match b
    case 0x01 => Some(Int8)
    case 0x02 => Some(Int16)
    case 0x03 => Some(Int32)
    case 0x04 => Some(Int64)
    case 0x05 => Some(UInt8)
    case 0x06 => Some(UInt16)
    case 0x07 => Some(UInt32)
    case 0x08 => Some(UInt64)
    case 0x10 => Some(Float)
    case 0x11 => Some(Double)
    case _ => None
  }

  function ArrayOfTag(b: int): (t: Option<ScalarType>)
    ensures t.Some? ==> ARRAY_FLAG + TagOf(t.value) == b
  {
    ScalarOfTag(b - ARRAY_FLAG)
  }

  /** The tag of a whole item, the byte that every walker of a packet dispatches on. */
  function ItemTag(v: Value): byte {
    match v
    case Scalar(t, _) => TagOf(t)
    case Str(_) => STRING_TAG
    case Arr(t, _) => ARRAY_FLAG + TagOf(t)
    case Obj(_) => OBJECT_TAG
  }

  predicate IsSigned(t: ScalarType) {
    t.Int8? || t.Int16? || t.Int32? || t.Int64?
  }

  predicate Fits(t: ScalarType, v: int) {
    if IsSigned(t) then -(Half256(Width(t)) as int) <= v < Half256(Width(t))
    else 0 <= v < Pow256(Width(t))
  }

  function PatternOf(t: ScalarType, v: int): (p: nat)
    requires Fits(t, v)
    ensures p < Pow256(Width(t))
  {
    if IsSigned(t) then ToPattern(Width(t), v) else v
  }

  function NumberOf(t: ScalarType, p: nat): (v: int)
    requires p < Pow256(Width(t))
    ensures Fits(t, v) && PatternOf(t, v) == p
  {
    if IsSigned(t) then FromPattern(Width(t), p) else p
  }

  lemma NumberInvertsPattern(t: ScalarType, v: int)
    requires Fits(t, v)
    ensures NumberOf(t, PatternOf(t, v)) == v
  {
    hide Pow256, Half256;
  }

  /** The values that have an encoding. */
  predicate IsItem(v: Value)
    decreases v
  {
    match v
    case Scalar(t, n) => Fits(t, n)
    case Str(chars) => 0 !in chars
    case Arr(t, ns) => |ns| <= MAX_ELEMENTS && forall n | n in ns :: Fits(t, n)
    case Obj(fields) => |fields| <= MAX_FIELDS && forall f | f in fields :: IsItem(f)
  }

  predicate AreItems(vs: seq<Value>) {
    forall v | v in vs :: IsItem(v)
  }

  function EncodeNumber(t: ScalarType, n: int): (s: seq<byte>)
    requires Fits(t, n)
    ensures |s| == Width(t)
  {
    BigEndian(Width(t), PatternOf(t, n))
  }

  function EncodeNumbers(t: ScalarType, ns: seq<int>): (s: seq<byte>)
    requires forall n | n in ns :: Fits(t, n)
    ensures |s| == Span(t, |ns|)
  {
    if ns == [] then [] else EncodeNumber(t, ns[0]) + EncodeNumbers(t, ns[1..])
  }

  function EncodeLength(n: nat): (s: seq<byte>)
    requires n <= MAX_ELEMENTS
    ensures |s| == 2
  {
    Pow256Values();
    BigEndian(2, n)
  }

  function EncodeArr(t: ScalarType, ns: seq<int>): (s: seq<byte>)
    requires |ns| <= MAX_ELEMENTS && forall n | n in ns :: Fits(t, n)
    ensures |s| == 3 + Span(t, |ns|)
    ensures s[0] == ARRAY_FLAG + TagOf(t)
  {
    [ARRAY_FLAG + TagOf(t)] + EncodeLength(|ns|) + EncodeNumbers(t, ns)
  }

  function Encode(v: Value): (s: seq<byte>)
    requires IsItem(v)
    ensures |s| >= 2 && s[0] == ItemTag(v)
    decreases v, 0
  {
    match v
    case Scalar(t, n) => [TagOf(t)] + EncodeNumber(t, n)
    case Str(chars) => [STRING_TAG] + chars + [0]
    case Arr(t, ns) => EncodeArr(t, ns)
    case Obj(fields) => [OBJECT_TAG, |fields|] + EncodeAll(fields)
  }

  function EncodeAll(vs: seq<Value>): (s: seq<byte>)
    requires AreItems(vs)
    ensures |s| >= 2 * |vs|
    decreases vs
  {
    if vs == [] then [] else Encode(vs[0]) + EncodeAll(vs[1..])
  }

  // ---------------------------------------------------------------------------
  // Decoding
  // ---------------------------------------------------------------------------

  datatype Parsed = NoItem | Item(value: Value, next: nat)
  datatype ParsedList = NoItems | Items(values: seq<Value>, next: nat)

  /** The first NUL at or after i, or the length. */
  function FindNul(s: seq<byte>, i: nat): (e: nat)
    requires i <= |s|
    ensures i <= e <= |s|
    ensures 0 !in s[i..e]
    ensures e < |s| ==> s[e] == 0
    decreases |s| - i
  {
    if i == |s| || s[i] == 0 then i
    else
      var e := FindNul(s, i + 1);
      assert s[i..e] == [s[i]] + s[i + 1..e];
      e
  }

  function ParseNumbers(t: ScalarType, s: seq<byte>, n: nat): (ns: seq<int>)
    requires |s| == Span(t, n)
    ensures |ns| == n
    ensures forall x | x in ns :: Fits(t, x)
    ensures EncodeNumbers(t, ns) == s
    decreases n
  {
    if n == 0 then []
    else
      var w := Width(t);
      BigEndianInverts(s[..w]);
      var x := NumberOf(t, FromBigEndian(s[..w]));
      assert s == s[..w] + s[w..];
      [x] + ParseNumbers(t, s[w..], n - 1)
  }

  function ParseStr(s: seq<byte>, i: nat): (r: Parsed)
    requires i < |s|
    ensures r.Item? ==> i + 2 <= r.next <= |s|
  {
    var e := FindNul(s, i + 1);
    if e == |s| then NoItem else Item(Str(s[i + 1..e]), e + 1)
  }

  function ParseScalar(s: seq<byte>, i: nat, t: ScalarType): (r: Parsed)
    requires i < |s|
    ensures r.Item? ==> r.next == i + 1 + Width(t) <= |s|
  {
    var next := i + 1 + Width(t);
    if next > |s| then NoItem
    else Item(Scalar(t, NumberOf(t, FromBigEndian(s[i + 1..next]))), next)
  }

  function ParseArr(s: seq<byte>, i: nat, t: ScalarType): (r: Parsed)
    requires i < |s|
    ensures r.Item? ==> i + 3 <= r.next <= |s|
  {
    if i + 3 > |s| then NoItem
    else
      var n := FromBigEndian(s[i + 1..i + 3]);
      var next := i + 3 + Span(t, n);
      if next > |s| then NoItem
      else Item(Arr(t, ParseNumbers(t, s[i + 3..next], n)), next)
  }

  /** Reads the item that starts at i. */
  function ParseItem(s: seq<byte>, i: nat): (r: Parsed)
    requires i <= |s|
    ensures r.Item? ==> i + 2 <= r.next <= |s|
    decreases |s| - i, 0
  {
    if i == |s| then NoItem
    else if s[i] == STRING_TAG then ParseStr(s, i)
    else if s[i] == OBJECT_TAG then
      if i + 2 > |s| then NoItem
      else
        match ParseItems(s, i + 2, s[i + 1])
        case NoItems => NoItem
        case Items(fields, next) => Item(Obj(fields), next)
    else if ScalarOfTag(s[i]).Some? then ParseScalar(s, i, ScalarOfTag(s[i]).value)
    else if ArrayOfTag(s[i]).Some? then ParseArr(s, i, ArrayOfTag(s[i]).value)
    else NoItem
  }

  /** Reads n items one after the other from i. */
  function ParseItems(s: seq<byte>, i: nat, n: nat): (r: ParsedList)
    requires i <= |s|
    ensures r.Items? ==> |r.values| == n && i + 2 * n <= r.next <= |s|
    decreases |s| - i, n + 1
  {
    if n == 0 then Items([], i)
    else
      match ParseItem(s, i)
      case NoItem => NoItems
      case Item(v, next) =>
        match ParseItems(s, next, n - 1)
        case NoItems => NoItems
        case Items(vs, end) => Items([v] + vs, end)
  }

  /** Reads items from i until the bytes are used up. */
  function ParseAll(s: seq<byte>, i: nat): (r: Option<seq<Value>>)
    requires i <= |s|
    decreases |s| - i
  {
    if i == |s| then Some([])
    else
      match ParseItem(s, i)
      case NoItem => None
      case Item(v, next) =>
        match ParseAll(s, next)
        case None => None
        case Some(vs) => Some([v] + vs)
  }

  // Whatever is read is an item, and encodes to the bytes it was read from.

  ghost predicate ReadsBack(s: seq<byte>, i: nat, r: Parsed)
    requires r.Item? ==> i <= r.next <= |s|
  {
    r.Item? ==> IsItem(r.value) && Encode(r.value) == s[i..r.next]
  }

  lemma ParseScalarSound(s: seq<byte>, i: nat, t: ScalarType)
    requires i < |s| && s[i] == TagOf(t)
    ensures ReadsBack(s, i, ParseScalar(s, i, t))
  {
    hide Pow256, BigEndian, FromBigEndian, NumberOf, PatternOf, Fits;
    var r := ParseScalar(s, i, t);
    if r.Item? {
      BigEndianInverts(s[i + 1..r.next]);
      assert s[i..r.next] == [s[i]] + s[i + 1..r.next];
    }
  }

  lemma ParseStrSound(s: seq<byte>, i: nat)
    requires i < |s| && s[i] == STRING_TAG
    ensures ReadsBack(s, i, ParseStr(s, i))
  {
    var e := FindNul(s, i + 1);
    if e < |s| {
      assert s[i..e + 1] == [STRING_TAG] + s[i + 1..e] + [0];
    }
  }

  lemma ParseArrSound(s: seq<byte>, i: nat, t: ScalarType)
    requires i < |s| && s[i] == ARRAY_FLAG + TagOf(t)
    ensures ReadsBack(s, i, ParseArr(s, i, t))
  {
    hide Pow256, BigEndian, FromBigEndian, ParseNumbers, EncodeNumbers, Fits;
    var r := ParseArr(s, i, t);
    if r.Item? {
      var length, numbers := s[i + 1..i + 3], s[i + 3..r.next];
      Pow256Values();
      BigEndianInverts(length);
      assert s[i..r.next] == [s[i]] + length + numbers;
    }
  }

  lemma {:induction false} ParseItemSound(s: seq<byte>, i: nat)
    requires i <= |s|
    ensures ReadsBack(s, i, ParseItem(s, i))
    decreases |s| - i, 0
  {
    hide Pow256, BigEndian, FromBigEndian, NumberOf, PatternOf, Fits, ParseNumbers, EncodeNumbers;
    if i == |s| {
    } else if s[i] == STRING_TAG {
      ParseStrSound(s, i);
    } else if s[i] == OBJECT_TAG {
      if i + 2 <= |s| {
        ParseItemsSound(s, i + 2, s[i + 1]);
        var r := ParseItem(s, i);
        if r.Item? {
          assert s[i..r.next] == [OBJECT_TAG, s[i + 1]] + s[i + 2..r.next];
        }
      }
    } else if ScalarOfTag(s[i]).Some? {
      ParseScalarSound(s, i, ScalarOfTag(s[i]).value);
    } else if ArrayOfTag(s[i]).Some? {
      ParseArrSound(s, i, ArrayOfTag(s[i]).value);
    }
  }

  lemma {:induction false} ParseItemsSound(s: seq<byte>, i: nat, n: nat)
    requires i <= |s|
    ensures var r := ParseItems(s, i, n);
            r.Items? ==> AreItems(r.values) && EncodeAll(r.values) == s[i..r.next]
    decreases |s| - i, n + 1
  {
    hide ParseItem, Encode;
    var r := ParseItems(s, i, n);
    if r.Items? && n > 0 {
      var mid := ParseItem(s, i).next;
      ParseItemSound(s, i);
      ParseItemsSound(s, mid, n - 1);
      assert r.values[1..] == ParseItems(s, mid, n - 1).values;
      assert s[i..r.next] == s[i..mid] + s[mid..r.next];
    }
  }

  // Wherever an encoding stands, it is read back, whatever precedes or follows it.

  ghost predicate StandsAt(s: seq<byte>, i: nat, e: seq<byte>) {
    i + |e| <= |s| && s[i..i + |e|] == e
  }

  lemma StandsSplit(s: seq<byte>, i: nat, a: seq<byte>, b: seq<byte>)
    requires StandsAt(s, i, a + b)
    ensures StandsAt(s, i, a) && StandsAt(s, i + |a|, b)
  {
    var w := s[i..i + |a + b|];
    assert w[..|a|] == a && w[|a|..] == b;
  }

  lemma {:induction false} ParseNumbersComplete(t: ScalarType, ns: seq<int>)
    requires forall n | n in ns :: Fits(t, n)
    ensures ParseNumbers(t, EncodeNumbers(t, ns), |ns|) == ns
  {
    hide Pow256, BigEndian, FromBigEndian, NumberOf, PatternOf, Fits;
    if ns != [] {
      var s, w := EncodeNumbers(t, ns), Width(t);
      assert s[..w] == EncodeNumber(t, ns[0]) && s[w..] == EncodeNumbers(t, ns[1..]);
      FromBigEndianInverts(w, PatternOf(t, ns[0]));
      NumberInvertsPattern(t, ns[0]);
      ParseNumbersComplete(t, ns[1..]);
      assert ns == [ns[0]] + ns[1..];
    }
  }

  lemma {:induction false} FindNulUnique(s: seq<byte>, i: nat, e: nat)
    requires i <= e < |s| && 0 !in s[i..e] && s[e] == 0
    ensures FindNul(s, i) == e
    decreases e - i
  {
    if i < e {
      assert s[i] == s[i..e][0];
      assert s[i + 1..e] == s[i..e][1..];
      FindNulUnique(s, i + 1, e);
    }
  }

  lemma ParseScalarComplete(s: seq<byte>, i: nat, t: ScalarType, n: int)
    requires Fits(t, n) && StandsAt(s, i, [TagOf(t)] + EncodeNumber(t, n))
    ensures s[i] == TagOf(t) && ParseScalar(s, i, t) == Item(Scalar(t, n), i + 1 + Width(t))
  {
    hide Pow256, BigEndian, FromBigEndian, NumberOf, PatternOf, Fits;
    StandsSplit(s, i, [TagOf(t)], EncodeNumber(t, n));
    assert s[i] == s[i..i + 1][0];
    FromBigEndianInverts(Width(t), PatternOf(t, n));
    NumberInvertsPattern(t, n);
  }

  lemma ParseArrComplete(s: seq<byte>, i: nat, t: ScalarType, ns: seq<int>)
    requires |ns| <= MAX_ELEMENTS && forall n | n in ns :: Fits(t, n)
    requires StandsAt(s, i, EncodeArr(t, ns))
    ensures s[i] == ARRAY_FLAG + TagOf(t)
    ensures ParseArr(s, i, t) == Item(Arr(t, ns), i + |EncodeArr(t, ns)|)
  {
    hide Pow256, BigEndian, FromBigEndian, ParseNumbers, EncodeNumbers, Fits;
    var tag, length, numbers := [ARRAY_FLAG + TagOf(t)], EncodeLength(|ns|), EncodeNumbers(t, ns);
    StandsSplit(s, i, tag + length, numbers);
    StandsSplit(s, i, tag, length);
    assert s[i] == s[i..i + 1][0];
    assert FromBigEndian(s[i + 1..i + 3]) == |ns| by {
      Pow256Values();
      FromBigEndianInverts(2, |ns|);
    }
    ParseNumbersComplete(t, ns);
  }

  lemma ParseStrComplete(s: seq<byte>, i: nat, chars: seq<byte>)
    requires 0 !in chars && StandsAt(s, i, [STRING_TAG] + chars + [0])
    ensures s[i] == STRING_TAG && ParseStr(s, i) == Item(Str(chars), i + |chars| + 2)
  {
    StandsSplit(s, i, [STRING_TAG] + chars, [0]);
    StandsSplit(s, i, [STRING_TAG], chars);
    assert s[i] == s[i..i + 1][0];
    var e := i + 1 + |chars|;
    assert s[e] == s[e..e + 1][0];
    FindNulUnique(s, i + 1, e);
  }

  lemma ScalarTagsDiffer(t: ScalarType)
    ensures ScalarOfTag(TagOf(t)) == Some(t)
    ensures ScalarOfTag(ARRAY_FLAG + TagOf(t)).None? && ArrayOfTag(ARRAY_FLAG + TagOf(t)) == Some(t)
    ensures TagOf(t) !in {STRING_TAG, OBJECT_TAG} && ARRAY_FLAG + TagOf(t) !in {STRING_TAG, OBJECT_TAG}
  {
  }

  lemma {:induction false} ParseItemComplete(s: seq<byte>, i: nat, v: Value)
    requires IsItem(v) && StandsAt(s, i, Encode(v))
    ensures ParseItem(s, i) == Item(v, i + |Encode(v)|)
    decreases v, 0
  {
    match v {
      case Scalar(t, n) =>
        ParseScalarComplete(s, i, t, n);
        ScalarTagsDiffer(t);
      case Str(chars) => ParseStrComplete(s, i, chars);
      case Arr(t, ns) =>
        ParseArrComplete(s, i, t, ns);
        ScalarTagsDiffer(t);
      case Obj(fields) =>
        var header: seq<byte> := [OBJECT_TAG, |fields|];
        StandsSplit(s, i, header, EncodeAll(fields));
        assert s[i] == s[i..i + 2][0] && s[i + 1] == s[i..i + 2][1];
        ParseItemsComplete(s, i + 2, fields);
    }
  }

  lemma {:induction false} ParseItemsComplete(s: seq<byte>, i: nat, vs: seq<Value>)
    requires AreItems(vs) && StandsAt(s, i, EncodeAll(vs))
    ensures ParseItems(s, i, |vs|) == Items(vs, i + |EncodeAll(vs)|)
    decreases vs
  {
    hide ParseItem, Encode;
    if vs != [] {
      var v, tail := vs[0], vs[1..];
      var mid := i + |Encode(v)|;
      StandsSplit(s, i, Encode(v), EncodeAll(tail));
      ParseItemComplete(s, i, v);
      ParseItemsComplete(s, mid, tail);
      assert ParseItems(s, mid, |vs| - 1) == Items(tail, mid + |EncodeAll(tail)|);
      assert vs == [v] + tail;
    }
  }

  lemma {:induction false} ParseAllSound(s: seq<byte>, i: nat)
    requires i <= |s|
    ensures ParseAll(s, i).Some? ==>
              AreItems(ParseAll(s, i).value) && EncodeAll(ParseAll(s, i).value) == s[i..]
    decreases |s| - i
  {
    hide ParseItem, Encode;
    if i < |s| && ParseAll(s, i).Some? {
      var r := ParseItem(s, i);
      ParseItemSound(s, i);
      ParseAllSound(s, r.next);
      assert ParseAll(s, i).value[1..] == ParseAll(s, r.next).value;
      assert s[i..] == s[i..r.next] + s[r.next..];
    }
  }

  lemma {:induction false} ParseAllComplete(s: seq<byte>, i: nat, vs: seq<Value>)
    requires i <= |s| && AreItems(vs) && EncodeAll(vs) == s[i..]
    ensures ParseAll(s, i) == Some(vs)
    decreases vs
  {
    hide ParseItem, Encode;
    if vs != [] {
      assert StandsAt(s, i, EncodeAll(vs));
      StandsSplit(s, i, Encode(vs[0]), EncodeAll(vs[1..]));
      ParseItemComplete(s, i, vs[0]);
      ParseAllComplete(s, i + |Encode(vs[0])|, vs[1..]);
      assert vs == [vs[0]] + vs[1..];
    }
  }

  /** A packet is good when its bytes are the encodings of some values, one after the other. */
  ghost predicate IsEncoding(s: seq<byte>) {
    exists vs :: AreItems(vs) && EncodeAll(vs) == s
  }

  lemma IsEncodingIffParses(s: seq<byte>)
    ensures IsEncoding(s) <==> ParseAll(s, 0).Some?
  {
    if ParseAll(s, 0).Some? {
      ParseAllSound(s, 0);
      assert s[0..] == s;
    }
    forall vs | AreItems(vs) && EncodeAll(vs) == s ensures ParseAll(s, 0).Some? {
      ParseAllComplete(s, 0, vs);
    }
  }

  /** Bytes say one list of values at most. */
  lemma EncodingIsUnique(a: seq<Value>, b: seq<Value>)
    requires AreItems(a) && AreItems(b)
    ensures EncodeAll(a) == EncodeAll(b) ==> a == b
  {
    if EncodeAll(a) == EncodeAll(b) {
      ParseAllComplete(EncodeAll(a), 0, a);
      ParseAllComplete(EncodeAll(b), 0, b);
    }
  }

  /** Bytes that stop inside an item. */
  ghost predicate IsTruncated(p: seq<byte>) {
    exists v :: IsItem(v) && CutsShort(p, Encode(v))
  }

  ghost predicate CutsShort(p: seq<byte>, e: seq<byte>) {
    0 < |p| < |e| && e[..|p|] == p
  }

  /** No item ends before its own last byte. */
  lemma CutShortDoesNotParse(s: seq<byte>, i: nat, v: Value)
    requires i <= |s| && IsItem(v) && CutsShort(s[i..], Encode(v))
    ensures ParseItem(s, i).NoItem?
  {
    hide ParseItem, Encode;
    var p, whole, r := s[i..], Encode(v), ParseItem(s, i);
    if r.Item? {
      ParseItemSound(s, i);
      var e := Encode(r.value);
      assert e == p[..|e|] == whole[..|e|];
      assert StandsAt(whole, 0, e);
      assert StandsAt(whole, 0, whole);
      ParseItemComplete(whole, 0, r.value);
      ParseItemComplete(whole, 0, v);
    }
  }

  /** A good packet followed by the beginning of an item is not a good packet. */
  lemma {:induction false} TruncatedTailRejected(vs: seq<Value>, p: seq<byte>)
    requires AreItems(vs) && IsTruncated(p)
    ensures !IsEncoding(EncodeAll(vs) + p)
  {
    TruncatedTailDoesNotParse(EncodeAll(vs) + p, 0, vs, p);
    IsEncodingIffParses(EncodeAll(vs) + p);
  }

  lemma {:induction false} TruncatedTailDoesNotParse(s: seq<byte>, i: nat, vs: seq<Value>, p: seq<byte>)
    requires i <= |s| && AreItems(vs) && IsTruncated(p) && s[i..] == EncodeAll(vs) + p
    ensures ParseAll(s, i).None?
    decreases vs
  {
    hide ParseItem, Encode;
    if vs == [] {
      assert s[i..] == p;
      var v :| IsItem(v) && CutsShort(p, Encode(v));
      CutShortDoesNotParse(s, i, v);
    } else {
      var e := Encode(vs[0]);
      var rest := EncodeAll(vs[1..]) + p;
      assert s[i..] == e + rest;
      assert s[i..][..|e|] == e && s[i..][|e|..] == rest;
      assert s[i..i + |e|] == e && s[i + |e|..] == rest;
      ParseItemComplete(s, i, vs[0]);
      TruncatedTailDoesNotParse(s, i + |e|, vs[1..], p);
    }
  }
}
