/** What variables of each type receive, told on the bytes that stand at the reader. */
module ReadingLayout {
  import opened Bytes
  import opened Wire
  import opened Readers
  import opened Layout

  /**
   * A variable of a plain type receives items of just that type. Any other item is left where it is,
   * and the exception is named after the tag that was found.
   */
  lemma PlainIsRead(s: seq<byte>, i: nat, shape: Shape)
    requires i < |s| && ParseItem(s, i).Item?
    requires shape.ScalarShape? || shape.StrShape? || shape.ArrShape?
    ensures var item := ParseItem(s, i);
            ReadingAt(s, i, shape) ==
            if ShapeOf(item.value) == shape then (Got(item.value), item.next) else (Thrown(Expected(s[i])), i)
  {
    hide ParseItem, ShapesOf;
    TagsTell(s, i);
  }

  /** A signed byte, as its two's complement. */
  predicate IsChar(c: int, b: byte) {
    -128 <= c < 128 && c % 0x100 == b
  }

  lemma CharOfByte(b: byte)
    ensures b < Pow256(Width(Int8)) && IsChar(NumberOf(Int8, b), b)
  {
    Pow256Values();
    hide Pow256;
    Ranges(Int8, NumberOf(Int8, b));
    PatternIsModulo(Int8, NumberOf(Int8, b));
  }

  lemma NumberOfByte(s: seq<byte>)
    requires |s| == 1
    ensures FromBigEndian(s) == s[0]
  {
    assert s == [s[0]];
  }

  /** A char is read from a byte with or without a sign. */
  lemma CharIsRead(s: seq<byte>, i: nat)
    requires i < |s| && ParseItem(s, i).Item?
    ensures var r := ReadingAt(s, i, CharShape);
            if s[i] in {0x01, 0x05} then
              && i + 1 < |s| && r.1 == i + 2
              && r.0.Got? && r.0.value.Scalar? && r.0.value.kind == Int8 && IsChar(r.0.value.number, s[i + 1])
            else r == (Thrown(Expected(s[i])), i)
  {
    hide ParseItem, ReadingAt, NumberOf, FromBigEndian, Pow256, ExceptionByType, IsChar;
    CharReading(s, i);
    TagsTell(s, i);
    if s[i] in {TagOf(Int8), TagOf(UInt8)} {
      NumberOfByte(s[i + 1..i + 2]);
      CharOfByte(s[i + 1]);
    }
  }

  lemma {:induction false} CharsOfBytes(s: seq<byte>, n: nat)
    requires |s| == n == Span(Int8, n)
    ensures forall k :: 0 <= k < n ==> IsChar(ParseNumbers(Int8, s, n)[k], s[k])
    decreases n
  {
    hide NumberOf, FromBigEndian, Pow256, IsChar;
    if n > 0 {
      var rest := s[1..];
      CharsOfBytes(rest, n - 1);
      NumberOfByte(s[..1]);
      CharOfByte(s[0]);
      NumbersStep(Int8, s, n);
      forall k | 0 <= k < n ensures IsChar(ParseNumbers(Int8, s, n)[k], s[k]) {
        if k > 0 {
          assert IsChar(ParseNumbers(Int8, rest, n - 1)[k - 1], rest[k - 1]);
        }
      }
    }
  }

  /** The chars of a list are the bytes behind its length. */
  ghost predicate AreChars(r: (ReadResult, nat), s: seq<byte>, i: nat) {
    && i + 3 <= |s| && r.0.Got? && r.0.value.Arr? && r.0.value.kind == Int8
    && var ns := r.0.value.numbers;
    && |ns| == 0x100 * (s[i + 1] as int) + s[i + 2]
    && r.1 == i + 3 + |ns| <= |s|
    && forall k :: 0 <= k < |ns| ==> IsChar(ns[k], s[i + 3 + k])
  }

  lemma ArrOfChars(s: seq<byte>, i: nat)
    requires i < |s| && ParseArr(s, i, Int8).Item?
    ensures AreChars((Got(ParseArr(s, i, Int8).value), ParseArr(s, i, Int8).next), s, i)
  {
    hide NumberOf, Pow256, IsChar, ParseNumbers, FromBigEndian, Span;
    var c := s[i + 1..i + 3];
    TwoBytes(c);
    assert c[..2] == c;
    var n := FromBigEndian(c);
    SpanOfBytes(Int8, n);
    var body := s[i + 3..i + 3 + n];
    CharsOfBytes(body, n);
    assert forall k :: 0 <= k < n ==> body[k] == s[i + 3 + k];
  }

  /** A list of chars is read from an array of bytes with or without a sign. */
  lemma CharsAreRead(s: seq<byte>, i: nat)
    requires i < |s| && ParseItem(s, i).Item?
    ensures var r := ReadingAt(s, i, CharArrShape);
            if s[i] in {0x81, 0x85} then AreChars(r, s, i) else r == (Thrown(Expected(s[i])), i)
  {
    hide ParseItem, ReadingAt, ExceptionByType, AreChars, ParseArr;
    CharArrReading(s, i);
    TagsTell(s, i);
    if s[i] in {0x81, 0x85} {
      ArrOfChars(s, i);
    }
  }

  /** An object is read into as many variables as it has fields, but not if it has none. */
  lemma ObjectIsRead(s: seq<byte>, i: nat, shapes: seq<Shape>)
    requires i < |s| && ParseItem(s, i).Item?
    ensures var r := ReadingAt(s, i, ObjShape(shapes));
            if s[i] != 0x40 then r == (Thrown(Expected(0x40)), i)
            else
              && i + 1 < |s|
              && if s[i + 1] == 0 then r == (Thrown(EmptyObjectRead), i)
                 else if s[i + 1] != |shapes| then r == (Thrown(WrongSizedObject), i)
                 else
                   && Readable(s, i + 2, |shapes|)
                   && var (fields, end) := ReadingAllAt(s, i + 2, shapes);
                      r == match fields
                           case GotAll(values) => (Got(Obj(values)), end)
                           case Stopped(_, e) => (Thrown(e), i)
  {
    hide ParseItem, ReadingAt, ReadingAllAt, Readable;
    ObjReading(s, i, shapes);
    TagsTell(s, i);
    if s[i] == 0x40 {
      ObjectItem(s, i);
    }
  }

  /** Values that were read before. */
  function Behind(values: seq<Value>, r: ReadList): ReadList {
    match r
    case GotAll(more) => GotAll(values + more)
    case Stopped(more, e) => Stopped(values + more, e)
  }

  lemma BehindBoth(a: seq<Value>, b: seq<Value>, r: ReadList)
    ensures Behind(a, Behind(b, r)) == Behind(a + b, r) && Behind([], r) == r
  {
    assert forall c: seq<Value> :: a + (b + c) == a + b + c && [] + c == c;
  }

  /** The first variable that is read, and the others behind it. */
  lemma ReadingFirst(s: seq<byte>, i: nat, shapes: seq<Shape>, r: ReadResult, next: nat)
    requires shapes != [] && Readable(s, i, |shapes|) && (i < |s| ==> ParseItem(s, i).Item?)
    requires ReadingAt(s, i, shapes[0]) == (r, next)
    ensures r.Thrown? ==> ReadingAllAt(s, i, shapes) == (Stopped([], r.error), i)
    ensures r.Ended? ==> next == i
    ensures !r.Thrown? ==> Readable(s, next, |shapes| - 1)
    ensures !r.Thrown? ==>
              var rest := ReadingAllAt(s, next, shapes[1..]);
              ReadingAllAt(s, i, shapes) == (Behind(if r.Got? then [r.value] else [], rest.0), rest.1)
  {
    hide ParseItem, Reading;
    if !r.Thrown? {
      BehindBoth([], [], ReadingAllAt(s, next, shapes[1..]).0);
    }
  }

  /** Variables that are read in two turns get what they get in one, and keep it when a later one fails. */
  lemma {:induction false} ReadingInTurns(s: seq<byte>, i: nat, a: seq<Shape>, b: seq<Shape>)
    requires Readable(s, i, |a + b|)
    ensures Readable(s, i, |a|)
    ensures var (first, middle) := ReadingAllAt(s, i, a);
            if first.Stopped? then ReadingAllAt(s, i, a + b) == (first, middle)
            else
              && Readable(s, middle, |b|)
              && var rest := ReadingAllAt(s, middle, b);
                 ReadingAllAt(s, i, a + b) == (Behind(first.values, rest.0), rest.1)
    decreases |a|
  {
    hide ReadingAt, Readable, ParseItem;
    if a == [] {
      assert a + b == b;
      ReadableLess(s, i, |b|, 0);
      BehindBoth([], [], ReadingAllAt(s, i, b).0);
    } else {
      assert (a + b)[0] == a[0] && (a + b)[1..] == a[1..] + b;
      ReadableHere(s, i, |a + b|, |a|);
      var (r, next) := ReadingAt(s, i, a[0]);
      ReadingFirst(s, i, a, r, next);
      ReadingFirst(s, i, a + b, r, next);
      if !r.Thrown? {
        ReadingInTurns(s, next, a[1..], b);
        var (first, middle) := ReadingAllAt(s, next, a[1..]);
        if first.GotAll? {
          BehindBoth(if r.Got? then [r.value] else [], first.values, ReadingAllAt(s, middle, b).0);
        }
      }
    }
  }

  lemma {:induction false} ReadableLess(s: seq<byte>, i: nat, n: nat, m: nat)
    requires m <= n && Readable(s, i, n)
    ensures Readable(s, i, m)
    decreases m
  {
    hide ParseItem;
    if m > 0 && i < |s| {
      ReadableLess(s, ParseItem(s, i).next, n - 1, m - 1);
    }
  }

  lemma ReadableHere(s: seq<byte>, i: nat, n: nat, m: nat)
    requires 0 < m <= n && Readable(s, i, n)
    ensures Readable(s, i, m) && (i < |s| ==> ParseItem(s, i).Item?)
  {
    hide ParseItem;
    ReadableLess(s, i, n, m);
  }

  /** At the end of the packet nothing is read any more; the first variable of object type is an error. */
  lemma {:induction false} NothingMoreIsRead(s: seq<byte>, i: nat, shapes: seq<Shape>)
    requires i >= |s|
    ensures Readable(s, i, |shapes|)
    ensures ReadingAllAt(s, i, shapes) ==
            if exists shape :: shape in shapes && shape.ObjShape? then (Stopped([], Expected(0x40)), i)
            else (GotAll([]), i)
    decreases shapes
  {
    if shapes != [] {
      NothingMoreIsRead(s, i, shapes[1..]);
      NothingIsReadAtEnd(s, i, shapes[0]);
      assert shapes == [shapes[0]] + shapes[1..];
    }
  }
}
