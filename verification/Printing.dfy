/** The printer of packets: a walk over the items that numbers them and shows their values. */
module Printing {
  import opened Bytes
  import opened Options
  import opened Wire
  import opened Packets
  import opened Readers

  datatype Token =
    | Label(tag: byte, number: nat)
    | Shown(value: Value)
    | Open
    | Close
    | Comma
    | Corrupted

  /** The items in a value, itself included. */
  function CountItems(v: Value): (n: nat)
    ensures n >= 1
    decreases v, 0
  {
    if v.Obj? then 1 + CountAll(v.fields) else 1
  }

  function CountAll(vs: seq<Value>): nat
    decreases vs
  {
    if vs == [] then 0 else CountItems(vs[0]) + CountAll(vs[1..])
  }

  /** How a value is shown when n items were shown before it. */
  function Render(v: Value, n: nat): (out: seq<Token>)
    ensures Corrupted !in out
    decreases v, 0
  {
    [Label(ItemTag(v), n + 1)] +
    if v.Obj? then [Open] + RenderAll(v.fields, n + 1) + [Close] else [Shown(v)]
  }

  function RenderAll(vs: seq<Value>, n: nat): (out: seq<Token>)
    ensures Corrupted !in out
    decreases vs
  {
    if vs == [] then [] else Render(vs[0], n) + [Comma] + RenderAll(vs[1..], n + CountItems(vs[0]))
  }

  /** The numbers of the labels, in the order they are shown. */
  function Numbers(out: seq<Token>): seq<nat> {
    if out == [] then []
    else if out[0].Label? then [out[0].number] + Numbers(out[1..])
    else Numbers(out[1..])
  }

  function Range(from: nat, count: nat): (r: seq<nat>)
    ensures |r| == count
    ensures forall k :: 0 <= k < count ==> r[k] == from + k
    decreases count
  {
    if count == 0 then [] else [from] + Range(from + 1, count - 1)
  }

  lemma {:induction false} NumbersConcat(a: seq<Token>, b: seq<Token>)
    ensures Numbers(a + b) == Numbers(a) + Numbers(b)
  {
    if a == [] {
      assert a + b == b;
    } else {
      assert (a + b)[1..] == a[1..] + b;
      NumbersConcat(a[1..], b);
    }
  }

  /** Items are numbered one by one, an object before its fields. */
  lemma {:induction false} RenderNumbers(v: Value, n: nat)
    ensures Numbers(Render(v, n)) == Range(n + 1, CountItems(v))
    decreases v, 0
  {
    var tagged := Label(ItemTag(v), n + 1);
    if v.Obj? {
      var inside := RenderAll(v.fields, n + 1);
      RenderAllNumbers(v.fields, n + 1);
      NumbersConcat([tagged], [Open] + inside + [Close]);
      NumbersConcat([Open] + inside, [Close]);
      NumbersConcat([Open], inside);
    } else {
      NumbersConcat([tagged], [Shown(v)]);
    }
  }

  lemma {:induction false} RenderAllNumbers(vs: seq<Value>, n: nat)
    ensures Numbers(RenderAll(vs, n)) == Range(n + 1, CountAll(vs))
    decreases vs
  {
    hide Render, CountItems;
    if vs != [] {
      var first, k := Render(vs[0], n), CountItems(vs[0]);
      RenderNumbers(vs[0], n);
      RenderAllNumbers(vs[1..], n + k);
      NumbersConcat(first + [Comma], RenderAll(vs[1..], n + k));
      NumbersConcat(first, [Comma]);
    }
  }

  /** The variable that shows an item with this tag. */
  function ShownShape(tag: byte): (r: Option<Shape>) {
    if tag == STRING_TAG then Some(StrShape)
    else if ScalarOfTag(tag).Some? then Some(ScalarShape(ScalarOfTag(tag).value))
    else if ArrayOfTag(tag).Some? then Some(ArrShape(ArrayOfTag(tag).value))
    else None
  }

  lemma ShownShapeReads(s: seq<byte>, i: nat)
    requires i < |s| && ParseItem(s, i).Item? && s[i] != OBJECT_TAG
    ensures ShownShape(s[i]).Some?
    ensures ReadingAt(s, i, ShownShape(s[i]).value) == (Got(ParseItem(s, i).value), ParseItem(s, i).next)
  {
    TagsTell(s, i);
    hide ParseItem, Encode, IsItem, ItemTag, ScalarOfTag, ArrayOfTag, TagOf, ExceptionByType;
    var v := ParseItem(s, i).value;
    ShapeFromTag(v, s[i]);
    assert Reading(ShownShape(s[i]).value, v) == Got(v);
  }

  lemma ShapeFromTag(v: Value, tag: byte)
    requires !v.Obj? && tag != OBJECT_TAG && (v.Str? <==> tag == STRING_TAG)
    requires v.Scalar? ==> ScalarOfTag(tag) == Some(v.kind)
    requires v.Arr? ==> ScalarOfTag(tag).None? && ArrayOfTag(tag) == Some(v.kind)
    ensures ShownShape(tag) ==
            Some(match v
                 case Scalar(t, _) => ScalarShape(t)
                 case Arr(t, _) => ArrShape(t)
                 case _ => StrShape)
  {
    hide ScalarOfTag, ArrayOfTag;
  }

  // ---------------------------------------------------------------------------
  // Any packet
  // ---------------------------------------------------------------------------

  /**
   * What the walk gives from some index on: it comes to an end, or stops at something that is no
   * item, or reads behind the end of the packet.
   */
  datatype Show =
    | Fine(out: seq<Token>, number: nat, next: nat)
    | Stop(out: seq<Token>, number: nat)
    | Overrun

  function Behind(front: seq<Token>, w: Show): (r: Show)
    ensures r.Fine? <==> w.Fine?
    ensures r.Overrun? <==> w.Overrun?
  {
    match w
    case Fine(out, number, next) => Fine(front + out, number, next)
    case Stop(out, number) => Stop(front + out, number)
    case Overrun => Overrun
  }

  function Closed(w: Show): (r: Show)
    ensures r.Fine? <==> w.Fine?
    ensures r.Overrun? <==> w.Overrun?
  {
    if w.Fine? then Fine(w.out + [Close], w.number, w.next) else w
  }

  lemma BehindNothing(w: Show)
    ensures Behind([], w) == w
  {
  }

  lemma BehindBoth(a: seq<Token>, b: seq<Token>, w: Show)
    ensures Behind(a, Behind(b, w)) == Behind(a + b, w)
  {
  }

  /** At a tag that it knows the code reads on; at another one, or at the end, it stops. */
  function ShowOne(s: seq<byte>, i: nat, n: nat): (w: Show)
    requires i <= |s|
    ensures w.Fine? ==> i < w.next <= |s|
    decreases |s| - i, 0
  {
    if i == |s| then Stop([Label(0, n + 1)], n + 1)
    else if s[i] == OBJECT_TAG then
      if i + 2 > |s| then Overrun
      else Behind([Label(s[i], n + 1), Open], Closed(ShowFields(s, i + 2, s[i + 1], n + 1)))
    else
      match ParseItem(s, i)
      case Item(v, next) => Fine([Label(s[i], n + 1), Shown(v)], n + 1, next)
      case NoItem => if ShownShape(s[i]).Some? then Overrun else Stop([Label(s[i], n + 1)], n + 1)
  }

  function ShowFields(s: seq<byte>, i: nat, k: nat, n: nat): (w: Show)
    requires i <= |s|
    ensures w.Fine? ==> i <= w.next <= |s|
    decreases |s| - i, k + 1
  {
    if k == 0 then Fine([], n, i)
    else
      var w := ShowOne(s, i, n);
      if w.Fine? then Behind(w.out + [Comma], ShowFields(s, w.next, k - 1, w.number)) else w
  }

  function ShowAll(s: seq<byte>, i: nat, n: nat): (w: Show)
    requires i <= |s|
    decreases |s| - i
  {
    if i == |s| then Fine([], n, i)
    else
      var w := ShowOne(s, i, n);
      if w.Fine? then Behind(w.out + [Comma], ShowAll(s, w.next, w.number)) else w
  }

  /**
   * From i on, the bytes are whole values that are no objects, and whole headers of objects, one
   * after the other, at least up to a tag that is unknown. How headers and fields match is left open.
   */
  predicate Uncut(s: seq<byte>, i: nat)
    requires i <= |s|
    decreases |s| - i
  {
    i == |s| ||
    if s[i] == OBJECT_TAG then i + 2 <= |s| && Uncut(s, i + 2)
    else
      match ParseItem(s, i)
      case Item(_, next) => Uncut(s, next)
      case NoItem => ShownShape(s[i]).None?
  }

  // The walk reads behind the end of exactly the packets that are cut.

  /** The walk w from i on: it stops in front of what is cut. */
  ghost predicate StopsAtCut(w: Show, s: seq<byte>, i: nat)
    requires i <= |s| && (w.Fine? ==> w.next <= |s|)
  {
    && (w.Overrun? ==> !Uncut(s, i))
    && (w.Stop? ==> Uncut(s, i))
    && (w.Fine? ==> (Uncut(s, i) <==> Uncut(s, w.next)))
  }

  lemma {:induction false} ShowOneStopsAtCut(s: seq<byte>, i: nat, n: nat)
    requires i <= |s|
    ensures StopsAtCut(ShowOne(s, i, n), s, i)
    decreases |s| - i, 0
  {
    hide ParseItem, ShownShape;
    if i + 2 <= |s| && s[i] == OBJECT_TAG {
      ShowFieldsStopAtCut(s, i + 2, s[i + 1], n + 1);
      hide ShowFields;
    }
  }

  lemma {:induction false} ShowFieldsStopAtCut(s: seq<byte>, i: nat, k: nat, n: nat)
    requires i <= |s|
    ensures StopsAtCut(ShowFields(s, i, k, n), s, i)
    decreases |s| - i, k + 1
  {
    hide ShowOne, Uncut;
    if k > 0 {
      ShowOneStopsAtCut(s, i, n);
      var w := ShowOne(s, i, n);
      if w.Fine? {
        ShowFieldsStopAtCut(s, w.next, k - 1, w.number);
      }
    }
  }

  lemma UncutShows(s: seq<byte>, i: nat, n: nat)
    requires i <= |s| && Uncut(s, i)
    ensures var w := ShowOne(s, i, n); !w.Overrun? && (w.Fine? ==> Uncut(s, w.next))
  {
    ShowOneStopsAtCut(s, i, n);
    hide ShowOne, Uncut;
  }

  lemma UncutShowsFields(s: seq<byte>, i: nat, k: nat, n: nat)
    requires i <= |s| && Uncut(s, i)
    ensures !ShowFields(s, i, k, n).Overrun?
  {
    ShowFieldsStopAtCut(s, i, k, n);
    hide ShowFields, Uncut;
  }

  lemma {:induction false} OverrunIffCut(s: seq<byte>, i: nat, n: nat)
    requires i <= |s|
    ensures ShowAll(s, i, n).Overrun? <==> !Uncut(s, i)
    decreases |s| - i
  {
    hide ShowOne, ParseItem, ShownShape;
    if i < |s| {
      ShowOneStopsAtCut(s, i, n);
      hide Uncut;
      var w := ShowOne(s, i, n);
      if w.Fine? {
        OverrunIffCut(s, w.next, w.number);
      }
    }
  }

  // No sequence of writes leaves a packet that is cut, not even if some of them fail.

  lemma {:induction false} WriteIsUncut(s: seq<byte>, i: nat, v: Value)
    requires IsTyped(v) && StandsAt(s, i, Emitted(v))
    ensures Uncut(s, i) <==> Uncut(s, i + |Emitted(v)|)
    decreases v, 0
  {
    if v.Obj? {
      if 0 < |v.fields| <= MAX_FIELDS {
        FieldsAreUncut(s, i, v.fields);
      }
    } else if Emitted(v) != [] {
      LeafIsUncut(s, i, v);
    }
  }

  lemma LeafIsUncut(s: seq<byte>, i: nat, v: Value)
    requires IsTyped(v) && !v.Obj? && Emitted(v) != [] && StandsAt(s, i, Emitted(v))
    ensures Uncut(s, i) <==> Uncut(s, i + |Emitted(v)|)
  {
    hide Emitted, Encode, ParseItem, IsTyped, IsItem, ShownShape;
    LeafEmits(v);
    ParseItemComplete(s, i, Stripped(v));
    TagsTell(s, i);
  }

  lemma LeafEmits(v: Value)
    requires IsTyped(v) && !v.Obj? && Emitted(v) != []
    ensures IsItem(Stripped(v)) && Encode(Stripped(v)) == Emitted(v) && !Stripped(v).Obj?
  {
  }

  lemma FieldsAreUncut(s: seq<byte>, i: nat, fields: seq<Value>)
    requires (forall f | f in fields :: IsTyped(f)) && 0 < |fields| <= MAX_FIELDS
    requires StandsAt(s, i, Emitted(Obj(fields)))
    ensures Uncut(s, i) <==> Uncut(s, i + |Emitted(Obj(fields))|)
    decreases fields, 1
  {
    hide Emitted, EmittedAll, ParseItem, IsTyped, ShownShape;
    var header: seq<byte> := [OBJECT_TAG, |fields|];
    ObjectEmits(fields);
    StandsSplit(s, i, header, EmittedAll(fields));
    assert s[i] == s[i..i + 2][0];
    WritesAreUncut(s, i + 2, fields);
  }

  lemma ObjectEmits(fields: seq<Value>)
    requires (forall f | f in fields :: IsTyped(f)) && 0 < |fields| <= MAX_FIELDS
    ensures IsTyped(Obj(fields)) && Emitted(Obj(fields)) == [OBJECT_TAG, |fields|] + EmittedAll(fields)
  {
  }

  lemma {:induction false} WritesAreUncut(s: seq<byte>, i: nat, vs: seq<Value>)
    requires (forall v | v in vs :: IsTyped(v)) && StandsAt(s, i, EmittedAll(vs))
    ensures Uncut(s, i) <==> Uncut(s, i + |EmittedAll(vs)|)
    decreases vs, 0
  {
    hide Emitted, EmittedAll, Uncut, IsTyped;
    EmittedInOrder(vs);
    if vs != [] {
      var rest := if WriteErrorOf(vs[0]).Some? then [] else EmittedAll(vs[1..]);
      StandsSplit(s, i, Emitted(vs[0]), rest);
      WriteIsUncut(s, i, vs[0]);
      if WriteErrorOf(vs[0]).None? {
        WritesAreUncut(s, i + |Emitted(vs[0])|, vs[1..]);
      }
    }
  }

  lemma EmittedInOrder(vs: seq<Value>)
    requires forall v | v in vs :: IsTyped(v)
    ensures vs == [] ==> EmittedAll(vs) == []
    ensures vs != [] ==>
              EmittedAll(vs) == Emitted(vs[0]) + if WriteErrorOf(vs[0]).Some? then [] else EmittedAll(vs[1..])
  {
    hide Emitted, IsTyped;
  }

  /** The bytes of a packet after a sequence of writes: those that failed are followed by others. */
  function WrittenBy(vs: seq<Value>): (s: seq<byte>)
    requires forall v | v in vs :: IsTyped(v)
  {
    if vs == [] then [] else WrittenBy(vs[..|vs| - 1]) + Emitted(vs[|vs| - 1])
  }

  lemma {:induction false} WrittenIsUncut(s: seq<byte>, vs: seq<Value>)
    requires (forall v | v in vs :: IsTyped(v)) && WrittenBy(vs) <= s
    ensures Uncut(s, 0) <==> Uncut(s, |WrittenBy(vs)|)
  {
    hide Emitted, Uncut;
    if vs != [] {
      var before, last := WrittenBy(vs[..|vs| - 1]), vs[|vs| - 1];
      assert before + Emitted(last) <= s;
      assert s[|before|..|before + Emitted(last)|] == Emitted(last);
      WrittenIsUncut(s, vs[..|vs| - 1]);
      WriteIsUncut(s, |before|, last);
    }
  }

  /** How the operator ends. */
  function Finished(w: Show): seq<Token>
    requires !w.Overrun?
  {
    w.out + if w.Fine? then [Close] else [Corrupted]
  }

  /** What the operator prints, unless it reads behind the end. */
  function Printed(s: seq<byte>): seq<Token>
    requires Uncut(s, 0)
  {
    OverrunIffCut(s, 0, 0);
    Finished(Behind([Open], ShowAll(s, 0, 0)))
  }

  // The walk comes to the end of exactly the items of the format.

  lemma RenderOne(v: Value, n: nat)
    ensures Render(v, n) ==
            [Label(ItemTag(v), n + 1)] +
            if v.Obj? then [Open] + RenderAll(v.fields, n + 1) + [Close] else [Shown(v)]
    ensures CountItems(v) == if v.Obj? then 1 + CountAll(v.fields) else 1
  {
  }

  lemma RenderAllStep(vs: seq<Value>, n: nat)
    requires vs != []
    ensures RenderAll(vs, n) == Render(vs[0], n) + [Comma] + RenderAll(vs[1..], n + CountItems(vs[0]))
    ensures CountAll(vs) == CountItems(vs[0]) + CountAll(vs[1..])
  {
  }

  lemma RenderAllEmpty()
    ensures forall n :: RenderAll([], n) == []
    ensures CountAll([]) == 0
  {
  }

  lemma ItemsHere(s: seq<byte>, i: nat, n: nat)
    requires i <= |s| && n > 0 && ParseItems(s, i, n).Items?
    ensures i < |s| && ParseItem(s, i).Item?
    ensures var all, rest := ParseItems(s, i, n), ParseItems(s, ParseItem(s, i).next, n - 1);
            && rest.Items? && all.values[0] == ParseItem(s, i).value && all.values[1..] == rest.values
            && rest.next == all.next
  {
    if i == |s| {
      NothingAtEnd(s, i);
    }
    hide ParseItem;
  }

  /** An item is shown as its value is rendered. */
  ghost predicate ShowsItem(w: Show, r: Parsed, n: nat) {
    && (w.Fine? <==> r.Item?)
    && (r.Item? ==> w == Fine(Render(r.value, n), n + CountItems(r.value), r.next))
  }

  ghost predicate ShowsItems(w: Show, r: ParsedList, n: nat) {
    && (w.Fine? <==> r.Items?)
    && (r.Items? ==> w == Fine(RenderAll(r.values, n), n + CountAll(r.values), r.next))
  }

  lemma {:induction false} ShowOneIffItem(s: seq<byte>, i: nat, n: nat)
    requires i <= |s|
    ensures ShowsItem(ShowOne(s, i, n), ParseItem(s, i), n)
    decreases |s| - i, 0
  {
    if i == |s| {
      NothingAtEnd(s, i);
    } else if s[i] != OBJECT_TAG {
      ShowLeaf(s, i, n);
    } else {
      if i + 2 <= |s| {
        ShowFieldsIffItems(s, i + 2, s[i + 1], n + 1);
      }
      ShowObject(s, i, n);
    }
    hide ShowOne, ParseItem, ShowsItem;
  }

  lemma ShowLeaf(s: seq<byte>, i: nat, n: nat)
    requires i < |s| && s[i] != OBJECT_TAG
    ensures ShowsItem(ShowOne(s, i, n), ParseItem(s, i), n)
  {
    hide ParseItem, ShownShape;
    var r := ParseItem(s, i);
    if r.Item? {
      TagsTell(s, i);
      RenderOne(r.value, n);
    }
    hide Render, CountItems;
  }

  lemma ShowObject(s: seq<byte>, i: nat, n: nat)
    requires i < |s| && s[i] == OBJECT_TAG
    requires i + 2 <= |s| ==> ShowsItems(ShowFields(s, i + 2, s[i + 1], n + 1), ParseItems(s, i + 2, s[i + 1]), n + 1)
    ensures ShowsItem(ShowOne(s, i, n), ParseItem(s, i), n)
  {
    hide ShowFields, ParseItems;
    var r := ParseItem(s, i);
    if r.Item? {
      RenderOne(r.value, n);
      hide Render, CountItems, RenderAll, CountAll;
      assert [Label(s[i], n + 1), Open] + (RenderAll(r.value.fields, n + 1) + [Close])
          == [Label(s[i], n + 1)] + ([Open] + RenderAll(r.value.fields, n + 1) + [Close]);
    }
  }

  lemma {:induction false} ShowFieldsIffItems(s: seq<byte>, i: nat, k: nat, n: nat)
    requires i <= |s|
    ensures ShowsItems(ShowFields(s, i, k, n), ParseItems(s, i, k), n)
    decreases |s| - i, k + 1
  {
    hide ShowOne, ParseItem, Render, CountItems, RenderAll, CountAll;
    RenderAllEmpty();
    if k > 0 {
      ShowOneIffItem(s, i, n);
      var first := ParseItem(s, i);
      if first.Item? {
        var m := n + CountItems(first.value);
        ShowFieldsIffItems(s, first.next, k - 1, m);
        FieldsFollow(s, i, k, n);
      }
    }
  }

  lemma FieldsFollow(s: seq<byte>, i: nat, k: nat, n: nat)
    requires i <= |s| && k > 0 && ParseItem(s, i).Item? && ShowsItem(ShowOne(s, i, n), ParseItem(s, i), n)
    requires var first := ParseItem(s, i); var m := n + CountItems(first.value);
             ShowsItems(ShowFields(s, first.next, k - 1, m), ParseItems(s, first.next, k - 1), m)
    ensures ShowsItems(ShowFields(s, i, k, n), ParseItems(s, i, k), n)
  {
    hide ShowOne, ParseItem, Render, CountItems, RenderAll, CountAll;
    var all := ParseItems(s, i, k);
    if all.Items? {
      ItemsHere(s, i, k);
      RenderAllStep(all.values, n);
    }
  }

  lemma {:induction false} ShowAllIffGood(s: seq<byte>, i: nat, n: nat)
    requires i <= |s|
    ensures ShowAll(s, i, n).Fine? <==> ParseAll(s, i).Some?
    ensures ParseAll(s, i).Some? ==> ShowAll(s, i, n).out == RenderAll(ParseAll(s, i).value, n)
    decreases |s| - i
  {
    hide ShowOne, ParseItem, Render, CountItems, RenderAll, CountAll;
    RenderAllEmpty();
    if i < |s| {
      ShowOneIffItem(s, i, n);
      var first := ParseItem(s, i);
      if first.Item? {
        ShowAllIffGood(s, first.next, n + CountItems(first.value));
        if ParseAll(s, i).Some? {
          RenderAllStep(ParseAll(s, i).value, n);
          assert ParseAll(s, i).value[1..] == ParseAll(s, first.next).value;
        }
      }
    }
  }

  /** A good packet is shown value by value, and never reported corrupted. */
  lemma GoodIsPrinted(vs: seq<Value>)
    requires AreItems(vs)
    ensures var s := EncodeAll(vs);
            Uncut(s, 0) && Printed(s) == [Open] + RenderAll(vs, 0) + [Close]
    ensures Corrupted !in [Open] + RenderAll(vs, 0) + [Close]
  {
    var s := EncodeAll(vs);
    ParseAllComplete(s, 0, vs);
    ShowAllIffGood(s, 0, 0);
    OverrunIffCut(s, 0, 0);
  }

  /** Any other one is reported corrupted, unless it is cut. */
  lemma CorruptedIffNotGood(s: seq<byte>)
    requires Uncut(s, 0)
    ensures Printed(s)[|Printed(s)| - 1] == Corrupted <==> !IsEncoding(s)
  {
    IsEncodingIffParses(s);
    ShowAllIffGood(s, 0, 0);
    hide ShowAll, ParseAll, IsEncoding;
  }

  /** So is whatever writes leave behind, the failed ones too: the operator never reads behind the end of it. */
  lemma WrittenIsPrinted(vs: seq<Value>)
    requires forall v | v in vs :: IsTyped(v)
    ensures var s := WrittenBy(vs);
            && Uncut(s, 0) && !ShowAll(s, 0, 0).Overrun?
            && (Printed(s)[|Printed(s)| - 1] == Corrupted <==> !IsEncoding(s))
  {
    var s := WrittenBy(vs);
    WrittenIsUncut(s, vs);
    OverrunIffCut(s, 0, 0);
    CorruptedIffNotGood(s);
  }

  // ---------------------------------------------------------------------------
  // The methods
  // ---------------------------------------------------------------------------

  /** Reads the value the reader stands at with a variable of its own type, and shows it. */
  method OutputLeaf(reader: PacketReader, tag: byte) returns (ok: bool, out: seq<Token>)
    requires reader.More() && reader.AtItem() && tag == reader.NextType() != OBJECT_TAG
    modifies reader
    ensures ok
    ensures var item := ParseItem(reader.packet.data.bytes, old(reader.idx));
            out == [Shown(item.value)] && reader.idx == item.next
  {
    ShownShapeReads(reader.packet.data.bytes, reader.idx);
    hide Reading, ReadingAt, ParseItem, ShownShape;
    if ShownShape(tag).None? {
      assert false;
    }
    var r := reader.Read(ShownShape(tag).value);
    ok, out := true, [Shown(r.value)];
  }

  /** Shows the item the reader stands at, and moves the reader over it. */
  method OutputOne(reader: PacketReader, count: nat) returns (ok: bool, number: nat, out: seq<Token>)
    requires reader.idx <= |reader.packet.data.bytes| && Uncut(reader.packet.data.bytes, reader.idx)
    modifies reader
    ensures var w := ShowOne(reader.packet.data.bytes, old(reader.idx), count);
            && !w.Overrun? && (ok <==> w.Fine?) && out == w.out && number == w.number
            && (ok ==> reader.idx == w.next)
    decreases |reader.packet.data.bytes| - reader.idx, 0
  {
    hide ShowOne, ShowFields, ParseItem, ShownShape, Uncut;
    ghost var s, start := reader.packet.data.bytes, reader.idx;
    var tag := reader.NextType();
    ShowOneStep(s, start, count);
    number := count + 1;
    out := [Label(tag, number)];
    if reader.More() && tag == OBJECT_TAG {
      var fields;
      var length: nat := reader.packet.data.bytes[reader.idx + 1];
      reader.idx := reader.idx + 2;
      ok, number, fields := OutputFields(reader, number, length);
      out := out + [Open] + fields + if ok then [Close] else [];
    } else if ShownShape(tag).None? {
      ok := false;
    } else {
      var leaf;
      ok, leaf := OutputLeaf(reader, tag);
      out := out + leaf;
    }
  }

  lemma NothingHasNoShape()
    ensures ShownShape(0).None?
  {
  }

  lemma ShowOneStep(s: seq<byte>, i: nat, n: nat)
    requires i <= |s| && Uncut(s, i)
    ensures var w, tag := ShowOne(s, i, n), if i < |s| then s[i] else 0;
            if i < |s| && tag == OBJECT_TAG then
              && i + 2 <= |s| && Uncut(s, i + 2)
              && var fields := ShowFields(s, i + 2, s[i + 1], n + 1);
              && !w.Overrun? && !fields.Overrun? && w.number == fields.number
              && w.out == [Label(tag, n + 1)] + [Open] + fields.out + (if fields.Fine? then [Close] else [])
              && (w.Fine? <==> fields.Fine?) && (w.Fine? ==> w.next == fields.next)
            else if ShownShape(tag).None? then w == Stop([Label(tag, n + 1)], n + 1)
            else
              && i < |s| && ParseItem(s, i).Item?
              && w == Fine([Label(tag, n + 1)] + [Shown(ParseItem(s, i).value)], n + 1, ParseItem(s, i).next)
  {
    hide ShowFields, ParseItem, ReadingAt, ShownShape;
    NothingHasNoShape();
    UncutShows(s, i, n);
    if i < |s| && s[i] != OBJECT_TAG && ParseItem(s, i).Item? {
      ShownShapeReads(s, i);
    }
  }

  method OutputFields(reader: PacketReader, count: nat, length: nat) returns (ok: bool, number: nat, out: seq<Token>)
    requires reader.idx <= |reader.packet.data.bytes|
    requires Uncut(reader.packet.data.bytes, reader.idx)
    modifies reader
    ensures var w := ShowFields(reader.packet.data.bytes, old(reader.idx), length, count);
            && !w.Overrun? && (ok <==> w.Fine?) && out == w.out && number == w.number
            && (ok ==> reader.idx == w.next)
    decreases |reader.packet.data.bytes| - reader.idx, 1
  {
    hide *;
    ghost var s, start := reader.packet.data.bytes, reader.idx;
    ghost var whole := ShowFields(s, start, length, count);
    BehindNothing(whole);
    UncutShowsFields(s, start, length, count);
    number, out := count, [];
    var j := 0;
    while j < length
      invariant j <= length && start <= reader.idx <= |s|
      invariant Uncut(s, reader.idx)
      invariant Behind(out, ShowFields(s, reader.idx, length - j, number)) == whole
    {
      ShowFieldsStep(s, reader.idx, length - j, number, out);
      var shown;
      ok, number, shown := OutputOne(reader, number);
      if !ok {
        out := out + shown;
        return;
      }
      out := out + shown + [Comma];
      j := j + 1;
    }
    NoFieldsLeft(s, reader.idx, number, out);
    ok := true;
  }

  lemma ShowFieldsStep(s: seq<byte>, i: nat, k: nat, n: nat, out: seq<Token>)
    requires i <= |s| && k > 0 && Uncut(s, i)
    ensures var w, all := ShowOne(s, i, n), ShowFields(s, i, k, n);
            if w.Fine? then
              && Uncut(s, w.next)
              && Behind(out, all) == Behind(out + w.out + [Comma], ShowFields(s, w.next, k - 1, w.number))
            else w.Stop? && Behind(out, all) == Stop(out + w.out, w.number)
  {
    UncutShows(s, i, n);
    hide ShowOne, Uncut;
    var w := ShowOne(s, i, n);
    if w.Fine? {
      BehindBoth(out, w.out + [Comma], ShowFields(s, w.next, k - 1, w.number));
      assert out + (w.out + [Comma]) == out + w.out + [Comma];
    }
  }

  lemma NoFieldsLeft(s: seq<byte>, i: nat, n: nat, out: seq<Token>)
    requires i <= |s|
    ensures Behind(out, ShowFields(s, i, 0, n)) == Fine(out, n, i)
  {
  }

  lemma ShowAllStep(s: seq<byte>, i: nat, n: nat, out: seq<Token>)
    requires i < |s| && Uncut(s, i)
    ensures var w, all := ShowOne(s, i, n), ShowAll(s, i, n);
            if w.Fine? then
              && Uncut(s, w.next)
              && Behind(out, all) == Behind(out + w.out + [Comma], ShowAll(s, w.next, w.number))
            else w.Stop? && Behind(out, all) == Stop(out + w.out, w.number)
  {
    UncutShows(s, i, n);
    hide ShowOne, Uncut;
    var w := ShowOne(s, i, n);
    if w.Fine? {
      BehindBoth(out, w.out + [Comma], ShowAll(s, w.next, w.number));
      assert out + (w.out + [Comma]) == out + w.out + [Comma];
    }
  }

  lemma NothingLeft(s: seq<byte>, n: nat, out: seq<Token>)
    ensures Behind(out, ShowAll(s, |s|, n)) == Fine(out, n, |s|)
  {
  }

  /** Prints a packet, down to its last byte or to what is no item. */
  method Print(p: Packet) returns (out: seq<Token>)
    requires Uncut(p.data.bytes, 0)
    ensures out == Printed(p.data.bytes)
  {
    hide ShowOne, ShowAll, Behind, Uncut;
    ghost var s := p.data.bytes;
    ghost var whole := Behind([Open], ShowAll(s, 0, 0));
    OverrunIffCut(s, 0, 0);
    var reader := new PacketReader(p);
    var i := 0;
    out := [Open];
    while reader.More()
      invariant reader.packet == p && reader.idx <= |s|
      invariant Uncut(s, reader.idx)
      invariant Behind(out, ShowAll(s, reader.idx, i)) == whole
      decreases |s| - reader.idx
    {
      ShowAllStep(s, reader.idx, i, out);
      var ok, shown;
      ok, i, shown := OutputOne(reader, i);
      if !ok {
        return out + shown + [Corrupted];
      }
      out := out + shown + [Comma];
    }
    NothingLeft(s, i, out);
    out := out + [Close];
  }
}
