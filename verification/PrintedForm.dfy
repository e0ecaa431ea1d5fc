/** What the printer shows, read from the outside: the order of the tokens, and the values in them. */
module PrintedForm {
  import opened Bytes
  import opened Options
  import opened Wire
  import opened Readers
  import opened Printing

  // ---------------------------------------------------------------------------
  // The order of the tokens, for any packet
  // ---------------------------------------------------------------------------

  /** No item of the format begins with this tag. */
  ghost predicate IsUnknown(tag: byte) {
    forall v | IsItem(v) :: Encode(v)[0] != tag
  }

  /** Which token may stand behind another one. */
  ghost predicate MayFollow(a: Token, b: Token) {
    match a
    case Label(tag, _) =>
      || (tag == 0x40 && b == Open)
      || (b.Shown? && !b.value.Obj? && IsItem(b.value) && Encode(b.value)[0] == tag)
      || (IsUnknown(tag) && b == Corrupted)
    case Shown(_) | Close => b == Comma
    case Open | Comma => b.Label? || b == Close
    case Corrupted => false
  }

  ghost predicate Chained(out: seq<Token>) {
    forall k :: 0 < k < |out| ==> MayFollow(out[k - 1], out[k])
  }

  lemma ChainedConcat(a: seq<Token>, b: seq<Token>)
    requires Chained(a) && Chained(b)
    requires a != [] && b != [] ==> MayFollow(a[|a| - 1], b[0])
    ensures Chained(a + b)
  {
    hide MayFollow;
    forall k | 0 < k < |a + b| ensures MayFollow((a + b)[k - 1], (a + b)[k]) {
      if k > |a| {
        assert MayFollow(b[k - |a| - 1], b[k - |a|]);
      }
    }
  }

  lemma UnknownHasNoShape(tag: byte)
    requires tag != OBJECT_TAG && ShownShape(tag).None?
    ensures IsUnknown(tag)
  {
    forall v | IsItem(v) ensures Encode(v)[0] != tag {
      assert Encode(v)[0] == ItemTag(v);
    }
  }

  ghost predicate EndsUnknown(out: seq<Token>) {
    out != [] && out[|out| - 1].Label? && IsUnknown(out[|out| - 1].tag)
  }

  /** One item: a label first, and a value or a closing brace last. */
  ghost predicate IsFormed(w: Show) {
    w.Overrun? ||
    (&& w.out != [] && w.out[0].Label? && Chained(w.out)
     && if w.Fine? then w.out[|w.out| - 1].Shown? || w.out[|w.out| - 1] == Close else EndsUnknown(w.out))
  }

  /** Some items, each with a comma behind it. */
  ghost predicate AreFormed(w: Show) {
    w.Overrun? ||
    (&& (w.out != [] ==> w.out[0].Label?) && Chained(w.out)
     && if w.Fine? then w.out != [] ==> w.out[|w.out| - 1] == Comma else EndsUnknown(w.out))
  }

  lemma {:induction false} ShowOneIsFormed(s: seq<byte>, i: nat, n: nat)
    requires i <= |s|
    ensures IsFormed(ShowOne(s, i, n))
    decreases |s| - i, 0
  {
    if i < |s| && s[i] == OBJECT_TAG {
      if i + 2 <= |s| {
        ShowFieldsAreFormed(s, i + 2, s[i + 1], n + 1);
        ObjectIsFormed(s[i], n + 1, ShowFields(s, i + 2, s[i + 1], n + 1));
      }
      hide *;
    } else {
      LeafIsFormed(s, i, n);
      hide *;
    }
  }

  lemma LeafIsFormed(s: seq<byte>, i: nat, n: nat)
    requires i <= |s| && (i < |s| ==> s[i] != OBJECT_TAG)
    ensures IsFormed(ShowOne(s, i, n))
  {
    hide ParseItem, ShownShape, Encode, IsItem;
    if i == |s| {
      NothingHasNoShape();
      UnknownHasNoShape(0);
    } else if ParseItem(s, i).Item? {
      TagsTell(s, i);
      ParseItemSound(s, i);
    } else if ShownShape(s[i]).None? {
      UnknownHasNoShape(s[i]);
    }
  }

  lemma ObjectIsFormed(tag: byte, number: nat, w: Show)
    requires AreFormed(w) && tag == OBJECT_TAG
    ensures IsFormed(Behind([Label(tag, number), Open], Closed(w)))
  {
    if !w.Overrun? {
      ChainedConcat([Label(tag, number), Open], w.out);
      if w.Fine? {
        ChainedConcat([Label(tag, number), Open] + w.out, [Close]);
        assert [Label(tag, number), Open] + w.out + [Close] == [Label(tag, number), Open] + (w.out + [Close]);
      }
    }
  }

  lemma FirstIsFormed(w: Show, rest: Show)
    requires IsFormed(w) && AreFormed(rest) && w.Fine?
    ensures AreFormed(Behind(w.out + [Comma], rest))
  {
    ChainedConcat(w.out, [Comma]);
    if !rest.Overrun? {
      ChainedConcat(w.out + [Comma], rest.out);
    }
  }

  lemma {:induction false} ShowFieldsAreFormed(s: seq<byte>, i: nat, k: nat, n: nat)
    requires i <= |s|
    ensures AreFormed(ShowFields(s, i, k, n))
    decreases |s| - i, k + 1
  {
    hide ShowOne, IsFormed;
    if k > 0 {
      ShowOneIsFormed(s, i, n);
      var w := ShowOne(s, i, n);
      if w.Fine? {
        ShowFieldsAreFormed(s, w.next, k - 1, w.number);
        FirstIsFormed(w, ShowFields(s, w.next, k - 1, w.number));
        hide AreFormed;
      } else {
        OneIsMany(w);
      }
    }
  }

  lemma OneIsMany(w: Show)
    requires IsFormed(w) && !w.Fine?
    ensures AreFormed(w)
  {
  }

  lemma {:induction false} ShowAllIsFormed(s: seq<byte>, i: nat, n: nat)
    requires i <= |s|
    ensures AreFormed(ShowAll(s, i, n))
    decreases |s| - i
  {
    hide ShowOne, IsFormed;
    if i < |s| {
      ShowOneIsFormed(s, i, n);
      var w := ShowOne(s, i, n);
      if w.Fine? {
        ShowAllIsFormed(s, w.next, w.number);
        FirstIsFormed(w, ShowAll(s, w.next, w.number));
        hide AreFormed;
      } else {
        OneIsMany(w);
      }
    }
  }

  lemma BracesAreChained(w: Show)
    requires AreFormed(w) && !w.Overrun?
    ensures Chained([Open] + w.out + if w.Fine? then [Close] else [Corrupted])
  {
    ChainedConcat([Open], w.out);
    ChainedConcat([Open] + w.out, if w.Fine? then [Close] else [Corrupted]);
  }

  /**
   * Every label is followed by the value it announces, by the brace of an object, or, when its tag is
   * unknown, by the report; every value and every object by a comma.
   */
  lemma PrintedIsChained(s: seq<byte>)
    requires Uncut(s, 0)
    ensures Chained(Printed(s)) && Printed(s)[0] == Open
  {
    hide ShowAll, Uncut;
    OverrunIffCut(s, 0, 0);
    ShowAllIsFormed(s, 0, 0);
    BracesAreChained(ShowAll(s, 0, 0));
  }

  // ---------------------------------------------------------------------------
  // The numbers of the labels, for any packet
  // ---------------------------------------------------------------------------

  /** The labels of a walk that n items precede go on from n one by one, up to the number it ends with. */
  ghost predicate GoesOn(w: Show, n: nat) {
    w.Overrun? || (n <= w.number && Numbers(w.out) == Range(n + 1, w.number - n))
  }

  lemma RangeConcat(from: nat, a: nat, b: nat)
    ensures Range(from, a) + Range(from + a, b) == Range(from, a + b)
  {
  }

  lemma NumbersOfOne(t: Token)
    ensures Numbers([t]) == if t.Label? then [t.number] else []
  {
  }

  lemma ObjectGoesOn(tag: byte, n: nat, w: Show)
    requires GoesOn(w, n + 1)
    ensures GoesOn(Behind([Label(tag, n + 1), Open], Closed(w)), n)
  {
    hide Numbers, Range;
    var head := [Label(tag, n + 1), Open];
    NumbersConcat([Label(tag, n + 1)], [Open]);
    assert [Label(tag, n + 1)] + [Open] == head;
    NumbersOfOne(Label(tag, n + 1));
    NumbersOfOne(Open);
    NumbersOfOne(Close);
    if !w.Overrun? {
      NumbersConcat(w.out, [Close]);
      NumbersConcat(head, Closed(w).out);
      RangeConcat(n + 1, 1, w.number - (n + 1));
    }
  }

  lemma FirstGoesOn(w: Show, n: nat, rest: Show)
    requires w.Fine? && GoesOn(w, n) && GoesOn(rest, w.number)
    ensures GoesOn(Behind(w.out + [Comma], rest), n)
  {
    hide Numbers, Range;
    NumbersOfOne(Comma);
    NumbersConcat(w.out, [Comma]);
    if !rest.Overrun? {
      NumbersConcat(w.out + [Comma], rest.out);
      RangeConcat(n + 1, w.number - n, rest.number - w.number);
    }
  }

  lemma {:induction false} ShowOneGoesOn(s: seq<byte>, i: nat, n: nat)
    requires i <= |s|
    ensures GoesOn(ShowOne(s, i, n), n)
    decreases |s| - i, 0
  {
    if i + 2 <= |s| && s[i] == OBJECT_TAG {
      ShowFieldsGoOn(s, i + 2, s[i + 1], n + 1);
      ObjectGoesOn(s[i], n, ShowFields(s, i + 2, s[i + 1], n + 1));
      hide GoesOn;
    } else {
      LeafGoesOn(s, i, n);
    }
  }

  lemma LeafGoesOn(s: seq<byte>, i: nat, n: nat)
    requires i <= |s| && !(i + 2 <= |s| && s[i] == OBJECT_TAG)
    ensures GoesOn(ShowOne(s, i, n), n)
  {
    hide ParseItem, ShownShape, ShowFields;
    var tagged := Label(if i < |s| then s[i] else 0, n + 1);
    NumbersOfOne(tagged);
    if i < |s| && ParseItem(s, i).Item? {
      var shown := Shown(ParseItem(s, i).value);
      NumbersOfOne(shown);
      NumbersConcat([tagged], [shown]);
      assert [tagged] + [shown] == [tagged, shown];
    }
  }

  lemma {:induction false} ShowFieldsGoOn(s: seq<byte>, i: nat, k: nat, n: nat)
    requires i <= |s|
    ensures GoesOn(ShowFields(s, i, k, n), n)
    decreases |s| - i, k + 1
  {
    hide ShowOne;
    if k > 0 {
      ShowOneGoesOn(s, i, n);
      var w := ShowOne(s, i, n);
      if w.Fine? {
        ShowFieldsGoOn(s, w.next, k - 1, w.number);
        FirstGoesOn(w, n, ShowFields(s, w.next, k - 1, w.number));
        hide GoesOn;
      }
    }
  }

  lemma {:induction false} ShowAllGoesOn(s: seq<byte>, i: nat, n: nat)
    requires i <= |s|
    ensures GoesOn(ShowAll(s, i, n), n)
    decreases |s| - i
  {
    hide ShowOne;
    if i < |s| {
      ShowOneGoesOn(s, i, n);
      var w := ShowOne(s, i, n);
      if w.Fine? {
        ShowAllGoesOn(s, w.next, w.number);
        FirstGoesOn(w, n, ShowAll(s, w.next, w.number));
        hide GoesOn;
      }
    }
  }

  /** The labels run from one on, one by one, also in a packet that is reported corrupted. */
  lemma PrintedIsNumbered(s: seq<byte>)
    requires Uncut(s, 0)
    ensures var numbers := Numbers(Printed(s)); numbers == Range(1, |numbers|)
  {
    hide ShowAll, Uncut, Numbers;
    OverrunIffCut(s, 0, 0);
    ShowAllGoesOn(s, 0, 0);
    var w := ShowAll(s, 0, 0);
    var last := if w.Fine? then Close else Corrupted;
    NumbersOfOne(Open);
    NumbersOfOne(last);
    NumbersConcat([Open] + w.out, [last]);
    NumbersConcat([Open], w.out);
  }

  // ---------------------------------------------------------------------------
  // The values in the tokens
  // ---------------------------------------------------------------------------

  /** Reads one token. A brace opens a list of fields; closing it makes an object of them. */
  function Built(t: Token, lists: seq<seq<Value>>): seq<seq<Value>> {
    var d := |lists|;
    match t
    case Open => lists + [[]]
    case Shown(v) => if d == 0 then [] else lists[..d - 1] + [lists[d - 1] + [v]]
    case Close => if d < 2 then [] else lists[..d - 2] + [lists[d - 2] + [Obj(lists[d - 1])]]
    case _ => lists
  }

  /** Reads tokens from left to right. */
  function Build(out: seq<Token>, lists: seq<seq<Value>>): seq<seq<Value>> {
    if out == [] then lists else Build(out[1..], Built(out[0], lists))
  }

  lemma {:induction false} BuildConcat(a: seq<Token>, b: seq<Token>, lists: seq<seq<Value>>)
    ensures Build(a + b, lists) == Build(b, Build(a, lists))
  {
    hide Built;
    if a == [] {
      assert a + b == b;
    } else {
      assert (a + b)[1..] == a[1..] + b;
      BuildConcat(a[1..], b, Built(a[0], lists));
    }
  }

  lemma BuildOne(t: Token, lists: seq<seq<Value>>)
    ensures Build([t], lists) == Built(t, lists)
  {
    hide Built;
  }

  lemma BuildTwo(t: Token, u: Token, lists: seq<seq<Value>>)
    ensures Build([t, u], lists) == Built(u, Built(t, lists))
  {
    hide Built;
    BuildOne(u, Built(t, lists));
    assert [t, u][1..] == [u];
  }

  /** What is built from a value that was shown is the value. */
  lemma {:induction false} RenderBuilds(v: Value, n: nat, lists: seq<seq<Value>>, top: seq<Value>)
    ensures Build(Render(v, n), lists + [top]) == lists + [top + [v]]
    decreases v, 0
  {
    hide Build, Render, CountItems;
    RenderOne(v, n);
    var tagged := Label(ItemTag(v), n + 1);
    if v.Obj? {
      var inside := RenderAll(v.fields, n + 1);
      RenderAllBuilds(v.fields, n + 1, lists + [top], []);
      assert [] + v.fields == v.fields;
      assert Render(v, n) == [tagged, Open] + inside + [Close];
      BuildConcat([tagged, Open] + inside, [Close], lists + [top]);
      BuildConcat([tagged, Open], inside, lists + [top]);
      BuildTwo(tagged, Open, lists + [top]);
      BuildOne(Close, lists + [top] + [v.fields]);
    } else {
      assert Render(v, n) == [tagged, Shown(v)];
      BuildTwo(tagged, Shown(v), lists + [top]);
    }
  }

  lemma {:induction false} RenderAllBuilds(vs: seq<Value>, n: nat, lists: seq<seq<Value>>, top: seq<Value>)
    ensures Build(RenderAll(vs, n), lists + [top]) == lists + [top + vs]
    decreases vs
  {
    hide Render, CountItems, RenderAll, Built;
    if vs == [] {
      RenderAllEmpty();
      assert top + vs == top;
    } else {
      RenderAllStep(vs, n);
      var first, m := Render(vs[0], n), n + CountItems(vs[0]);
      var more := top + [vs[0]];
      RenderBuilds(vs[0], n, lists, top);
      RenderAllBuilds(vs[1..], m, lists, more);
      BuildConcat(first + [Comma], RenderAll(vs[1..], m), lists + [top]);
      BuildConcat(first, [Comma], lists + [top]);
      CommaIsSkipped(lists + [more]);
      assert more + vs[1..] == top + vs;
    }
  }

  lemma CommaIsSkipped(lists: seq<seq<Value>>)
    ensures Build([Comma], lists) == lists
  {
    BuildOne(Comma, lists);
  }

  lemma CloseMakesObject(none: seq<Value>, vs: seq<Value>)
    requires none == []
    ensures Build([Close], [none] + [vs]) == [[Obj(vs)]]
  {
    var lists := [none] + [vs];
    BuildOne(Close, lists);
    assert none + [Obj(vs)] == [Obj(vs)];
    assert lists[..0] + [lists[0] + [Obj(lists[1])]] == [[Obj(vs)]];
  }

  /** From what is printed of a good packet, the values in it can be read back. */
  lemma PrintedTellsValues(vs: seq<Value>)
    requires AreItems(vs)
    ensures Uncut(EncodeAll(vs), 0) && Build(Printed(EncodeAll(vs)), [[]]) == [[Obj(vs)]]
  {
    hide Render, RenderAll, Uncut, Printed, AreItems, EncodeAll, Build;
    GoodIsPrinted(vs);
    var inside, none: seq<Value> := RenderAll(vs, 0), [];
    RenderAllBuilds(vs, 0, [none], none);
    assert none + vs == vs;
    BuildConcat([Open] + inside, [Close], [none]);
    BuildConcat([Open], inside, [none]);
    BuildOne(Open, [none]);
    CloseMakesObject(none, vs);
  }
}
