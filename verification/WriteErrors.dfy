/** Which values cannot be written, and what is left behind of them, told by looking at all their parts. */
module WriteErrors {
  import opened Bytes
  import opened Options
  import opened Wire
  import opened Packets

  /** A value and everything inside it, in the order of writing. */
  function Parts(v: Value): (ps: seq<Value>)
    ensures ps != [] && ps[0] == v
    decreases v, 0
  {
    [v] + if v.Obj? then PartsOfAll(v.fields) else []
  }

  function PartsOfAll(vs: seq<Value>): seq<Value>
    decreases vs
  {
    if vs == [] then [] else Parts(vs[0]) + PartsOfAll(vs[1..])
  }

  /** The first part for which there is an error is the one that is reported. */
  ghost predicate FirstOf(e: Option<WriteError>, ps: seq<Value>) {
    if e.None? then forall p | p in ps :: Refusal(p).None?
    else exists k :: FirstAt(e, ps, k)
  }

  ghost predicate FirstAt(e: Option<WriteError>, ps: seq<Value>, k: nat) {
    k < |ps| && Refusal(ps[k]) == e && forall j :: 0 <= j < k ==> Refusal(ps[j]).None?
  }

  /** The error of a value by itself, whatever is inside it. */
  function Refusal(v: Value): Option<WriteError> {
    if v.Arr? && |v.numbers| > 65535 then Some(WrongArray)
    else if v.Obj? && |v.fields| == 0 then Some(EmptyObject)
    else if v.Obj? && |v.fields| > 255 then Some(TooManyFields)
    else None
  }

  lemma NothingRefused()
    ensures FirstOf(None, [])
  {
  }

  lemma FirstConcat(e: Option<WriteError>, f: Option<WriteError>, a: seq<Value>, b: seq<Value>)
    requires FirstOf(e, a) && FirstOf(f, b)
    ensures FirstOf(if e.Some? then e else f, a + b)
  {
    hide Refusal;
    if e.Some? {
      var k: nat :| FirstAt(e, a, k);
      assert FirstAt(e, a + b, k);
    } else if f.Some? {
      var k: nat :| FirstAt(f, b, k);
      assert FirstAt(f, a + b, |a| + k);
    }
  }

  /**
   * A write fails for an array of more than 65535 elements, or an object without fields or with
   * more than 255, at any depth; the error is that of the first of them.
   */
  lemma {:induction false} FirstErrorIsReported(v: Value)
    ensures FirstOf(WriteErrorOf(v), Parts(v))
    decreases v, 0
  {
    if Refusal(v).Some? {
      assert FirstAt(WriteErrorOf(v), Parts(v), 0);
    } else {
      assert FirstOf(None, [v]);
      if v.Obj? {
        FirstErrorOfAll(v.fields);
        FirstConcat(None, FirstWriteError(v.fields), [v], PartsOfAll(v.fields));
      }
    }
  }

  lemma {:induction false} FirstErrorOfAll(vs: seq<Value>)
    ensures FirstOf(FirstWriteError(vs), PartsOfAll(vs))
    decreases vs
  {
    hide FirstOf, WriteErrorOf, Parts;
    if vs == [] {
      NothingRefused();
    } else {
      FirstErrorIsReported(vs[0]);
      FirstErrorOfAll(vs[1..]);
      FirstConcat(WriteErrorOf(vs[0]), FirstWriteError(vs[1..]), Parts(vs[0]), PartsOfAll(vs[1..]));
    }
  }

  // ---------------------------------------------------------------------------
  // The bytes that are left behind
  // ---------------------------------------------------------------------------

  lemma {:induction false} PartsAreTyped(v: Value)
    requires IsTyped(v)
    ensures forall p | p in Parts(v) :: IsTyped(p)
    decreases v, 0
  {
    if v.Obj? {
      AllPartsAreTyped(v.fields);
    }
  }

  lemma {:induction false} AllPartsAreTyped(vs: seq<Value>)
    requires forall v | v in vs :: IsTyped(v)
    ensures forall p | p in PartsOfAll(vs) :: IsTyped(p)
    decreases vs
  {
    hide IsTyped, Parts;
    if vs != [] {
      PartsAreTyped(vs[0]);
      AllPartsAreTyped(vs[1..]);
    }
  }

  /** What is written of a part before anything inside it. */
  function Head(p: Value): (s: seq<byte>)
    requires IsTyped(p) && Refusal(p).None?
  {
    if p.Obj? then [0x40, |p.fields|] else Encode(Stripped(p))
  }

  /** The parts one after the other, up to the first that is refused. */
  function Heads(ps: seq<Value>): (s: seq<byte>)
    requires forall p | p in ps :: IsTyped(p)
  {
    if ps == [] || Refusal(ps[0]).Some? then [] else Head(ps[0]) + Heads(ps[1..])
  }

  lemma {:induction false} HeadsConcat(a: seq<Value>, b: seq<Value>, e: Option<WriteError>)
    requires (forall p | p in a :: IsTyped(p)) && (forall p | p in b :: IsTyped(p)) && FirstOf(e, a)
    ensures Heads(a + b) == Heads(a) + if e.None? then Heads(b) else []
  {
    hide IsTyped, Refusal, Head;
    if a == [] {
      assert a + b == b;
    } else {
      assert (a + b)[1..] == a[1..] + b;
      if Refusal(a[0]).None? {
        if e.Some? {
          var k: nat :| FirstAt(e, a, k);
          assert Refusal(a[k]) == e;
          assert k > 0;
          assert FirstAt(e, a[1..], k - 1);
        }
        HeadsConcat(a[1..], b, e);
      }
    }
  }

  /** A write leaves behind its parts one by one, up to the first that is refused. */
  lemma {:induction false} WritesParts(v: Value)
    requires IsTyped(v)
    ensures (forall p | p in Parts(v) :: IsTyped(p)) && Emitted(v) == Heads(Parts(v))
    decreases v, 0
  {
    PartsAreTyped(v);
    if v.Obj? && Refusal(v).None? {
      WritesPartsOfAll(v.fields);
      assert Parts(v)[1..] == PartsOfAll(v.fields);
      assert Heads(Parts(v)) == Head(v) + Heads(PartsOfAll(v.fields));
    } else {
      OneHead(v);
    }
  }

  lemma OneHead(v: Value)
    requires IsTyped(v) && (!v.Obj? || Refusal(v).Some?)
    ensures Emitted(v) == if Refusal(v).Some? then [] else Head(v)
    ensures Refusal(v).None? ==> Parts(v) == [v] && Heads([v]) == Head(v)
  {
    if Refusal(v).None? {
      assert Head(v) + [] == Head(v);
    }
  }

  lemma {:induction false} WritesPartsOfAll(vs: seq<Value>)
    requires forall v | v in vs :: IsTyped(v)
    ensures (forall p | p in PartsOfAll(vs) :: IsTyped(p)) && EmittedAll(vs) == Heads(PartsOfAll(vs))
    decreases vs
  {
    hide IsTyped, Emitted, Parts, FirstOf, Refusal, WriteErrorOf;
    AllPartsAreTyped(vs);
    if vs != [] {
      WritesParts(vs[0]);
      FirstErrorIsReported(vs[0]);
      AllPartsAreTyped(vs[1..]);
      HeadsConcat(Parts(vs[0]), PartsOfAll(vs[1..]), WriteErrorOf(vs[0]));
      WritesPartsOfAll(vs[1..]);
    }
  }
}
