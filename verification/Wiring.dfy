/** What the links of a listener make of the machine of threads and queues. */
module Wiring {
  import Options
  import Routing
  import Delivery

  /** The order of names in the maps of the library. */
  predicate Less(a: Routing.Name, b: Routing.Name) {
    b != "" && (a == "" || a[0] < b[0] || (a[0] == b[0] && Less(a[1..], b[1..])))
  }

  /** Names are numbered in their order. */
  ghost predicate Numbers(names: set<Routing.Name>, number: Routing.Name -> nat) {
    forall a, b | a in names && b in names && Less(a, b) :: number(a) < number(b)
  }

  lemma {:induction false} LessIsTotal(a: Routing.Name, b: Routing.Name)
    requires a != b
    ensures Less(a, b) || Less(b, a)
  {
    if a != "" && b != "" && a[0] == b[0] {
      assert a == [a[0]] + a[1..] && b == [b[0]] + b[1..];
      LessIsTotal(a[1..], b[1..]);
    }
  }

  lemma {:induction false} LessIsStrict(a: Routing.Name, b: Routing.Name)
    ensures !(Less(a, b) && Less(b, a))
  {
    if a != "" && b != "" && a[0] == b[0] {
      LessIsStrict(a[1..], b[1..]);
    }
  }

  /** They part at a letter, in front of which they are the same. */
  predicate PartAt(a: Routing.Name, b: Routing.Name, k: nat) {
    k < |a| && k < |b| && a[..k] == b[..k] && a[k] < b[k]
  }

  /** A name comes in front of the longer ones that it begins, and else the first letter that differs decides. */
  lemma {:induction false} LessIff(a: Routing.Name, b: Routing.Name)
    ensures Less(a, b) <==> a < b || exists k: nat :: PartAt(a, b, k)
  {
    if a == "" || b == "" {
    } else if a[0] != b[0] {
      assert a[..0] == b[..0];
      assert a[0] < b[0] ==> PartAt(a, b, 0);
      assert forall k: nat :: PartAt(a, b, k) && k > 0 ==> a[..k][0] == b[..k][0];
    } else {
      var c, d := a[1..], b[1..];
      LessIff(c, d);
      assert a == [a[0]] + c && b == [b[0]] + d;
      assert a < b <==> c < d;
      if k: nat :| PartAt(c, d, k) {
        assert a[..k + 1] == [a[0]] + c[..k] && b[..k + 1] == [b[0]] + d[..k];
        assert PartAt(a, b, k + 1);
      }
      if k: nat :| PartAt(a, b, k) {
        assert c[..k - 1] == a[..k][1..] && d[..k - 1] == b[..k][1..];
        assert PartAt(c, d, k - 1);
      }
    }
  }

  /** The pass over the queues of events goes through the names in their order. */
  lemma NumbersIff(names: set<Routing.Name>, number: Routing.Name -> nat, a: Routing.Name, b: Routing.Name)
    requires Numbers(names, number) && a in names && b in names
    ensures number(a) < number(b) <==> Less(a, b)
    ensures number(a) == number(b) <==> a == b
  {
    LessIsStrict(a, b);
    if a != b {
      LessIsTotal(a, b);
    }
  }

  /** The names that the slots and the links of a listener speak of. */
  ghost predicate Covers(names: set<Routing.Name>, l: Routing.Listener)
    reads l, l.consumers
  {
    && l.links.Keys <= names
    && forall c | c in l.consumers :: c.slots.Keys <= names
  }

  /** The machine of a listener: the filled slots of its consumers, in any order, and the hidden names. */
  ghost predicate Describes(cfg: Delivery.Config, l: Routing.Listener, names: set<Routing.Name>,
          number: Routing.Name -> nat)
    reads l, l.consumers
  {
    && Numbers(names, number) && Covers(names, l)
    && |cfg.slots| == |l.consumers|
    && (forall c, name | 0 <= c < |l.consumers| && name in names ::
          number(name) in cfg.slots[c] <==> l.consumers[c].Fills(Routing.Named(name)))
    && (forall c, n | 0 <= c < |l.consumers| && n in cfg.slots[c] :: exists name :: name in names && number(name) == n)
    && (forall name | name in names :: number(name) in cfg.hidden <==> l.Hides(name))
    && (forall c: nat | c < |l.consumers| :: cfg.onEvent == Options.Some(c) <==> l.consumers[c].onEvent)
    && (forall c: nat | c < |l.consumers| :: cfg.onDisconnect == Options.Some(c) <==> l.consumers[c].onDisconnect)
  }

  /** Once the listener has started, no two consumers take from the same queue. */
  lemma StartedIsWellFormed(cfg: Delivery.Config, l: Routing.Listener, names: set<Routing.Name>,
          number: Routing.Name -> nat)
    requires Describes(cfg, l, names, number) && l.Valid() && l.Routed()
    ensures Delivery.WellFormed(cfg)
  {
    forall c, d, i | 0 <= c < |cfg.slots| && 0 <= d < |cfg.slots| && 0 <= i < |cfg.slots[c]|
                     && cfg.slots[c][i] in cfg.slots[d]
      ensures c == d
    {
      var name :| name in names && number(name) == cfg.slots[c][i];
      assert l.consumers[c].Fills(Routing.Named(name)) && l.consumers[d].Fills(Routing.Named(name));
      assert l.Link(Routing.Named(name)) == l.consumers[c] == l.consumers[d];
    }
  }

  lemma FilledIsLinked(cfg: Delivery.Config, l: Routing.Listener, names: set<Routing.Name>,
          number: Routing.Name -> nat, name: Routing.Name)
    requires Describes(cfg, l, names, number) && l.Routed() && name in names
    ensures Delivery.Filled(cfg, number(name)) <==> l.Link(Routing.Named(name)) != null
    ensures Delivery.Bound(cfg, number(name)) <==> name in l.links
  {
    if l.Link(Routing.Named(name)) != null {
      var i :| 0 <= i < |l.consumers| && l.consumers[i] == l.Link(Routing.Named(name));
      assert l.consumers[i].Fills(Routing.Named(name));
      assert number(name) in cfg.slots[i];
    }
    if Delivery.Filled(cfg, number(name)) {
      var i :| 0 <= i < |cfg.slots| && number(name) in cfg.slots[i];
      assert l.consumers[i].Fills(Routing.Named(name));
    }
  }

  /** The consumer that takes from a queue, in the machine, is the one that drains it. */
  lemma TakesIffDrains(cfg: Delivery.Config, l: Routing.Listener, names: set<Routing.Name>,
          number: Routing.Name -> nat, c: nat, name: Routing.Name)
    requires Describes(cfg, l, names, number) && l.Routed() && c < |l.consumers| && name in names
    ensures Delivery.Takes(cfg, c, Delivery.Named(number(name))) <==> l.Drains(l.consumers[c], name)
  {
    FilledIsLinked(cfg, l, names, number, name);
    assert number(name) in cfg.slots[c] <==> l.consumers[c].Fills(Routing.Named(name));
  }

  /** The one that is woken up in the machine is the one that is linked, for events and for disconnections. */
  lemma IsNotifiedIffLinked(cfg: Delivery.Config, l: Routing.Listener, names: set<Routing.Name>,
          number: Routing.Name -> nat, c: nat, name: Routing.Name)
    requires Describes(cfg, l, names, number) && l.Valid() && l.Routed() && c < |l.consumers| && name in names
    ensures Delivery.IsNotified(cfg, c, Delivery.Named(number(name))) <==> l.Notified(name) == l.consumers[c]
    ensures Delivery.IsNotified(cfg, c, Delivery.Disconnected) <==> l.onDisconnectLink == l.consumers[c]
  {
    FilledIsLinked(cfg, l, names, number, name);
    var d := l.consumers[c];
    assert number(name) in cfg.slots[c] <==> d.Fills(Routing.Named(name));
    assert d.Fills(Routing.Named(name)) ==> l.Link(Routing.Named(name)) == d;
    assert d.Fills(Routing.OnEvent) <==> l.Link(Routing.OnEvent) == d;
    assert d.Fills(Routing.OnDisconnect) <==> l.Link(Routing.OnDisconnect) == d;
    if l.Notified(name) == d && l.Link(Routing.Named(name)) != null {
      assert l.Link(Routing.Named(name)).Fills(Routing.Named(name));
    }
  }

  // ---------------------------------------------------------------------------
  // Every listener that has started has a machine
  // ---------------------------------------------------------------------------

  lemma {:induction false} LessIsTransitive(a: Routing.Name, b: Routing.Name, c: Routing.Name)
    requires Less(a, b) && Less(b, c)
    ensures Less(a, c)
  {
    if a != "" && b[0] == a[0] && c[0] == b[0] {
      LessIsTransitive(a[1..], b[1..], c[1..]);
    }
  }

  /** The names in front of one: their number is its place. */
  ghost function Before(names: set<Routing.Name>, a: Routing.Name): set<Routing.Name> {
    set n | n in names && Less(n, a)
  }

  lemma SmallerIsLess<T>(a: set<T>, b: set<T>)
    requires a < b
    ensures |a| < |b|
  {
    assert b == a + (b - a);
    assert b - a != {};
  }

  lemma PlacesNumber(names: set<Routing.Name>) returns (number: Routing.Name -> nat)
    ensures Numbers(names, number)
  {
    number := name => |Before(names, name)|;
    forall a, b | a in names && b in names && Less(a, b) ensures number(a) < number(b) {
      forall n | n in Before(names, a) ensures n in Before(names, b) {
        LessIsTransitive(n, a, b);
      }
      LessIsStrict(a, a);
      assert a in Before(names, b) && a !in Before(names, a);
      SmallerIsLess(Before(names, a), Before(names, b));
    }
  }

  lemma {:induction false} Listed(s: set<nat>) returns (q: seq<nat>)
    ensures forall n :: n in q <==> n in s
    decreases |s|
  {
    if s == {} {
      q := [];
    } else {
      var n :| n in s;
      q := Listed(s - {n});
      q := q + [n];
    }
  }

  /** The numbers of the names that a consumer fills. */
  ghost function FilledNumbers(c: Routing.Consumer, names: set<Routing.Name>, number: Routing.Name -> nat): set<nat>
    reads c
  {
    set name | name in names && c.Fills(Routing.Named(name)) :: number(name)
  }

  lemma {:induction false} SlotsListed(consumers: seq<Routing.Consumer>, names: set<Routing.Name>,
          number: Routing.Name -> nat)
    returns (slots: seq<seq<nat>>)
    ensures |slots| == |consumers|
    ensures forall c, n | 0 <= c < |slots| :: n in slots[c] <==> n in FilledNumbers(consumers[c], names, number)
  {
    if consumers == [] {
      slots := [];
    } else {
      var last := |consumers| - 1;
      slots := SlotsListed(consumers[..last], names, number);
      var q := Listed(FilledNumbers(consumers[last], names, number));
      slots := slots + [q];
    }
  }

  /** The one consumer, if any, that fills a slot without a name. */
  lemma OnlyFiller(l: Routing.Listener, key: Routing.SlotKey) returns (f: Options.Option<nat>)
    requires l.Valid() && l.Routed()
    ensures forall c: nat | c < |l.consumers| :: f == Options.Some(c) <==> l.consumers[c].Fills(key)
  {
    if c: nat :| c < |l.consumers| && l.consumers[c].Fills(key) {
      f := Options.Some(c);
      forall d: nat | d < |l.consumers| && l.consumers[d].Fills(key) ensures d == c {
        assert l.consumers[d] == l.Link(key) == l.consumers[c];
      }
    } else {
      f := Options.None;
    }
  }

  /**
   * Every listener whose links are in place has a machine, with the queues as long as one likes; its names are
   * just those of its slots and links.
   */
  lemma EveryListenerIsDescribed(l: Routing.Listener, max: nat)
    returns (cfg: Delivery.Config, names: set<Routing.Name>, number: Routing.Name -> nat)
    requires l.Valid() && l.Routed()
    ensures Describes(cfg, l, names, number) && cfg.max == max
    ensures names == l.links.Keys + set c, name | c in l.consumers && name in c.slots :: name
  {
    names := l.links.Keys + set c, name | c in l.consumers && name in c.slots :: name;
    number := PlacesNumber(names);
    var slots := SlotsListed(l.consumers, names, number);
    var hidden := set name | name in names && l.Hides(name) :: number(name);
    var onEvent := OnlyFiller(l, Routing.OnEvent);
    var onDisconnect := OnlyFiller(l, Routing.OnDisconnect);
    cfg := Delivery.Config(max, slots, hidden, onEvent, onDisconnect);
    forall a, b | a in names && b in names && number(a) == number(b) ensures a == b {
      NumbersIff(names, number, a, b);
    }
  }
}
