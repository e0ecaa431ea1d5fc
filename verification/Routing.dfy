/** Which consumer is told about an event, and which one takes it from its queue. */
module Routing {

  type Name = string

  datatype SlotKey = OnDisconnect | OnServerDisconnect | OnEvent | Named(name: Name)

  /** A consumer, with its slots: whether a function was set in each of them. */
  class Consumer {
    var onDisconnect: bool
    var onServerDisconnect: bool
    var onEvent: bool
    var slots: map<Name, bool>
    var running: bool

    constructor ()
      ensures slots == map[] && !onDisconnect && !onServerDisconnect && !onEvent && !running
    {
      onDisconnect, onServerDisconnect, onEvent, running := false, false, false, false;
      slots := map[];
    }

    predicate Fills(key: SlotKey)
      reads this
    {
      match key
      case OnDisconnect => onDisconnect
      case OnServerDisconnect => onServerDisconnect
      case OnEvent => onEvent
      case Named(name) => name in slots && slots[name]
    }

    /** Removes the empty slots, while going through them. */
    method CleanSlots()
      modifies this`slots
      ensures slots == map name | name in old(slots) && old(slots)[name] :: true
      ensures forall key :: Fills(key) == old(Fills(key))
    {
      var left := slots.Keys;
      while left != {}
        invariant left <= slots.Keys <= old(slots).Keys
        invariant forall name | name in slots :: slots[name] == old(slots)[name] && (name in left || slots[name])
        invariant forall name | name in old(slots) && old(slots)[name] :: name in slots
        decreases left
      {
        var name :| name in left;
        left := left - {name};
        if !slots[name] {
          slots := slots - {name};
        }
      }
    }

    /** Starts the consumer, without its empty slots, unless it runs. */
    method Run() returns (ok: bool)
      modifies this`slots, this`running
      ensures ok == !old(running) && running
      ensures slots == if ok then map name | name in old(slots) && old(slots)[name] :: true else old(slots)
      ensures forall key :: Fills(key) == old(Fills(key))
    {
      if running {
        return false;
      }
      CleanSlots();
      running := true;
      return true;
    }
  }

  datatype RunResult = Started | PollerAddFailed | EventCollision | AlreadyRunning

  class Listener {
    var consumers: seq<Consumer>
    var running: bool
    var onDisconnectLink: Consumer?
    var onServerDisconnectLink: Consumer?
    var onEventLink: Consumer?
    var links: map<Name, Consumer?>

    constructor ()
      ensures Valid() && consumers == [] && !running
    {
      consumers, running := [], false;
      onDisconnectLink, onServerDisconnectLink, onEventLink := null, null, null;
      links := map[];
    }

    /** The consumer that is linked to a slot. */
    function Link(key: SlotKey): Consumer?
      reads this`onDisconnectLink, this`onServerDisconnectLink, this`onEventLink, this`links
    {
      match key
      case OnDisconnect => onDisconnectLink
      case OnServerDisconnect => onServerDisconnectLink
      case OnEvent => onEventLink
      case Named(name) => if name in links then links[name] else null
    }

    ghost predicate NoLinks()
      reads this`onDisconnectLink, this`onServerDisconnectLink, this`onEventLink, this`links
    {
      links == map[] && forall key :: Link(key) == null
    }

    /** No consumer is registered twice, and there are no links but while running. */
    ghost predicate Valid()
      reads this
    {
      && (forall i, j | 0 <= i < j < |consumers| :: consumers[i] != consumers[j])
      && (!running ==> NoLinks())
    }

    method AddConsumer(c: Consumer) returns (ok: bool)
      requires Valid()
      modifies this`consumers
      ensures Valid() && ok == !running
      ensures consumers == if ok && c !in old(consumers) then old(consumers) + [c] else old(consumers)
    {
      if running {
        return false;
      }
      if c !in consumers {
        consumers := consumers + [c];
      }
      return true;
    }

    method ClearConsumerLinks()
      modifies this`onDisconnectLink, this`onServerDisconnectLink, this`onEventLink, this`links
      ensures NoLinks()
    {
      onDisconnectLink, onServerDisconnectLink, onEventLink := null, null, null;
      links := map[];
    }

    /** Links a slot, if it is filled. A named slot gets an entry among the links even if it is empty. */
    method LinkSlot(c: Consumer, key: SlotKey) returns (ok: bool)
      modifies this`onDisconnectLink, this`onServerDisconnectLink, this`onEventLink, this`links
      ensures ok <==> !c.Fills(key) || old(Link(key)) == null
      ensures ok ==> forall k :: Link(k) == if k == key && c.Fills(key) then c else old(Link(k))
      ensures ok ==> links.Keys == old(links.Keys) + if key.Named? then {key.name} else {}
      ensures !ok ==> NoLinks()
    {
      if key.Named? && key.name !in links {
        links := links[key.name := null];
      }
      if c.Fills(key) {
        if Link(key) != null {
          ClearConsumerLinks();
          return false;
        }
        match key {
          case OnDisconnect => onDisconnectLink := c;
          case OnServerDisconnect => onServerDisconnectLink := c;
          case OnEvent => onEventLink := c;
          case Named(name) => links := links[name := c];
        }
      }
      return true;
    }

    /** Links all slots of a consumer, unless one of them is taken. */
    method LinkConsumer(c: Consumer) returns (ok: bool)
      modifies this`onDisconnectLink, this`onServerDisconnectLink, this`onEventLink, this`links
      ensures ok <==> forall key :: c.Fills(key) ==> old(Link(key)) == null
      ensures ok ==> forall key :: Link(key) == if c.Fills(key) then c else old(Link(key))
      ensures ok ==> links.Keys == old(links.Keys) + c.slots.Keys
      ensures !ok ==> NoLinks()
    {
      ok := LinkSlot(c, OnDisconnect);
      if !ok { return; }
      ok := LinkSlot(c, OnServerDisconnect);
      if !ok { return; }
      ok := LinkSlot(c, OnEvent);
      if !ok { return; }
      ok := LinkNamedSlots(c);
    }

    method LinkNamedSlots(c: Consumer) returns (ok: bool)
      modifies this`onDisconnectLink, this`onServerDisconnectLink, this`onEventLink, this`links
      ensures ok <==> forall name :: c.Fills(Named(name)) ==> old(Link(Named(name))) == null
      ensures ok ==> forall key :: Link(key) == if key.Named? && c.Fills(key) then c else old(Link(key))
      ensures ok ==> links.Keys == old(links.Keys) + c.slots.Keys
      ensures !ok ==> NoLinks()
    {
      var left := c.slots.Keys;
      while left != {}
        invariant left <= c.slots.Keys
        invariant forall key :: Link(key) ==
                    if key.Named? && key.name !in left && c.Fills(key) then c else old(Link(key))
        invariant forall name :: c.Fills(Named(name)) && name !in left ==> old(Link(Named(name))) == null
        invariant links.Keys == old(links.Keys) + (c.slots.Keys - left)
        decreases left
      {
        var name :| name in left;
        ok := LinkSlot(c, Named(name));
        if !ok { return; }
        left := left - {name};
      }
      ok := true;
    }

    /** Two consumers fill the same slot. */
    ghost predicate Collide()
      reads this`consumers, consumers
    {
      exists i, j, key :: 0 <= i < j < |consumers| && consumers[i].Fills(key) && consumers[j].Fills(key)
    }

    /** Each filled slot is linked to its consumer, and nothing else is linked. */
    ghost predicate Linked(n: nat)
      requires n <= |consumers|
      reads this`consumers, consumers
      reads this`onDisconnectLink, this`onServerDisconnectLink, this`onEventLink, this`links
    {
      && (forall i, key | 0 <= i < n && consumers[i].Fills(key) :: Link(key) == consumers[i])
      && (forall key | Link(key) != null :: Link(key) in consumers[..n] && Link(key).Fills(key))
      && (forall name :: name in links <==> exists i :: 0 <= i < n && name in consumers[i].slots)
    }

    /** The same for all consumers, without what is said of the entries for empty slots. */
    ghost predicate Routed()
      reads this`consumers, consumers
      reads this`onDisconnectLink, this`onServerDisconnectLink, this`onEventLink, this`links
    {
      && (forall i, key | 0 <= i < |consumers| && consumers[i].Fills(key) :: Link(key) == consumers[i])
      && (forall key | Link(key) != null :: Link(key) in consumers && Link(key).Fills(key))
    }

    method RunInit(pollerAccepts: bool) returns (r: RunResult)
      requires Valid() && !running
      modifies this`onDisconnectLink, this`onServerDisconnectLink, this`onEventLink, this`links
      ensures r == if !pollerAccepts then PollerAddFailed else if Collide() then EventCollision else Started
      ensures if r.Started? then Linked(|consumers|) else NoLinks()
    {
      hide Link, Consumer.Fills, Apart, Collide;
      NoneApart();
      if !pollerAccepts {
        return PollerAddFailed;
      }
      var i := 0;
      while i < |consumers|
        invariant i <= |consumers| && Linked(i)
        invariant Apart(i)
      {
        var c := consumers[i];
        OneMoreApart(i);
        var ok := LinkConsumer(c);
        if !ok {
          return EventCollision;
        }
        assert consumers[..i + 1] == consumers[..i] + [c];
        i := i + 1;
      }
      AllApart();
      return Started;
    }

    /** No two of the first n consumers fill the same slot. */
    ghost predicate Apart(n: nat)
      requires n <= |consumers|
      reads this`consumers, consumers
    {
      forall j, k, key :: 0 <= j < k < n && consumers[j].Fills(key) ==> !consumers[k].Fills(key)
    }

    lemma NoneApart()
      ensures Apart(0)
    {
    }

    lemma AllApart()
      ensures Apart(|consumers|) <==> !Collide()
    {
      hide Consumer.Fills;
    }

    /** The next consumer is apart from the ones that are linked if its slots are free. */
    lemma OneMoreApart(i: nat)
      requires i < |consumers| && Apart(i) && Linked(i)
      ensures Apart(i + 1) <==> forall key :: consumers[i].Fills(key) ==> Link(key) == null
      ensures !Apart(i + 1) ==> Collide()
    {
      hide Consumer.Fills, Link;
      var c := consumers[i];
      forall key ensures Link(key) != null <==> exists j :: 0 <= j < i && consumers[j].Fills(key) {
        if Link(key) != null {
          var j :| 0 <= j < i && consumers[..i][j] == Link(key);
        }
      }
    }

    method Run(pollerAccepts: bool) returns (r: RunResult)
      requires Valid()
      modifies this`running, this`onDisconnectLink, this`onServerDisconnectLink, this`onEventLink, this`links
      ensures Valid() && running == (r.Started? || r.AlreadyRunning?)
      ensures r == if old(running) then AlreadyRunning
                   else if !pollerAccepts then PollerAddFailed
                   else if Collide() then EventCollision else Started
      ensures r.Started? ==> Linked(|consumers|) && Routed()
      ensures !running ==> NoLinks()
    {
      if running {
        return AlreadyRunning;
      }
      r := RunInit(pollerAccepts);
      if r.Started? {
        LinkedIsRouted(this);
      }
      running := r.Started?;
    }

    // What the links are for.

    /** The consumer that is woken up for an event. */
    function Notified(name: Name): Consumer?
      reads this
    {
      if name in links && links[name] != null then links[name] else onEventLink
    }

    /** There is an entry for the name, but no consumer in it. */
    predicate Hides(name: Name)
      reads this`links
    {
      name in links && links[name] == null
    }

    /** A consumer takes the events with this name from their queue. */
    predicate Drains(c: Consumer, name: Name)
      reads this, c
    {
      (name in c.slots && c.slots[name]) || (c.onEvent && name !in links)
    }
  }

  lemma LinkedIsRouted(l: Listener)
    requires l.Linked(|l.consumers|)
    ensures l.Routed()
  {
    assert l.consumers[..|l.consumers|] == l.consumers;
  }

  /** Collisions, slot by slot. */
  lemma CollideIff(l: Listener)
    ensures l.Collide() <==>
            exists i, j :: 0 <= i < j < |l.consumers| && Share(l.consumers[i], l.consumers[j])
  {
    if l.Collide() {
      var i, j, key :| 0 <= i < j < |l.consumers| && l.consumers[i].Fills(key) && l.consumers[j].Fills(key);
      assert key.Named? ==> key.name in l.consumers[i].slots;
      assert Share(l.consumers[i], l.consumers[j]);
    }
    if i, j :| 0 <= i < j < |l.consumers| && Share(l.consumers[i], l.consumers[j]) {
      var c, d := l.consumers[i], l.consumers[j];
      var key :=
        if c.onDisconnect && d.onDisconnect then OnDisconnect
        else if c.onServerDisconnect && d.onServerDisconnect then OnServerDisconnect
        else if c.onEvent && d.onEvent then OnEvent
        else var name :| name in c.slots && name in d.slots && c.slots[name] && d.slots[name]; Named(name);
      assert c.Fills(key) && d.Fills(key);
    }
  }

  /** Two consumers set a function in the same slot. */
  ghost predicate Share(c: Consumer, d: Consumer)
    reads c, d
  {
    || (c.onDisconnect && d.onDisconnect)
    || (c.onServerDisconnect && d.onServerDisconnect)
    || (c.onEvent && d.onEvent)
    || exists name :: name in c.slots && name in d.slots && c.slots[name] && d.slots[name]
  }

  /** Each link leads to the consumer that set a function in its slot, and to no one if there is none. */
  lemma LinksIff(l: Listener, c: Consumer, name: Name)
    requires l.Routed()
    ensures l.onDisconnectLink == c <==> c in l.consumers && c.onDisconnect
    ensures l.onServerDisconnectLink == c <==> c in l.consumers && c.onServerDisconnect
    ensures l.onEventLink == c <==> c in l.consumers && c.onEvent
    ensures (name in l.links && l.links[name] == c) <==> c in l.consumers && name in c.slots && c.slots[name]
  {
    LinkIff(l, c, OnDisconnect);
    LinkIff(l, c, OnServerDisconnect);
    LinkIff(l, c, OnEvent);
    LinkIff(l, c, Named(name));
  }

  lemma LinkIff(l: Listener, c: Consumer, key: SlotKey)
    requires l.Routed()
    ensures l.Link(key) == c <==> c in l.consumers && c.Fills(key)
  {
    if c in l.consumers {
      var i :| 0 <= i < |l.consumers| && l.consumers[i] == c;
    }
  }

  /** Whoever takes events with some name is the one that is woken up for them. */
  lemma DrainsOnlyIfNotified(l: Listener, c: Consumer, name: Name)
    requires l.Routed() && c in l.consumers && l.Drains(c, name)
    ensures l.Notified(name) == c
  {
    var i :| 0 <= i < |l.consumers| && l.consumers[i] == c;
    if name in c.slots && c.slots[name] {
      assert c.Fills(Named(name)) && l.Link(Named(name)) == c;
    } else {
      assert c.Fills(OnEvent) && l.Link(OnEvent) == c;
    }
  }

  /** The one that is woken up takes them, exactly when the name is not hidden from the consumer of all other events. */
  lemma NotifiedDrainsIffNotHidden(l: Listener, name: Name)
    requires l.Routed() && l.Notified(name) != null
    ensures l.Notified(name) in l.consumers
    ensures l.Drains(l.Notified(name), name) <==> !l.Hides(name)
  {
    var c := l.Notified(name);
    if name in l.links && l.links[name] != null {
      assert l.Link(Named(name)) == c;
      assert c.Fills(Named(name));
    } else {
      assert l.Link(OnEvent) == c;
      assert c.Fills(OnEvent);
      var i :| 0 <= i < |l.consumers| && l.consumers[i] == c;
      assert c.Fills(Named(name)) ==> l.Link(Named(name)) == c;
    }
  }

  /** When the listener starts, those are the names that are bound, but to empty slots only. */
  lemma HidesEmptySlots(l: Listener, name: Name)
    requires l.Linked(|l.consumers|)
    ensures l.Hides(name) <==>
            (exists c :: c in l.consumers && name in c.slots) && forall c :: c in l.consumers ==> !c.Fills(Named(name))
  {
    var n := |l.consumers|;
    assert l.consumers[..n] == l.consumers;
    if l.Hides(name) {
      assert l.Link(Named(name)) == null;
      forall c | c in l.consumers ensures !c.Fills(Named(name)) {
        var i :| 0 <= i < n && l.consumers[i] == c;
      }
      var i :| 0 <= i < n && name in l.consumers[i].slots;
      assert l.consumers[i] in l.consumers;
    }
    if c :| c in l.consumers && name in c.slots {
      var i :| 0 <= i < n && l.consumers[i] == c;
      assert name in l.consumers[i].slots;
      if l.links[name] != null {
        assert l.Link(Named(name)).Fills(Named(name));
      }
    }
  }

  /** A consumer that starts, and loses its empty slots, changes nothing of this: the links stay as they are. */
  twostate lemma StartingKeepsRoutes(l: Listener, c: Consumer, d: Consumer, name: Name)
    requires unchanged(l) && forall k | k in l.consumers && k != c :: unchanged(k)
    requires d in l.consumers && c in l.consumers && forall key :: c.Fills(key) == old(c.Fills(key))
    ensures old(l.Routed()) ==> l.Routed()
    ensures l.Drains(d, name) == old(l.Drains(d, name))
    ensures l.Notified(name) == old(l.Notified(name)) && l.Hides(name) == old(l.Hides(name))
  {
    assert forall k, key | k in l.consumers :: k.Fills(key) == old(k.Fills(key));
    assert d.Fills(Named(name)) == old(d.Fills(Named(name))) && d.Fills(OnEvent) == old(d.Fills(OnEvent));
  }
}
