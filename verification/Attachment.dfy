/** Attaching connections and servers to event listeners. */
module Attachment {

  datatype AttachResult = Done | ListenerRunning | AlreadyListened | WrongParentListener

  /** A connection or a server. */
  class Element {
    var listener: Listener?

    constructor ()
      ensures listener == null
    {
      listener := null;
    }
  }

  /**
   * Ownership, over all listeners and elements there are: an element is in the list of a listener,
   * once, exactly when it points to that listener.
   */
  ghost predicate Owned(listeners: set<Listener>, elements: set<Element>)
    reads listeners, elements
  {
    && (forall l | l in listeners ::
          && (forall i, j | 0 <= i < j < |l.list| :: l.list[i] != l.list[j])
          && (forall i | 0 <= i < |l.list| :: l.list[i] in elements && l.list[i].listener == l))
    && (forall e | e in elements && e.listener != null :: e.listener in listeners && e in e.listener.list)
  }

  class Listener {
    var list: seq<Element>
    var running: bool

    constructor ()
      ensures list == [] && !running
    {
      list := [];
      running := false;
    }

    method Find(e: Element) returns (i: nat)
      ensures i <= |list| && e !in list[..i]
      ensures i < |list| ==> list[i] == e
    {
      i := 0;
      while i < |list| && list[i] != e
        invariant i <= |list| && e !in list[..i]
      {
        i := i + 1;
      }
    }

    method Attach(e: Element, ghost listeners: set<Listener>, ghost elements: set<Element>) returns (r: AttachResult)
      requires this in listeners && e in elements && Owned(listeners, elements)
      modifies this`list, e`listener
      ensures Owned(listeners, elements)
      ensures r == if running then ListenerRunning
                   else if old(e.listener) != null && old(e.listener) != this then AlreadyListened
                   else Done
      ensures if r.Done? && old(e.listener) == null then e.listener == this && list == old(list) + [e]
              else e.listener == old(e.listener) && list == old(list)
    {
      if running {
        return ListenerRunning;
      }
      var i := Find(e);
      if i == |list| {
        if e.listener != null && e.listener != this {
          return AlreadyListened;
        }
        e.listener := this;
        list := list + [e];
      }
      return Done;
    }

    /** An element that is in a list always points back to its listener, so that a parent is never wrong. */
    method Detach(e: Element, ghost listeners: set<Listener>, ghost elements: set<Element>) returns (r: AttachResult)
      requires this in listeners && e in elements && Owned(listeners, elements)
      modifies this`list, e`listener
      ensures Owned(listeners, elements)
      ensures r == if running then ListenerRunning else Done
      ensures if r.Done? && old(e.listener) == this then
                && e.listener == null && e !in list
                && exists i :: 0 <= i < |old(list)| && old(list)[i] == e && list == old(list)[..i] + old(list)[i + 1..]
              else e.listener == old(e.listener) && list == old(list)
    {
      if running {
        return ListenerRunning;
      }
      var i := Find(e);
      if i < |list| {
        if e.listener != this {
          return WrongParentListener;
        }
        e.listener := null;
        list := list[..i] + list[i + 1..];
      }
      return Done;
    }
  }

  /** No element is in two lists. */
  lemma OwnedApart(listeners: set<Listener>, elements: set<Element>, a: Listener, b: Listener, e: Element)
    requires Owned(listeners, elements) && a in listeners && b in listeners && e in a.list && e in b.list
    ensures a == b && e.listener == a
  {
    var i :| 0 <= i < |a.list| && a.list[i] == e;
    var j :| 0 <= j < |b.list| && b.list[j] == e;
  }
}
