/** What the machine of accepted connections can always still do: every connection can be retired. */
module OwnershipProgress {
  import opened Options
  import opened Ownership

  lemma Extend(states: seq<State>, actions: seq<Action>, a: Action) returns (more: seq<State>, acts: seq<Action>)
    requires IsRun(false, states, actions) && Enabled(states[|states| - 1], a)
    ensures IsRun(false, more, acts) && acts == actions + [a]
    ensures more[|more| - 1] == Step(states[|states| - 1], a)
  {
    hide Enabled, Step;
    more, acts := states + [Step(states[|states| - 1], a)], actions + [a];
  }

  /** Steps of the thread that holds the lock of a connection. */
  predicate AreOfThread(acts: seq<Action>, id: nat) {
    forall a | a in acts :: (a.Lock? || a.Tell? || a.PushTold? || a.Close?) && a.id == id
  }

  function Left(phase: Phase): nat {
    match phase
    case Free => 0
    case Closing => 1
    case Pushing => 2
    case Telling => 3
  }

  /** What the thread does next: it looks for the connection in the map, pushes its event, closes it. */
  lemma NextOfThread(s: State, id: nat) returns (a: Action)
    requires !s.external && id in s.connections && !s.connections[id].phase.Free?
    ensures AreOfThread([a], id) && !a.Lock? && Enabled(s, a)
    ensures var t := Step(s, a);
            && id in t.connections && Left(t.connections[id].phase) < Left(s.connections[id].phase)
            && t.listener == s.listener && t.connections.Keys == s.connections.Keys
            && (t.connections[id].phase.Free? ==> !t.connections[id].connected)
  {
    match s.connections[id].phase {
      case Closing => a := Close(id);
      case Pushing => a := PushTold(id);
      case Telling =>
        if fd :| fd in s.mapped && s.mapped[fd] == id {
          a := Tell(id, Some(fd));
        } else {
          a := Tell(id, None);
        }
    }
  }

  lemma ListenerIsKnown(states: seq<State>, actions: seq<Action>)
    requires IsRun(false, states, actions)
    ensures var s := states[|states| - 1]; !s.external && (!s.listener.Polling? ==> s.listener.id in s.connections)
  {
    hide OwnDescriptors, MapIsCurrent, OneEvent, ClosedOnce, Enabled, Step;
    RunKeepsInv(states, actions, |states| - 1);
  }

  /** A thread that has begun to disconnect a connection comes to the end of it by its own steps. */
  lemma {:induction false} ThreadEnds(states: seq<State>, actions: seq<Action>, id: nat)
    returns (more: seq<State>, acts: seq<Action>)
    requires IsRun(false, states, actions) && id in states[|states| - 1].connections
    requires !states[|states| - 1].connections[id].phase.Free?
    ensures IsRun(false, more, actions + acts) && AreOfThread(acts, id)
    ensures var s, t := states[|states| - 1], more[|more| - 1];
            && t.listener == s.listener && t.connections.Keys == s.connections.Keys
            && id in t.connections && t.connections[id].phase.Free? && !t.connections[id].connected
    decreases Left(states[|states| - 1].connections[id].phase)
  {
    hide Enabled, Step;
    ListenerIsKnown(states, actions);
    var a := NextOfThread(states[|states| - 1], id);
    var so;
    more, so := Extend(states, actions, a);
    acts := [a];
    if !more[|more| - 1].connections[id].phase.Free? {
      var rest;
      more, rest := ThreadEnds(more, so, id);
      assert (actions + [a]) + rest == actions + ([a] + rest);
      acts := [a] + rest;
    }
  }

  /** The connection is closed, and no thread holds its lock. */
  predicate IsDone(s: State, id: nat) {
    id in s.connections && !s.connections[id].connected && s.connections[id].phase.Free?
  }

  lemma SafeDisconnects(s: State)
    requires s.listener.Retiring? && s.listener.id in s.connections && s.connections[s.listener.id].phase.Free?
    ensures Enabled(s, SafeDisconnect)
    ensures var t := Step(s, SafeDisconnect);
            && t.listener == ListenerPc.Telling(s.listener.id) && IsDone(t, s.listener.id)
            && t.connections.Keys == s.connections.Keys
  {
  }

  lemma Pushes(s: State)
    requires s.listener.Telling?
    ensures Enabled(s, PushRetired)
    ensures var t := Step(s, PushRetired); t.listener.Polling? && t.connections == s.connections
  {
  }

  /** The listener closes the connection that it took from the map, when the thread that holds it is done. */
  lemma {:induction false} ListenerCloses(states: seq<State>, actions: seq<Action>)
    returns (more: seq<State>, acts: seq<Action>)
    requires IsRun(false, states, actions) && states[|states| - 1].listener.Retiring?
    ensures IsRun(false, more, acts) && actions <= acts
    ensures var id, t := states[|states| - 1].listener.id, more[|more| - 1];
            && t.listener == ListenerPc.Telling(id) && IsDone(t, id)
            && t.connections.Keys == states[|states| - 1].connections.Keys
  {
    hide Enabled, Step, AreOfThread, Left, IsDone;
    var id := states[|states| - 1].listener.id;
    ListenerIsKnown(states, actions);
    more, acts := states, actions;
    if !states[|states| - 1].connections[id].phase.Free? {
      var own;
      more, own := ThreadEnds(states, actions, id);
      acts := actions + own;
    }
    SafeDisconnects(more[|more| - 1]);
    more, acts := Extend(more, acts, SafeDisconnect);
  }

  /** The listener comes back from the connection that it retires. */
  lemma {:induction false} ListenerReturns(states: seq<State>, actions: seq<Action>)
    returns (more: seq<State>, acts: seq<Action>)
    requires IsRun(false, states, actions)
    ensures IsRun(false, more, acts) && actions <= acts && more[|more| - 1].listener.Polling?
    ensures more[|more| - 1].connections.Keys == states[|states| - 1].connections.Keys
    ensures var s := states[|states| - 1]; s.listener.Retiring? ==> IsDone(more[|more| - 1], s.listener.id)
  {
    hide Enabled, Step;
    more, acts := states, actions;
    if states[|states| - 1].listener.Retiring? {
      more, acts := ListenerCloses(states, actions);
    }
    if more[|more| - 1].listener.Telling? {
      Pushes(more[|more| - 1]);
      more, acts := Extend(more, acts, PushRetired);
    }
  }

  /**
   * Without external connections, every connection that was accepted can be retired, from whatever
   * state: then it is closed, once, and its one event was pushed.
   */
  lemma CanBeRetired(states: seq<State>, actions: seq<Action>, id: nat)
    returns (more: seq<State>, acts: seq<Action>)
    requires IsRun(false, states, actions) && id in states[|states| - 1].connections
    ensures IsRun(false, more, acts) && actions <= acts
    ensures var t := more[|more| - 1];
            && id in t.connections && !t.connections[id].connected && !Mapped(t, id)
            && t.told[id] == 1 && t.closes[id] == 1
            && t.listener.Polling? && t.connections[id].phase.Free?
  {
    more, acts := ListenerReturns(states, actions);
    hide Mapped;
    if more[|more| - 1].connections[id].phase.Free? {
      more, acts := Extend(more, acts, Lock(id));
    }
    var own;
    more, own := ThreadEnds(more, acts, id);
    acts := acts + own;
    ClosedIsTold(more, acts, id);
  }

  lemma Retires(s: State, fd: nat)
    requires s.listener.Polling? && fd in s.mapped
    ensures Enabled(s, Retire(fd)) && Step(s, Retire(fd)).listener == Retiring(s.mapped[fd])
  {
  }

  /**
   * When a peer goes away, its connection is retired in the same way, also if a thread is just about to
   * disconnect it: the listener takes it from the map, and the thread does not find it any more.
   */
  lemma PeerIsRetired(states: seq<State>, actions: seq<Action>, fd: nat)
    returns (more: seq<State>, acts: seq<Action>)
    requires IsRun(false, states, actions)
    requires var s := states[|states| - 1]; s.listener.Polling? && fd in s.mapped
    ensures IsRun(false, more, acts) && actions + [Retire(fd)] <= acts
    ensures var id, t := states[|states| - 1].mapped[fd], more[|more| - 1];
            && t.listener.Polling? && IsDone(t, id) && !Mapped(t, id)
            && t.told[id] == 1 && t.closes[id] == 1
  {
    hide Enabled, Step, Mapped;
    Retires(states[|states| - 1], fd);
    more, acts := Extend(states, actions, Retire(fd));
    more, acts := ListenerReturns(more, acts);
    ClosedIsTold(more, acts, states[|states| - 1].mapped[fd]);
  }

  lemma ClosedIsTold(states: seq<State>, actions: seq<Action>, id: nat)
    requires IsRun(false, states, actions) && id in states[|states| - 1].connections
    requires var s := states[|states| - 1];
             !s.connections[id].connected && s.listener.Polling? && s.connections[id].phase.Free?
    ensures var s := states[|states| - 1]; !Mapped(s, id) && s.told[id] == 1 && s.closes[id] == 1
  {
    hide Step, Enabled;
    RunKeepsInv(states, actions, |states| - 1);
    assert OneEvent(states[|states| - 1], id) && ClosedOnce(states[|states| - 1], id);
  }
}
