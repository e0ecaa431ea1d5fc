/**
 * The connections that a listener accepted. They are found by their file descriptor, and retired from
 * two sides: by the listener thread, when the peer went away, and by any thread that disconnects one.
 */
module Ownership {
  import opened Options

  /** How far the thread is that disconnects a connection, and holds its lock. */
  datatype Phase = Free | Telling | Pushing | Closing

  datatype Connection = Connection(fd: int, connected: bool, phase: Phase)

  datatype ListenerPc =
    | Polling
    | Retiring(id: nat)           // took the connection from the map, and is about to close it
    | Telling(id: nat)            // about to push the event

  /**
   * `mapped` is the map of internal connections. `others` are the descriptors that the rest of the
   * program has open. `told` counts the events pushed, or dropped at a full queue, per connection;
   * `closes` counts the calls that closed its descriptor. `failed`: the assertion of accept failed.
   */
  datatype State = State(
    external: bool,
    mapped: map<nat, nat>,
    connections: map<nat, Connection>,
    open: set<nat>,
    others: set<nat>,
    listener: ListenerPc,
    told: multiset<nat>,
    closes: multiset<nat>,
    failed: bool)

  function Initial(external: bool): State {
    State(external, map[], map[], {}, {}, Polling, multiset{}, multiset{}, false)
  }

  datatype Action =
    // the system, and the rest of the program
    | OtherOpens(fd: nat)
    | OtherCloses(fd: nat)
    // the listener thread
    | Accept(fd: nat, id: nat)
    | Retire(fd: nat)
    | SafeDisconnect
    | PushRetired
    // a thread that disconnects a connection
    | Lock(id: nat)
    | Tell(id: nat, found: Option<nat>)
    | PushTold(id: nat)
    | Close(id: nat)

  /** The connection is in the map. */
  ghost predicate Mapped(s: State, id: nat) {
    exists fd :: fd in s.mapped && s.mapped[fd] == id
  }

  ghost predicate Enabled(s: State, a: Action) {
    match a
    case OtherOpens(fd) => fd !in s.open
    case OtherCloses(fd) => fd in s.others
    case Accept(fd, id) => s.listener.Polling? && fd !in s.open && id !in s.connections
    case Retire(fd) => s.listener.Polling? && fd in s.mapped
    case SafeDisconnect =>
      s.listener.Retiring? && s.listener.id in s.connections && s.connections[s.listener.id].phase.Free?
    case PushRetired => s.listener.Telling?
    case Lock(id) => id in s.connections && s.connections[id].phase.Free?
    case Tell(id, Some(fd)) =>
      id in s.connections && s.connections[id].phase.Telling? && !s.external && fd in s.mapped && s.mapped[fd] == id
    case Tell(id, None) =>
      id in s.connections && s.connections[id].phase.Telling? && (s.external || !Mapped(s, id))
    case PushTold(id) => id in s.connections && s.connections[id].phase.Pushing?
    case Close(id) => id in s.connections && s.connections[id].phase.Closing?
  }

  function SetPhase(s: State, id: nat, phase: Phase): State
    requires id in s.connections
  {
    s.(connections := s.connections[id := s.connections[id].(phase := phase)])
  }

  /** unsafe_disconnect: closes the descriptor, if the connection still has one. */
  function Disconnected(s: State, id: nat): State
    requires id in s.connections
  {
    var c := s.connections[id];
    if !c.connected then s
    else s.(open := if c.fd >= 0 then s.open - {c.fd} else s.open,
            closes := s.closes + multiset{id},
            connections := s.connections[id := c.(fd := -1, connected := false)])
  }

  function Step(s: State, a: Action): State
    requires Enabled(s, a)
  {
    match a
    case OtherOpens(fd) => s.(open := s.open + {fd}, others := s.others + {fd})
    case OtherCloses(fd) => s.(open := s.open - {fd}, others := s.others - {fd})
    case Accept(fd, id) =>
      var t := s.(open := s.open + {fd}, connections := s.connections[id := Connection(fd, true, Free)]);
      if fd in s.mapped then t.(failed := true) else t.(mapped := s.mapped[fd := id])
    case Retire(fd) => s.(mapped := s.mapped - {fd}, listener := Retiring(s.mapped[fd]))
    case SafeDisconnect => Disconnected(s, s.listener.id).(listener := ListenerPc.Telling(s.listener.id))
    case PushRetired => s.(told := s.told + multiset{s.listener.id}, listener := Polling)
    case Lock(id) => SetPhase(s, id, Phase.Telling)
    case Tell(id, Some(fd)) => SetPhase(s, id, Pushing).(mapped := s.mapped - {fd})
    case Tell(id, None) => SetPhase(s, id, Closing)
    case PushTold(id) => SetPhase(s, id, Closing).(told := s.told + multiset{id})
    case Close(id) => SetPhase(Disconnected(s, id), id, Free)
  }

  // ---------------------------------------------------------------------------
  // Invariants
  // ---------------------------------------------------------------------------

  /** Every connected connection owns an open descriptor, alone. */
  ghost predicate OwnDescriptors(s: State) {
    && s.others <= s.open
    && (forall id | id in s.connections && s.connections[id].connected ::
          s.connections[id].fd >= 0 && s.connections[id].fd in s.open && s.connections[id].fd !in s.others)
    && (forall a, b | a in s.connections && b in s.connections
                      && s.connections[a].connected && s.connections[b].connected
                      && s.connections[a].fd == s.connections[b].fd :: a == b)
  }

  /** The map finds a connection under its own descriptor, which is open. */
  ghost predicate MapIsCurrent(s: State) {
    forall fd | fd in s.mapped ::
      && s.mapped[fd] in s.connections
      && s.connections[s.mapped[fd]].connected && s.connections[s.mapped[fd]].fd == fd
  }

  function Count(b: bool): nat {
    if b then 1 else 0
  }

  /** Where the event of a disconnection is: not due yet, about to be pushed by either side, or told. */
  ghost predicate OneEvent(s: State, id: nat)
    requires id in s.connections
  {
    Count(Mapped(s, id))
    + Count(!s.listener.Polling? && s.listener.id == id)
    + Count(s.connections[id].phase.Pushing?)
    + s.told[id] == 1
  }

  /** A connection is closed once, when it stops being connected. */
  ghost predicate ClosedOnce(s: State, id: nat)
    requires id in s.connections
  {
    && s.closes[id] == Count(!s.connections[id].connected)
    && (s.connections[id].phase.Closing? ==> !Mapped(s, id))
  }

  ghost predicate Inv(s: State) {
    && OwnDescriptors(s) && MapIsCurrent(s) && !s.failed
    && (!s.listener.Polling? ==> s.listener.id in s.connections)
    && (forall id | id in s.connections :: OneEvent(s, id) && ClosedOnce(s, id))
    && (forall id | id !in s.connections :: s.told[id] == 0 && s.closes[id] == 0)
  }

  /** Taking a descriptor out of the map takes out one connection. */
  lemma Unmap(s: State, fd: nat, t: State, x: nat)
    requires MapIsCurrent(s) && fd in s.mapped && t.mapped == s.mapped - {fd}
    ensures Mapped(t, x) <==> Mapped(s, x) && x != s.mapped[fd]
  {
    if Mapped(s, x) && x != s.mapped[fd] {
      var f :| f in s.mapped && s.mapped[f] == x;
      assert f in t.mapped && t.mapped[f] == x;
    }
  }

  lemma AcceptMaps(s: State, fd: nat, id: nat, x: nat)
    requires Inv(s) && Enabled(s, Accept(fd, id))
    ensures var t := Step(s, Accept(fd, id));
            && t.mapped == s.mapped[fd := id] && !t.failed
            && !Mapped(s, id) && (Mapped(t, x) <==> x == id || Mapped(s, x))
  {
    var t := Step(s, Accept(fd, id));
    assert fd !in s.mapped;
    hide OneEvent, ClosedOnce, OwnDescriptors;
    if Mapped(s, x) {
      var f :| f in s.mapped && s.mapped[f] == x;
      assert f in t.mapped && t.mapped[f] == x;
    }
    assert fd in t.mapped && t.mapped[fd] == id;
  }

  lemma AcceptOwns(s: State, fd: nat, id: nat, t: State)
    requires OwnDescriptors(s) && MapIsCurrent(s) && fd !in s.open && id !in s.connections
    requires t == s.(open := s.open + {fd}, connections := s.connections[id := Connection(fd, true, Free)],
                     mapped := s.mapped[fd := id])
    ensures OwnDescriptors(t) && MapIsCurrent(t)
  {
  }

  lemma AcceptKeepsInv(s: State, fd: nat, id: nat)
    requires Inv(s) && Enabled(s, Accept(fd, id))
    ensures Inv(Step(s, Accept(fd, id)))
  {
    var t := Step(s, Accept(fd, id));
    AcceptMaps(s, fd, id, id);
    AcceptOwns(s, fd, id, t);
    hide OwnDescriptors, MapIsCurrent;
    forall x | x in t.connections ensures OneEvent(t, x) && ClosedOnce(t, x) {
      AcceptMaps(s, fd, id, x);
      if x != id {
        assert OneEvent(s, x) && ClosedOnce(s, x);
      }
    }
  }

  lemma RetireKeepsInv(s: State, fd: nat)
    requires Inv(s) && Enabled(s, Retire(fd))
    ensures Inv(Step(s, Retire(fd)))
  {
    var t := Step(s, Retire(fd));
    forall x | x in t.connections ensures OneEvent(t, x) && ClosedOnce(t, x) {
      assert OneEvent(s, x) && ClosedOnce(s, x);
      Unmap(s, fd, t, x);
      assert fd in s.mapped && s.mapped[fd] == s.mapped[fd];
    }
  }

  lemma DisconnectedOwns(s: State, id: nat)
    requires OwnDescriptors(s) && MapIsCurrent(s) && id in s.connections && !Mapped(s, id)
    ensures OwnDescriptors(Disconnected(s, id)) && MapIsCurrent(Disconnected(s, id))
  {
    forall fd | fd in s.mapped ensures s.mapped[fd] != id {
      assert Mapped(s, s.mapped[fd]);
    }
  }

  /** The steps that close a descriptor come when the connection is not in the map any more. */
  lemma DisconnectedKeepsInv(s: State, id: nat)
    requires Inv(s) && id in s.connections && !Mapped(s, id)
    ensures Inv(Disconnected(s, id))
  {
    var t := Disconnected(s, id);
    DisconnectedOwns(s, id);
    hide OwnDescriptors, MapIsCurrent;
    forall x | x in t.connections ensures OneEvent(t, x) && ClosedOnce(t, x) {
      assert OneEvent(s, x) && ClosedOnce(s, x);
      assert Mapped(t, x) <==> Mapped(s, x);
    }
  }

  /** Steps that touch neither descriptors nor the map. */
  lemma CountingKeepsInv(s: State, t: State)
    requires Inv(s) && OwnDescriptors(t) && t.mapped == s.mapped && !t.failed && t.closes == s.closes
    requires t.connections.Keys == s.connections.Keys
    requires forall id | id in s.connections ::
               && t.connections[id].(phase := Free) == s.connections[id].(phase := Free)
               && (t.connections[id].phase.Closing? ==> s.connections[id].phase.Closing? || !Mapped(s, id))
               && Count(!t.listener.Polling? && t.listener.id == id)
                  + Count(t.connections[id].phase.Pushing?) + t.told[id]
                  == Count(!s.listener.Polling? && s.listener.id == id)
                     + Count(s.connections[id].phase.Pushing?) + s.told[id]
    requires !t.listener.Polling? ==> t.listener.id in s.connections
    requires forall id | id !in s.connections :: t.told[id] == s.told[id]
    ensures Inv(t)
  {
    forall x | x in t.connections ensures OneEvent(t, x) && ClosedOnce(t, x) {
      assert OneEvent(s, x) && ClosedOnce(s, x);
      assert Mapped(t, x) <==> Mapped(s, x);
    }
  }

  lemma SafeDisconnectKeepsInv(s: State)
    requires Inv(s) && Enabled(s, SafeDisconnect)
    ensures Inv(Step(s, SafeDisconnect))
  {
    var id := s.listener.id;
    assert OneEvent(s, id);
    DisconnectedKeepsInv(s, id);
    var d, t := Disconnected(s, id), Step(s, SafeDisconnect);
    assert d.connections.Keys == s.connections.Keys;
    hide Disconnected;
    CountingKeepsInv(d, t);
  }

  lemma PhaseOwns(s: State, id: nat, phase: Phase)
    requires OwnDescriptors(s) && MapIsCurrent(s) && id in s.connections
    ensures OwnDescriptors(SetPhase(s, id, phase)) && MapIsCurrent(SetPhase(s, id, phase))
  {
  }

  lemma SameOwners(s: State, t: State)
    requires OwnDescriptors(s) && MapIsCurrent(s)
    requires t.connections == s.connections && t.open == s.open && t.others == s.others && t.mapped == s.mapped
    ensures OwnDescriptors(t) && MapIsCurrent(t)
  {
  }

  /** The steps of the thread that holds the lock of a connection. */
  lemma PhaseKeepsInv(s: State, id: nat, phase: Phase, more: multiset<nat>)
    requires Inv(s) && id in s.connections && (more == multiset{} || more == multiset{id})
    requires Count(phase.Pushing?) + more[id] == Count(s.connections[id].phase.Pushing?)
    requires phase.Closing? ==> s.connections[id].phase.Closing? || !Mapped(s, id)
    ensures Inv(SetPhase(s, id, phase).(told := s.told + more))
  {
    var t := SetPhase(s, id, phase).(told := s.told + more);
    PhaseOwns(s, id, phase);
    SameOwners(SetPhase(s, id, phase), t);
    hide OwnDescriptors, MapIsCurrent;
    forall x | x in t.connections ensures OneEvent(t, x) && ClosedOnce(t, x) {
      assert OneEvent(s, x) && ClosedOnce(s, x);
      assert Mapped(t, x) <==> Mapped(s, x);
    }
  }

  lemma TellFoundKeepsInv(s: State, id: nat, fd: nat)
    requires Inv(s) && !s.external && Enabled(s, Tell(id, Some(fd)))
    ensures Inv(Step(s, Tell(id, Some(fd))))
  {
    var t := Step(s, Tell(id, Some(fd)));
    PhaseOwns(s, id, Pushing);
    assert OwnDescriptors(t) && MapIsCurrent(t);
    hide OwnDescriptors;
    forall x | x in t.connections ensures OneEvent(t, x) && ClosedOnce(t, x) {
      assert OneEvent(s, x) && ClosedOnce(s, x);
      Unmap(s, fd, t, x);
    }
  }

  lemma TellKeepsInv(s: State, id: nat, found: Option<nat>)
    requires Inv(s) && !s.external && Enabled(s, Tell(id, found))
    ensures Inv(Step(s, Tell(id, found)))
  {
    match found {
      case Some(fd) => TellFoundKeepsInv(s, id, fd);
      case None =>
        assert s.told + multiset{} == s.told;
        hide Inv, Mapped;
        PhaseKeepsInv(s, id, Closing, multiset{});
    }
  }

  lemma CloseKeepsInv(s: State, id: nat)
    requires Inv(s) && Enabled(s, Close(id))
    ensures Inv(Step(s, Close(id)))
  {
    assert ClosedOnce(s, id);
    DisconnectedKeepsInv(s, id);
    var d := Disconnected(s, id);
    assert Step(s, Close(id)) == SetPhase(d, id, Free).(told := d.told + multiset{});
    assert d.connections[id].phase.Closing?;
    hide Inv, Disconnected, Step, Mapped, SetPhase;
    PhaseKeepsInv(d, id, Free, multiset{});
  }

  lemma PushToldKeepsInv(s: State, id: nat)
    requires Inv(s) && Enabled(s, PushTold(id))
    ensures Inv(Step(s, PushTold(id)))
  {
    assert OneEvent(s, id);
    assert !Mapped(s, id);
    hide Inv, Mapped;
    PhaseKeepsInv(s, id, Closing, multiset{id});
  }

  lemma LockKeepsInv(s: State, id: nat)
    requires Inv(s) && Enabled(s, Lock(id))
    ensures Inv(Step(s, Lock(id)))
  {
    hide Inv, Mapped;
    PhaseKeepsInv(s, id, Phase.Telling, multiset{});
    assert s.told + multiset{} == s.told;
  }

  lemma SystemKeepsInv(s: State, a: Action)
    requires Inv(s) && Enabled(s, a) && (a.OtherOpens? || a.OtherCloses? || a.PushRetired?)
    ensures Inv(Step(s, a))
  {
    CountingKeepsInv(s, Step(s, a));
  }

  lemma StepKeepsInv(s: State, a: Action)
    requires Inv(s) && !s.external && Enabled(s, a)
    ensures Inv(Step(s, a)) && !Step(s, a).external
  {
    assert !Step(s, a).external;
    hide Inv, Step, Enabled;
    match a {
      case Accept(fd, id) => AcceptKeepsInv(s, fd, id);
      case Retire(fd) => RetireKeepsInv(s, fd);
      case Tell(id, found) => TellKeepsInv(s, id, found);
      case SafeDisconnect => SafeDisconnectKeepsInv(s);
      case Close(id) => CloseKeepsInv(s, id);
      case PushTold(id) => PushToldKeepsInv(s, id);
      case Lock(id) => LockKeepsInv(s, id);
      case _ => SystemKeepsInv(s, a);
    }
  }

  /** A connection that has the descriptor open. */
  predicate Owns(s: State, id: nat, fd: nat) {
    id in s.connections && s.connections[id].connected && s.connections[id].fd == fd
  }

  /** Every open descriptor belongs to a connection, or to the rest of the program. */
  ghost predicate NoLeaks(s: State) {
    forall fd | fd in s.open && fd !in s.others :: exists id :: Owns(s, id, fd)
  }

  lemma StepLeaksNothing(s: State, a: Action)
    requires OwnDescriptors(s) && NoLeaks(s) && Enabled(s, a)
    ensures NoLeaks(Step(s, a))
  {
    hide Enabled, Step, OwnDescriptors;
    var t := Step(s, a);
    forall fd | fd in t.open && fd !in t.others ensures exists id :: Owns(t, id, fd) {
      OpenStaysOwned(s, a, fd);
      if !(a.Accept? && fd == a.fd) {
        var id :| Owns(s, id, fd);
        OwnerStays(s, a, fd, id);
      }
    }
  }

  lemma OpenStaysOwned(s: State, a: Action, fd: nat)
    requires Enabled(s, a) && var t := Step(s, a); fd in t.open && fd !in t.others
    ensures if a.Accept? && fd == a.fd then Owns(Step(s, a), a.id, fd) else fd in s.open && fd !in s.others
  {
  }

  lemma OwnerStays(s: State, a: Action, fd: nat, id: nat)
    requires OwnDescriptors(s) && Enabled(s, a) && Owns(s, id, fd) && fd in Step(s, a).open
    ensures Owns(Step(s, a), id, fd)
  {
    assert s.connections[id].connected;
  }

  // ---------------------------------------------------------------------------
  // Runs
  // ---------------------------------------------------------------------------

  ghost predicate IsRun(external: bool, states: seq<State>, actions: seq<Action>) {
    && |states| == |actions| + 1 && states[0] == Initial(external)
    && forall i :: 0 <= i < |actions| ==> Enabled(states[i], actions[i]) && states[i + 1] == Step(states[i], actions[i])
  }

  lemma {:induction false} RunKeepsInv(states: seq<State>, actions: seq<Action>, i: nat)
    requires IsRun(false, states, actions) && i < |states|
    ensures Inv(states[i]) && !states[i].external
  {
    hide Inv, Step, Enabled;
    if i == 0 {
      InitialInv();
    } else {
      RunKeepsInv(states, actions, i - 1);
      StepKeepsInv(states[i - 1], actions[i - 1]);
    }
  }

  lemma InitialInv()
    ensures Inv(Initial(false))
  {
  }

  /**
   * Without external connections, in every interleaving: what is in the map is open, and owned by
   * the connection it leads to; no descriptor is closed twice; and each accepted connection is still
   * in the map, or its one event is about to be pushed, or has been.
   */
  lemma AcceptedAreOwned(states: seq<State>, actions: seq<Action>, i: nat, id: nat)
    requires IsRun(false, states, actions) && i < |states| && id in states[i].connections
    ensures var s := states[i];
            && OwnDescriptors(s) && MapIsCurrent(s)
            && s.closes[id] <= 1 && s.told[id] <= 1
            && (s.closes[id] == 1 <==> !s.connections[id].connected)
            && (Mapped(s, id) <==>
                  s.told[id] == 0 && !s.connections[id].phase.Pushing? && (s.listener.Polling? || s.listener.id != id))
            && (s.connections[id].phase.Pushing? ==> s.listener.Polling? || s.listener.id != id)
  {
    RunKeepsInv(states, actions, i);
    assert OneEvent(states[i], id) && ClosedOnce(states[i], id);
  }

  lemma {:induction false} RunLeaksNothing(states: seq<State>, actions: seq<Action>, i: nat)
    requires IsRun(false, states, actions) && i < |states|
    ensures NoLeaks(states[i])
  {
    hide Step, Enabled, NoLeaks, OwnDescriptors, OneEvent, ClosedOnce, MapIsCurrent;
    if i == 0 {
      NothingToLeak();
    } else {
      RunLeaksNothing(states, actions, i - 1);
      RunKeepsInv(states, actions, i - 1);
      StepLeaksNothing(states[i - 1], actions[i - 1]);
    }
  }

  lemma NothingToLeak()
    ensures NoLeaks(Initial(false))
  {
  }

  /** A descriptor is open exactly as long as a connection owns it, or the rest of the program has it. */
  lemma OpenIffOwned(states: seq<State>, actions: seq<Action>, i: nat, fd: nat)
    requires IsRun(false, states, actions) && i < |states|
    ensures fd in states[i].open <==> fd in states[i].others || exists id :: Owns(states[i], id, fd)
  {
    RunLeaksNothing(states, actions, i);
    RunKeepsInv(states, actions, i);
  }

  /** While a thread holds the lock of a connection, no one but that thread closes it. */
  lemma LockIsExclusive(external: bool, states: seq<State>, actions: seq<Action>, i: nat, id: nat)
    requires IsRun(external, states, actions) && i < |actions|
    requires id in states[i].connections && !states[i].connections[id].phase.Free? && actions[i] != Close(id)
    ensures id in states[i + 1].connections && states[i + 1].closes[id] == states[i].closes[id]
    ensures var before, after := states[i].connections[id], states[i + 1].connections[id];
            after.fd == before.fd && after.connected == before.connected && !after.phase.Free?
  {
    hide Mapped;
    var s, a := states[i], actions[i];
    StepLeavesLocked(s, a, id);
    hide Step, Enabled;
  }

  lemma StepLeavesLocked(s: State, a: Action, id: nat)
    requires Enabled(s, a) && id in s.connections && !s.connections[id].phase.Free? && a != Close(id)
    ensures var t := Step(s, a);
            && id in t.connections && t.closes[id] == s.closes[id]
            && t.connections[id].(phase := s.connections[id].phase) == s.connections[id]
            && !t.connections[id].phase.Free?
  {
    hide Mapped;
  }

  /** The events that the listener told, of the connections that it retired. */
  function Retired(actions: seq<Action>, i: nat): nat
    requires i <= |actions|
  {
    if i == 0 then 0 else Retired(actions, i - 1) + Count(actions[i - 1].PushRetired?)
  }

  lemma ExternalStep(s: State, a: Action)
    requires s.external && Enabled(s, a) && forall id | id in s.connections :: !s.connections[id].phase.Pushing?
    ensures var t := Step(s, a);
            && t.external && (forall id | id in t.connections :: !t.connections[id].phase.Pushing?)
            && |t.told| == |s.told| + Count(a.PushRetired?)
            && (forall fd | fd in s.mapped && fd !in t.mapped :: a == Retire(fd))
  {
  }

  /**
   * With external connections, the thread that disconnects a connection finds none in the map: only the
   * listener tells events, and only it takes connections out of the map.
   */
  lemma {:induction false} ExternalTellsNobody(states: seq<State>, actions: seq<Action>, i: nat)
    requires IsRun(true, states, actions) && i <= |actions|
    ensures states[i].external && forall id | id in states[i].connections :: !states[i].connections[id].phase.Pushing?
    ensures |states[i].told| == Retired(actions, i)
    ensures i < |actions| ==>
              forall fd | fd in states[i].mapped && fd !in states[i + 1].mapped :: actions[i] == Retire(fd)
  {
    hide Enabled, Step;
    if i > 0 {
      ExternalTellsNobody(states, actions, i - 1);
      ExternalStep(states[i - 1], actions[i - 1]);
    }
    if i < |actions| {
      ExternalStep(states[i], actions[i]);
    }
  }

  ghost predicate NeverFails(external: bool) {
    forall states: seq<State>, actions: seq<Action>, i: nat ::
      IsRun(external, states, actions) && i < |states| ==> !states[i].failed
  }

  /**
   * With an external connection, a disconnect leaves the descriptor in the map, where the next
   * accept trips over it.
   */
  lemma StaleDescriptor() returns (states: seq<State>, actions: seq<Action>)
    ensures IsRun(true, states, actions) && states[|states| - 1].failed
  {
    var on, off := Connection(5, true, Free), Connection(-1, false, Free);
    var s0 := Initial(true);
    var s1 := s0.(open := {5}, connections := map[0 := on], mapped := map[5 := 0]);
    var s2 := s1.(connections := map[0 := on.(phase := Phase.Telling)]);
    var s3 := s1.(connections := map[0 := on.(phase := Closing)]);
    var s4 := s1.(open := {}, connections := map[0 := off], closes := multiset{0});
    var s5 := s4.(open := {5}, connections := map[0 := off, 1 := on], failed := true);
    actions := [Accept(5, 0), Lock(0), Tell(0, None), Close(0), Accept(5, 1)];
    states := [s0, s1, s2, s3, s4, s5];
    assert s1 == Step(s0, Accept(5, 0));
    assert s2 == Step(s1, Lock(0));
    assert s3 == Step(s2, Tell(0, None));
    assert s4 == Step(s3, Close(0));
    assert s5 == Step(s4, Accept(5, 1));
  }

  /**
   * The assertion that an accepted descriptor is not in the map holds, in all runs, exactly without
   * external connections.
   */
  lemma AssertionHoldsIffNoExternal(external: bool)
    ensures NeverFails(external) <==> !external
  {
    if external {
      var states, actions := StaleDescriptor();
      var last := |states| - 1;
      assert IsRun(external, states, actions) && last < |states| && states[last].failed;
    } else {
      forall states: seq<State>, actions: seq<Action>, i: nat | IsRun(external, states, actions) && i < |states|
        ensures !states[i].failed
      {
        RunKeepsInv(states, actions, i);
      }
    }
  }

  // ---------------------------------------------------------------------------
  // The end of the listener
  // ---------------------------------------------------------------------------

  /** What tell_disconnected makes of the map: it looks for the connection if there are no external ones. */
  function Untold(mapped: map<nat, nat>, id: nat, external: bool): map<nat, nat> {
    if external then mapped else map fd | fd in mapped && mapped[fd] != id :: mapped[fd]
  }

  /** What is left in the map are the entries of other connections. */
  ghost predicate LeavesOthers(mapped: map<nat, nat>, id: nat, left: map<nat, nat>) {
    && (forall fd :: fd in left <==> fd in mapped && mapped[fd] != id)
    && (forall fd | fd in left :: left[fd] == mapped[fd])
  }

  /**
   * The loop that disconnects all connections at the end, while no other thread touches the map. It
   * goes over the entries, and tells each connection; the entry that it stands on may be erased by
   * that, and then it cannot go on to the next.
   */
  method DisconnectAll(mapped: map<nat, nat>, external: bool) returns (ok: bool, left: map<nat, nat>)
    ensures ok <==> external || mapped == map[]
    ensures ok ==> left == mapped
    ensures !ok ==> exists fd :: fd in mapped && LeavesOthers(mapped, mapped[fd], left)
  {
    left := mapped;
    var todo := mapped.Keys;
    while todo != {}
      invariant todo <= mapped.Keys && left == mapped
      invariant todo < mapped.Keys ==> external
      decreases todo
    {
      var fd :| fd in todo;
      left := Untold(left, left[fd], external);
      assert external || LeavesOthers(mapped, mapped[fd], left);
      if fd !in left {
        return false, left;
      }
      todo := todo - {fd};
    }
    ok := true;
  }
}
