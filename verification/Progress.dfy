/**
 * What the machine of threads and queues can always still do: no run ends in a state from which an
 * event cannot be delivered, or the listener cannot be joined.
 */
module Progress {
  import opened Options
  import opened Delivery
  import opened DeliveryLimits

  /** The steps lead from one state to another. */
  ghost predicate Executes(cfg: Config, s: State, acts: seq<Action>, t: State)
    decreases |acts|
  {
    if acts == [] then s == t
    else
      && |s.consumers| == |cfg.slots| && Enabled(cfg, s, acts[0])
      && Executes(cfg, Step(cfg, s, acts[0]), acts[1..], t)
  }

  /** They are steps of the thread of one consumer. */
  predicate AreOf(acts: seq<Action>, c: nat) {
    forall a | a in acts :: OfConsumer(a) && a.c == c
  }

  lemma {:induction false} Then(cfg: Config, s: State, a: seq<Action>, t: State, b: seq<Action>, u: State)
    requires Executes(cfg, s, a, t) && Executes(cfg, t, b, u)
    ensures Executes(cfg, s, a + b, u)
    decreases |a|
  {
    hide Enabled, Step;
    if a == [] {
      assert a + b == b;
    } else {
      Then(cfg, Step(cfg, s, a[0]), a[1..], t, b, u);
      assert (a + b)[0] == a[0] && (a + b)[1..] == a[1..] + b;
    }
  }

  lemma One(cfg: Config, s: State, a: Action)
    requires |s.consumers| == |cfg.slots| && Enabled(cfg, s, a)
    ensures Executes(cfg, s, [a], Step(cfg, s, a))
  {
    hide Enabled, Step;
    assert [a][1..] == [];
    assert Executes(cfg, Step(cfg, s, a), [], Step(cfg, s, a));
  }

  /** What a run has come to, it can go on from. */
  lemma {:induction false} GoesOn(cfg: Config, states: seq<State>, actions: seq<Action>, acts: seq<Action>, t: State)
    returns (more: seq<State>)
    requires IsRun(cfg, states, actions) && Executes(cfg, states[|states| - 1], acts, t)
    ensures IsRun(cfg, more, actions + acts) && more[|more| - 1] == t
    decreases |acts|
  {
    hide Enabled, Step;
    if acts == [] {
      assert actions + acts == actions;
      more := states;
    } else {
      var next, so := Extend(cfg, states, actions, acts[0]);
      more := GoesOn(cfg, next, so, acts[1..], t);
      assert so + acts[1..] == actions + acts;
    }
  }

  /** The steps of a consumer leave the rest of the program as it is. */
  ghost predicate LeavesOthers(s: State, t: State, c: nat) {
    && t.listener == s.listener && t.running == s.running && t.silent == s.silent && |t.consumers| == |s.consumers|
    && (forall d: nat | d < |s.consumers| && d != c :: t.consumers[d] == s.consumers[d])
    && (c < |s.consumers| ==> t.consumers[c].running == s.consumers[c].running)
    && (c < |s.consumers| && t.consumers[c].wake ==> s.consumers[c].wake)
    && (forall q :: At(t, q).log == At(s, q).log)
  }

  lemma OneLeavesOthers(cfg: Config, s: State, a: Action)
    requires |s.consumers| == |cfg.slots| && Enabled(cfg, s, a) && OfConsumer(a)
    ensures LeavesOthers(s, Step(cfg, s, a), a.c)
  {
    hide NextPc;
  }

  lemma {:induction false} StepsLeaveOthers(cfg: Config, s: State, acts: seq<Action>, t: State, c: nat)
    requires Executes(cfg, s, acts, t) && AreOf(acts, c)
    ensures LeavesOthers(s, t, c)
    decreases |acts|
  {
    hide Enabled, Step;
    if acts != [] {
      OneLeavesOthers(cfg, s, acts[0]);
      StepsLeaveOthers(cfg, Step(cfg, s, acts[0]), acts[1..], t, c);
    }
  }

  // ---------------------------------------------------------------------------
  // A pass comes to its end
  // ---------------------------------------------------------------------------

  /** The consumer is in a pass, at a place where it may be. */
  predicate InPass(cfg: Config, s: State, c: nat) {
    && c < |s.consumers| == |cfg.slots| && s.consumers[c].pc.Pass?
    && (s.consumers[c].pc.stage.Slots? ==> s.consumers[c].pc.stage.i <= |cfg.slots[c]|)
    && (s.consumers[c].pc.hand.Some? ==> Current(cfg, s, c).Some?)
  }

  /** It delivers what it has in hand, and all that waits where it stands. */
  lemma {:induction false} EmptiesQueue(cfg: Config, s: State, c: nat) returns (acts: seq<Action>, t: State)
    requires InPass(cfg, s, c)
    ensures Executes(cfg, s, acts, t) && AreOf(acts, c)
    ensures InPass(cfg, t, c) && t.consumers[c].pc == s.consumers[c].pc.(hand := None) && NothingHere(cfg, t, c)
    ensures forall n :: Named(n) in t.queues && Current(cfg, s, c) != Some(Named(n)) ==> Named(n) in s.queues
    decreases if NothingHere(cfg, s, c) then 0 else |At(s, Current(cfg, s, c).value).waiting|,
              if s.consumers[c].pc.hand.Some? then 1 else 0
  {
    var k := s.consumers[c].pc;
    if k.hand.Some? {
      acts, t := StepThenEmpties(cfg, s, c, Deliver(c));
    } else if !NothingHere(cfg, s, c) {
      acts, t := StepThenEmpties(cfg, s, c, Pop(c));
    } else {
      acts, t := [], s;
    }
  }

  lemma StepThenEmpties(cfg: Config, s: State, c: nat, a: Action) returns (acts: seq<Action>, t: State)
    requires InPass(cfg, s, c)
    requires if s.consumers[c].pc.hand.Some? then a == Deliver(c) else a == Pop(c) && !NothingHere(cfg, s, c)
    ensures Executes(cfg, s, acts, t) && AreOf(acts, c)
    ensures InPass(cfg, t, c) && t.consumers[c].pc == s.consumers[c].pc.(hand := None) && NothingHere(cfg, t, c)
    ensures forall n :: Named(n) in t.queues && Current(cfg, s, c) != Some(Named(n)) ==> Named(n) in s.queues
    decreases if NothingHere(cfg, s, c) then 0 else |At(s, Current(cfg, s, c).value).waiting|,
              if s.consumers[c].pc.hand.Some? then 1 else 0, 0
  {
    var u := Step(cfg, s, a);
    One(cfg, s, a);
    var rest;
    rest, t := EmptiesQueue(cfg, u, c);
    Then(cfg, s, [a], u, rest, t);
    acts := [a] + rest;
  }

  /** Empties the queue it stands at, and takes one step more. */
  lemma EmptiesThen(cfg: Config, s: State, c: nat, t: State, acts: seq<Action>, a: Action)
    returns (all: seq<Action>, u: State)
    requires Executes(cfg, s, acts, t) && AreOf(acts, c)
    requires |t.consumers| == |cfg.slots| && OfConsumer(a) && a.c == c && Enabled(cfg, t, a)
    ensures Executes(cfg, s, all, u) && AreOf(all, c) && u == Step(cfg, t, a)
  {
    hide Enabled, Step;
    u := Step(cfg, t, a);
    One(cfg, t, a);
    Then(cfg, s, acts, t, [a], u);
    all := acts + [a];
  }

  lemma Joined(cfg: Config, s: State, a: seq<Action>, t: State, b: seq<Action>, u: State, c: nat)
    requires Executes(cfg, s, a, t) && AreOf(a, c) && Executes(cfg, t, b, u) && AreOf(b, c)
    ensures Executes(cfg, s, a + b, u) && AreOf(a + b, c)
  {
    Then(cfg, s, a, t, b, u);
  }

  /** It leaves its slots. */
  lemma {:induction false} LeavesItsSlots(cfg: Config, s: State, c: nat) returns (acts: seq<Action>, t: State)
    requires InPass(cfg, s, c) && s.consumers[c].pc.stage.Slots?
    ensures Executes(cfg, s, acts, t) && AreOf(acts, c) && InPass(cfg, t, c)
    ensures var f := s.consumers[c].pc.final;
            t.consumers[c].pc == Pass(f, if cfg.onEvent == Some(c) then Events(0) else Disconnections, None)
    decreases |cfg.slots[c]| - s.consumers[c].pc.stage.i
  {
    var u, v, rest;
    acts, u := EmptiesQueue(cfg, s, c);
    acts, v := EmptiesThen(cfg, s, c, u, acts, NextSlot(c));
    if s.consumers[c].pc.stage.i < |cfg.slots[c]| {
      rest, t := LeavesItsSlots(cfg, v, c);
      Joined(cfg, s, acts, v, rest, t, c);
      acts := acts + rest;
    } else {
      t := v;
    }
  }

  /** The names of queues from some name on. */
  ghost function NamesFrom(s: State, from: Name): set<Name> {
    set q | q in s.queues && q.Named? && q.name >= from :: q.name
  }

  lemma {:induction false} Least(names: set<Name>) returns (m: Name)
    requires names != {}
    ensures m in names && forall n | n in names :: m <= n
    decreases |names|
  {
    var first :| first in names;
    m := first;
    if names != {first} {
      var rest := names - {first};
      assert rest != {} by {
        assert rest + {first} == names;
      }
      var least := Least(rest);
      if least < first {
        m := least;
      }
      assert forall n | n in names :: n == first || n in rest;
    }
  }

  /** The next queue of a name that no one is bound to, if there is one. */
  lemma NextVisitable(cfg: Config, s: State, from: Name) returns (next: Option<Name>)
    ensures next.None? ==> forall m :: from <= m ==> !Visitable(cfg, s, m)
    ensures next.Some? ==>
              && from <= next.value && Visitable(cfg, s, next.value)
              && forall m :: from <= m < next.value ==> !Visitable(cfg, s, m)
  {
    var names := set n | n in NamesFrom(s, from) && Visitable(cfg, s, n);
    forall m | from <= m && Visitable(cfg, s, m) ensures m in names {
      assert Named(m) in s.queues && Named(m).name == m;
    }
    if names == {} {
      next := None;
    } else {
      var name := Least(names);
      next := Some(name);
    }
  }

  lemma FewerNames(s: State, t: State, from: Name, name: Name)
    requires from <= name && Named(name) in s.queues
    requires forall n :: Named(n) in t.queues && n != name ==> Named(n) in s.queues
    ensures |NamesFrom(t, name + 1)| < |NamesFrom(s, from)|
  {
    var before, after := NamesFrom(s, from), NamesFrom(t, name + 1);
    assert Named(name).name == name && name in before;
    forall n | n in after ensures n in before - {name} {
      assert Named(n) in t.queues && Named(n).name == n;
      assert Named(n) in s.queues;
    }
    Smaller(after, before - {name});
  }

  lemma {:induction false} Smaller(a: set<Name>, b: set<Name>)
    requires a <= b
    ensures |a| <= |b|
    decreases |a|
  {
    if x :| x in a {
      Smaller(a - {x}, b - {x});
    }
  }

  /** It leaves the events that no one is bound to. */
  lemma {:induction false} LeavesTheEvents(cfg: Config, s: State, c: nat) returns (acts: seq<Action>, t: State)
    requires InPass(cfg, s, c) && s.consumers[c].pc.stage.Events? && s.consumers[c].pc.hand == None
    ensures Executes(cfg, s, acts, t) && AreOf(acts, c) && InPass(cfg, t, c)
    ensures t.consumers[c].pc == Pass(s.consumers[c].pc.final, Disconnections, None)
    decreases |NamesFrom(s, s.consumers[c].pc.stage.from)|
  {
    var from := s.consumers[c].pc.stage.from;
    var next := NextVisitable(cfg, s, from);
    assert Executes(cfg, s, [], s);
    if next.None? {
      acts, t := EmptiesThen(cfg, s, c, s, [], NoMoreEvents(c));
    } else {
      var u := VisitsNext(cfg, s, c, next.value);
      hide Executes, NamesFrom, InPass;
      var v, rest;
      rest, v := LeavesOneEvent(cfg, u, c);
      FewerNames(s, v, from, next.value);
      acts := [Visit(c, next.value)] + rest;
      Joined(cfg, s, [Visit(c, next.value)], u, rest, v, c);
      rest, t := LeavesTheEvents(cfg, v, c);
      Joined(cfg, s, acts, v, rest, t, c);
      acts := acts + rest;
    }
  }

  lemma VisitsNext(cfg: Config, s: State, c: nat, name: Name) returns (u: State)
    requires InPass(cfg, s, c) && s.consumers[c].pc.stage.Events? && s.consumers[c].pc.hand == None
    requires s.consumers[c].pc.stage.from <= name && Visitable(cfg, s, name)
    requires forall m :: s.consumers[c].pc.stage.from <= m < name ==> !Visitable(cfg, s, m)
    ensures Executes(cfg, s, [Visit(c, name)], u) && AreOf([Visit(c, name)], c)
    ensures InPass(cfg, u, c) && u.queues == s.queues
    ensures u.consumers[c].pc == Pass(s.consumers[c].pc.final, EventAt(name), None)
  {
    u := Step(cfg, s, Visit(c, name));
    One(cfg, s, Visit(c, name));
  }

  lemma LeavesOneEvent(cfg: Config, s: State, c: nat) returns (acts: seq<Action>, t: State)
    requires InPass(cfg, s, c) && s.consumers[c].pc.stage.EventAt?
    ensures Executes(cfg, s, acts, t) && AreOf(acts, c) && InPass(cfg, t, c)
    ensures var k := s.consumers[c].pc;
            && t.consumers[c].pc == Pass(k.final, Events(k.stage.name + 1), None)
            && forall n :: Named(n) in t.queues && n != k.stage.name ==> Named(n) in s.queues
  {
    var u;
    acts, u := EmptiesQueue(cfg, s, c);
    acts, t := EmptiesThen(cfg, s, c, u, acts, NextEvent(c));
  }

  /** It comes to the last stage of its pass. */
  lemma ToDisconnections(cfg: Config, s: State, c: nat) returns (acts: seq<Action>, t: State)
    requires InPass(cfg, s, c)
    ensures Executes(cfg, s, acts, t) && AreOf(acts, c) && InPass(cfg, t, c)
    ensures t.consumers[c].pc == Pass(s.consumers[c].pc.final, Disconnections, None)
  {
    acts, t := ToEvents(cfg, s, c);
    hide Executes;
    if t.consumers[c].pc.stage.Events? {
      var u, rest := t, acts;
      rest, t := LeavesTheEvents(cfg, u, c);
      Joined(cfg, s, acts, u, rest, t, c);
      acts := acts + rest;
    }
  }

  lemma ToEvents(cfg: Config, s: State, c: nat) returns (acts: seq<Action>, t: State)
    requires InPass(cfg, s, c)
    ensures Executes(cfg, s, acts, t) && AreOf(acts, c) && InPass(cfg, t, c)
    ensures var k := t.consumers[c].pc;
            k == Pass(s.consumers[c].pc.final, k.stage, None) && (k.stage.Events? || k.stage.Disconnections?)
  {
    hide Executes;
    if s.consumers[c].pc.stage.Slots? {
      acts, t := LeavesItsSlots(cfg, s, c);
    } else if s.consumers[c].pc.stage.EventAt? {
      acts, t := LeavesOneEvent(cfg, s, c);
    } else {
      acts, t := EmptiesQueue(cfg, s, c);
    }
  }

  /** A pass comes to its end. */
  lemma EndsPass(cfg: Config, s: State, c: nat) returns (acts: seq<Action>, t: State)
    requires InPass(cfg, s, c)
    ensures Executes(cfg, s, acts, t) && AreOf(acts, c)
    ensures |t.consumers| == |s.consumers|
    ensures t.consumers[c].pc == if s.consumers[c].pc.final then Ended else Testing
  {
    var u, v, rest;
    acts, u := ToDisconnections(cfg, s, c);
    hide Executes;
    rest, v := EmptiesQueue(cfg, u, c);
    Joined(cfg, s, acts, u, rest, v, c);
    acts, t := EmptiesThen(cfg, s, c, v, acts + rest, EndPass(c));
  }

  // ---------------------------------------------------------------------------
  // The join of a consumer, and of the listener
  // ---------------------------------------------------------------------------

  /** A consumer that is not to run any more comes nearer to its end: a pass, or a step in front of one. */
  lemma EndsTurn(cfg: Config, s: State, c: nat) returns (acts: seq<Action>, t: State)
    requires c < |s.consumers| == |cfg.slots| && !s.consumers[c].running
    requires !s.consumers[c].pc.Idle? && !s.consumers[c].pc.Ended?
    requires s.consumers[c].pc.Pass? ==> InPass(cfg, s, c)
    ensures Executes(cfg, s, acts, t) && AreOf(acts, c)
    ensures |t.consumers| == |s.consumers| && !t.consumers[c].running && (t.consumers[c].pc.Pass? ==> InPass(cfg, t, c))
    ensures Left(t.consumers[c].pc) < Left(s.consumers[c].pc) && !t.consumers[c].pc.Idle?
  {
    var k := s.consumers[c];
    if k.pc.Pass? {
      acts, t := EndsPass(cfg, s, c);
      StepsLeaveOthers(cfg, s, acts, t, c);
      hide Executes, Enabled, Step;
    } else {
      var a := if k.pc.Testing? then Test(c) else if k.wake then Wake(c) else Timeout(c);
      acts, t := [a], Step(cfg, s, a);
      One(cfg, s, a);
      hide Executes;
    }
  }

  /** How far it is to the end. */
  function Left(pc: ConsumerPc): nat {
    match pc
    case Ended => 0
    case Pass(final, _, _) => if final then 1 else 3
    case Testing => 2
    case Waiting => 4
    case Idle => 5
  }

  /** A consumer that is not to run any more comes to its end. */
  lemma {:induction false} Ends(cfg: Config, s: State, c: nat) returns (acts: seq<Action>, t: State)
    requires c < |s.consumers| == |cfg.slots| && !s.consumers[c].running && !s.consumers[c].pc.Idle?
    requires s.consumers[c].pc.Pass? ==> InPass(cfg, s, c)
    ensures Executes(cfg, s, acts, t) && AreOf(acts, c)
    ensures |t.consumers| == |s.consumers| && t.consumers[c].pc.Ended?
    decreases Left(s.consumers[c].pc)
  {
    assert Executes(cfg, s, [], s);
    hide Executes, InPass;
    if s.consumers[c].pc.Ended? {
      acts, t := [], s;
    } else {
      var u, rest;
      acts, u := EndsTurn(cfg, s, c);
      rest, t := Ends(cfg, u, c);
      Joined(cfg, s, acts, u, rest, t, c);
      acts := acts + rest;
    }
  }

  lemma MayBeInPass(cfg: Config, s: State, c: nat)
    requires Shaped(cfg, s) && c < |s.consumers| && s.consumers[c].pc.Pass?
    ensures InPass(cfg, s, c)
  {
  }

  /**
   * The consumer that the listener waits for comes to its end by its own steps alone, whatever is
   * queued and in hands.
   */
  lemma AwaitedEnds(cfg: Config, states: seq<State>, actions: seq<Action>)
    returns (more: seq<State>, acts: seq<Action>)
    requires WellFormed(cfg) && IsRun(cfg, states, actions) && states[|states| - 1].listener.Awaiting?
    ensures IsRun(cfg, more, actions + acts) && AreOf(acts, states[|states| - 1].listener.k)
    ensures var last := more[|more| - 1];
            && last.listener == states[|states| - 1].listener
            && |last.consumers| == |cfg.slots| && Enabled(cfg, last, Await)
  {
    var s := states[|states| - 1];
    var c := s.listener.k;
    RunKeepsInv(cfg, states, actions, |states| - 1);
    AwaitedIsNotIdle(cfg, s);
    var t;
    acts, t := Ends(cfg, s, c);
    StepsLeaveOthers(cfg, s, acts, t, c);
    hide IsRun, Executes, Inv, InPass;
    more := GoesOn(cfg, states, actions, acts, t);
  }

  lemma AwaitedIsNotIdle(cfg: Config, s: State)
    requires Inv(cfg, s) && s.listener.Awaiting?
    ensures var c := s.listener.k;
            && c < |s.consumers| == |cfg.slots| && !s.consumers[c].running && !s.consumers[c].pc.Idle?
            && (s.consumers[c].pc.Pass? ==> InPass(cfg, s, c))
  {
    var c := s.listener.k;
    assert c < |cfg.slots|;
    assert OrderlyAt(cfg, s, c);
    if s.consumers[c].pc.Pass? {
      MayBeInPass(cfg, s, c);
    }
  }

  /** What the program does with a consumer: it starts it, and joins it. */
  predicate AreAbout(acts: seq<Action>, c: nat) {
    forall a | a in acts :: a == StartConsumer(c) || a == StopConsumer(c) || (OfConsumer(a) && a.c == c)
  }

  /** A consumer can be started once, and joined by the program as long as it runs. */
  lemma MayStartOrStop(cfg: Config, states: seq<State>, actions: seq<Action>, c: nat)
    requires WellFormed(cfg) && IsRun(cfg, states, actions) && c < |cfg.slots|
    ensures var s := states[|states| - 1];
            && |s.consumers| == |cfg.slots|
            && (s.consumers[c].pc.Idle? ==>
                  && !s.consumers[c].running && Enabled(cfg, s, StartConsumer(c))
                  && StartsIt(s, Step(cfg, s, StartConsumer(c)), c))
            && (s.consumers[c].running ==>
                  Enabled(cfg, s, StopConsumer(c)) && StopsIt(s, Step(cfg, s, StopConsumer(c)), c))
            && (s.consumers[c].pc.Pass? ==> InPass(cfg, s, c))
  {
    RunKeepsInv(cfg, states, actions, |states| - 1);
    var s := states[|states| - 1];
    hide IsRun, WellFormed, Conserved, Bounded, Covered;
    assert OrderlyAt(cfg, s, c);
    if s.consumers[c].pc.Pass? {
      MayBeInPass(cfg, s, c);
    }
  }

  predicate StartsIt(s: State, t: State, c: nat) {
    |t.consumers| == |s.consumers| && c < |t.consumers| && t.consumers[c].running && !t.consumers[c].pc.Idle?
  }

  predicate StopsIt(s: State, t: State, c: nat) {
    && |t.consumers| == |s.consumers| && c < |s.consumers|
    && !t.consumers[c].running && t.consumers[c].pc == s.consumers[c].pc
  }

  /** What the program has to do with a consumer before it ends by itself. */
  function StartsAndStops(s: State, c: nat): nat {
    if c < |s.consumers| && s.consumers[c].pc.Idle? then 2
    else if c < |s.consumers| && s.consumers[c].running then 1
    else 0
  }

  /**
   * Whatever else goes on, a consumer can be started, if it was not yet, and joined; then it comes to its
   * end by its own steps.
   */
  lemma {:induction false} ConsumerCanEnd(cfg: Config, states: seq<State>, actions: seq<Action>, c: nat)
    returns (more: seq<State>, acts: seq<Action>)
    requires WellFormed(cfg) && IsRun(cfg, states, actions) && c < |cfg.slots|
    ensures IsRun(cfg, more, actions + acts) && AreAbout(acts, c)
    ensures var last := more[|more| - 1];
            |last.consumers| == |cfg.slots| && last.consumers[c].pc.Ended? && !last.consumers[c].running
    decreases StartsAndStops(states[|states| - 1], c)
  {
    hide WellFormed, Enabled, Step, InPass;
    MayStartOrStop(cfg, states, actions, c);
    var s := states[|states| - 1];
    if s.consumers[c].pc.Idle? || s.consumers[c].running {
      var a := if s.consumers[c].running then StopConsumer(c) else StartConsumer(c);
      var so;
      more, so := Extend(cfg, states, actions, a);
      more, acts := ConsumerCanEnd(cfg, more, so, c);
      assert (actions + [a]) + acts == actions + ([a] + acts);
      acts := [a] + acts;
    } else {
      var t;
      acts, t := Ends(cfg, s, c);
      StepsLeaveOthers(cfg, s, acts, t, c);
      more := GoesOn(cfg, states, actions, acts, t);
    }
  }

  /** Where a listener is that joins its consumers. */
  lemma JoinsInRange(cfg: Config, states: seq<State>, actions: seq<Action>)
    requires WellFormed(cfg) && IsRun(cfg, states, actions)
    ensures var s := states[|states| - 1];
            && |s.consumers| == |cfg.slots|
            && (s.listener.Joining? ==> s.listener.k <= |cfg.slots|)
            && (s.listener.Awaiting? ==> s.listener.k < |cfg.slots|)
  {
    hide Step, Enabled, Shaped, Conserved, Bounded, Covered;
    RunKeepsInv(cfg, states, actions, |states| - 1);
    assert Shaped(cfg, states[|states| - 1]);
    ShapedCount(cfg, states[|states| - 1]);
  }

  lemma ShapedCount(cfg: Config, s: State)
    requires Shaped(cfg, s)
    ensures |s.consumers| == |cfg.slots|
  {
  }

  /** The listener comes to the end of its joins. */
  lemma {:induction false} JoinsEnd(cfg: Config, states: seq<State>, actions: seq<Action>)
    returns (more: seq<State>, acts: seq<Action>)
    requires WellFormed(cfg) && IsRun(cfg, states, actions)
    requires var l := states[|states| - 1].listener; l.Joining? || l.Awaiting?
    ensures IsRun(cfg, more, acts) && actions <= acts && more[|more| - 1].listener.Finished?
    decreases |cfg.slots| - states[|states| - 1].listener.k, if states[|states| - 1].listener.Joining? then 1 else 0
  {
    hide WellFormed;
    JoinsInRange(cfg, states, actions);
    var s := states[|states| - 1];
    if s.listener.Awaiting? {
      more, acts := AwaitedIsJoined(cfg, states, actions);
      more, acts := JoinsEnd(cfg, more, acts);
    } else if s.listener.k == |cfg.slots| {
      more, acts := Extend(cfg, states, actions, Finish);
    } else {
      more, acts := Extend(cfg, states, actions, JoinTest);
      more, acts := JoinsEnd(cfg, more, acts);
    }
  }

  lemma AwaitedIsJoined(cfg: Config, states: seq<State>, actions: seq<Action>)
    returns (more: seq<State>, acts: seq<Action>)
    requires WellFormed(cfg) && IsRun(cfg, states, actions) && states[|states| - 1].listener.Awaiting?
    ensures IsRun(cfg, more, acts) && actions <= acts
    ensures more[|more| - 1].listener == Joining(states[|states| - 1].listener.k + 1)
  {
    var own;
    more, own := AwaitedEnds(cfg, states, actions);
    hide IsRun, ConsumerEnabled, WellFormed;
    more, acts := Extend(cfg, more, actions + own, Await);
  }

  /** One step of the listener's own on the way to its joins, when it was asked to end. */
  function NextOfListener(l: ListenerPc): Action {
    match l
    case Polling => StopPolling
    case Pushing(_, _) => Push
    case Notifying(_) => Notify
    case Telling(_) => PushClosed
    case _ => EndClosing
  }

  function FarFromJoins(l: ListenerPc): nat {
    match l
    case Pushing(_, _) => 5
    case Notifying(_) => 4
    case Polling => 3
    case Telling(_) => 2
    case Closing => 1
    case _ => 0
  }

  /** Once it was called for, it stays so. */
  lemma {:induction false} JoinIsCalledFor(cfg: Config, states: seq<State>, actions: seq<Action>, i: nat)
    requires IsRun(cfg, states, actions) && i < |states|
    ensures states[i].running <==> JoinListener !in actions[..i]
    ensures IsEnding(states[i].listener) ==> !states[i].running
  {
    hide Step, Enabled;
    if i == 0 {
      assert actions[..0] == [];
    } else {
      JoinIsCalledFor(cfg, states, actions, i - 1);
      assert actions[..i] == actions[..i - 1] + [actions[i - 1]];
      CallForJoin(cfg, states[i - 1], actions[i - 1]);
    }
  }

  lemma CallForJoin(cfg: Config, s: State, a: Action)
    requires |s.consumers| == |cfg.slots| && Enabled(cfg, s, a) && (IsEnding(s.listener) ==> !s.running)
    ensures var t := Step(cfg, s, a);
            && (t.running <==> s.running && !a.JoinListener?) && (IsEnding(t.listener) ==> !t.running)
  {
    hide ConsumerEnabled, ConsumerStep, ListenerStep, UserStep, IsEnding;
    if OfConsumer(a) {
      OneLeavesOthers(cfg, s, a);
    } else if OfListener(a) {
      ListenerIsCalled(cfg, s, a);
    } else {
      UserCalls(cfg, s, a);
    }
  }

  lemma ListenerIsCalled(cfg: Config, s: State, a: Action)
    requires |s.consumers| == |cfg.slots| && ListenerEnabled(s, a) && (IsEnding(s.listener) ==> !s.running)
    ensures var t := ListenerStep(cfg, s, a); t.running == s.running && (IsEnding(t.listener) ==> !t.running)
  {
    hide At, Logged, Woken, Full;
  }

  lemma UserCalls(cfg: Config, s: State, a: Action)
    requires UserEnabled(s, a)
    ensures var t := UserStep(cfg, s, a); t.listener == s.listener && (t.running <==> s.running && !a.JoinListener?)
  {
    hide At, Logged, Full;
  }

  lemma {:induction false} EndsOnceCalledFor(cfg: Config, states: seq<State>, actions: seq<Action>)
    returns (more: seq<State>, acts: seq<Action>)
    requires WellFormed(cfg) && IsRun(cfg, states, actions) && !states[|states| - 1].running
    ensures IsRun(cfg, more, acts) && actions <= acts && more[|more| - 1].listener.Finished?
    decreases FarFromJoins(states[|states| - 1].listener)
  {
    hide WellFormed;
    JoinsInRange(cfg, states, actions);
    var s := states[|states| - 1];
    if s.listener.Finished? {
      more, acts := states, actions;
    } else if s.listener.Joining? || s.listener.Awaiting? {
      more, acts := JoinsEnd(cfg, states, actions);
    } else {
      more, acts := Extend(cfg, states, actions, NextOfListener(s.listener));
      more, acts := EndsOnceCalledFor(cfg, more, acts);
    }
  }

  /** Once someone has called for it, the listener can always be joined: every run goes on to its end. */
  lemma JoinListenerEnds(cfg: Config, states: seq<State>, actions: seq<Action>)
    returns (more: seq<State>, acts: seq<Action>)
    requires WellFormed(cfg) && IsRun(cfg, states, actions) && JoinListener in actions
    ensures IsRun(cfg, more, acts) && actions <= acts && more[|more| - 1].listener.Finished?
  {
    hide Step, Enabled, WellFormed;
    assert actions[..|actions|] == actions;
    JoinIsCalledFor(cfg, states, actions, |actions|);
    more, acts := EndsOnceCalledFor(cfg, states, actions);
  }

  // ---------------------------------------------------------------------------
  // The delivery of what waits
  // ---------------------------------------------------------------------------

  /** A consumer that runs comes to the head of its loop. */
  lemma ToHeadOfLoop(cfg: Config, s: State, c: nat) returns (acts: seq<Action>, t: State)
    requires c < |s.consumers| == |cfg.slots| && s.consumers[c].running
    requires s.consumers[c].pc.Testing? || s.consumers[c].pc.Waiting? || (InPass(cfg, s, c) && !s.consumers[c].pc.final)
    ensures Executes(cfg, s, acts, t) && AreOf(acts, c) && LeavesOthers(s, t, c)
    ensures t.consumers[c].pc.Testing? || t.consumers[c].pc.Waiting?
  {
    assert Executes(cfg, s, [], s);
    if s.consumers[c].pc.Pass? {
      acts, t := EndsPass(cfg, s, c);
    } else {
      acts, t := [], s;
    }
    StepsLeaveOthers(cfg, s, acts, t, c);
    hide Executes, LeavesOthers;
  }

  /** It wakes up, if it is to. */
  lemma WakesUp(cfg: Config, s: State, c: nat) returns (acts: seq<Action>, t: State)
    requires c < |s.consumers| == |cfg.slots| && s.consumers[c].running && s.consumers[c].wake
    requires s.consumers[c].pc.Testing? || s.consumers[c].pc.Waiting?
    ensures Executes(cfg, s, acts, t) && AreOf(acts, c)
    ensures InPass(cfg, t, c) && !t.consumers[c].pc.final && !t.consumers[c].wake && t.consumers[c].running
  {
    assert Executes(cfg, s, [], s);
    var u;
    acts, u := [], s;
    if s.consumers[c].pc.Testing? {
      acts, u := EmptiesThen(cfg, s, c, s, [], Test(c));
    }
    acts, t := EmptiesThen(cfg, s, c, u, acts, Wake(c));
    hide Executes;
  }

  /** And comes to rest, with no wakeup left. */
  lemma ComesToRest(cfg: Config, s: State, c: nat) returns (acts: seq<Action>, t: State)
    requires c < |s.consumers| == |cfg.slots| && s.consumers[c].running
    requires s.consumers[c].pc.Testing? || s.consumers[c].pc.Waiting? || (InPass(cfg, s, c) && !s.consumers[c].pc.final)
    ensures Executes(cfg, s, acts, t) && AreOf(acts, c)
    ensures |t.consumers| == |s.consumers| && !t.consumers[c].wake
    ensures t.consumers[c].pc.Testing? || t.consumers[c].pc.Waiting?
  {
    hide Executes, AreOf;
    acts, t := ToHeadOfLoop(cfg, s, c);
    if t.consumers[c].wake {
      var u, v := t, t;
      var rest;
      rest, v := WakesUp(cfg, u, c);
      Joined(cfg, s, acts, u, rest, v, c);
      acts := acts + rest;
      rest, t := ToHeadOfLoop(cfg, v, c);
      Joined(cfg, s, acts, v, rest, t, c);
      acts := acts + rest;
    }
  }

  /** At rest, while no notification is due, a consumer has delivered all that was kept for it. */
  lemma RestHasNothingToDo(cfg: Config, states: seq<State>, actions: seq<Action>, c: nat, q: QueueId)
    requires WellFormed(cfg) && IsRun(cfg, states, actions) && c < |cfg.slots| && Takes(cfg, c, q)
    requires var s := states[|states| - 1];
             && |s.consumers| == |cfg.slots| && !s.consumers[c].wake && !s.listener.Notifying?
             && (s.consumers[c].pc.Testing? || s.consumers[c].pc.Waiting?)
             && (q.Disconnected? ==> !s.silent)
    ensures var queue := At(states[|states| - 1], q);
            queue.waiting == [] && queue.delivered == Kept(queue.log)
  {
    var s := states[|states| - 1];
    RunKeepsInv(cfg, states, actions, |states| - 1);
    assert CoveredAt(cfg, s, c, q);
    assert ConservedAt(cfg, s, q);
    forall d: nat ensures !Holds(cfg, s, d, q) {
      if Holds(cfg, s, d, q) {
        CurrentIsTaken(cfg, s, d);
        OneTaker(cfg, c, d, q);
      }
    }
  }

  /** Where a consumer that runs may be. */
  lemma RunningIsReady(cfg: Config, states: seq<State>, actions: seq<Action>, c: nat)
    requires WellFormed(cfg) && IsRun(cfg, states, actions) && c < |cfg.slots|
    ensures var s := states[|states| - 1];
            && |s.consumers| == |cfg.slots|
            && (s.consumers[c].running ==>
                  || s.consumers[c].pc.Testing? || s.consumers[c].pc.Waiting?
                  || (InPass(cfg, s, c) && !s.consumers[c].pc.final))
  {
    hide Step, Enabled;
    var s := states[|states| - 1];
    RunKeepsInv(cfg, states, actions, |states| - 1);
    ShapedCount(cfg, s);
    assert OrderlyAt(cfg, s, c);
    if s.consumers[c].pc.Pass? {
      MayBeInPass(cfg, s, c);
    }
  }

  /**
   * Whatever was kept for a consumer that runs can always be delivered: after the notification that
   * is due, if there is one, by its own steps alone. For disconnections this takes that none was told
   * since the last notification for them.
   */
  lemma DeliveryIsReached(cfg: Config, states: seq<State>, actions: seq<Action>, c: nat, q: QueueId)
    returns (more: seq<State>, acts: seq<Action>, notice: seq<Action>)
    requires WellFormed(cfg) && IsRun(cfg, states, actions)
    requires c < |cfg.slots| && c < |states[|states| - 1].consumers| && states[|states| - 1].consumers[c].running
    requires Takes(cfg, c, q) && (q.Disconnected? ==> !states[|states| - 1].silent)
    ensures IsRun(cfg, more, actions + notice + acts) && AreOf(acts, c) && (notice == [] || notice == [Notify])
    ensures var before, after := At(states[|states| - 1], q), At(more[|more| - 1], q);
            after.log == before.log && after.waiting == [] && after.delivered == Kept(before.log)
  {
    hide Step, WellFormed, Inv;
    var next, so := states, actions;
    notice := [];
    assert actions + notice == actions;
    RunningIsReady(cfg, states, actions, c);
    if states[|states| - 1].listener.Notifying? {
      next, so, notice := Notices(cfg, states, actions);
    }
    RunningIsReady(cfg, next, so, c);
    var s, t := next[|next| - 1], next[|next| - 1];
    acts, t := ComesToRest(cfg, s, c);
    StepsLeaveOthers(cfg, s, acts, t, c);
    more := GoesOn(cfg, next, so, acts, t);
    RestHasNothingToDo(cfg, more, so + acts, c, q);
  }

  lemma Notices(cfg: Config, states: seq<State>, actions: seq<Action>)
    returns (more: seq<State>, acts: seq<Action>, notice: seq<Action>)
    requires IsRun(cfg, states, actions) && states[|states| - 1].listener.Notifying?
    requires |states[|states| - 1].consumers| == |cfg.slots|
    ensures IsRun(cfg, more, acts) && acts == actions + notice && notice == [Notify]
    ensures var s, t := states[|states| - 1], more[|more| - 1];
            && t.queues == s.queues && t.listener.Polling? && |t.consumers| == |s.consumers| && (t.silent ==> s.silent)
            && forall c | 0 <= c < |s.consumers| :: t.consumers[c].running == s.consumers[c].running
  {
    notice := [Notify];
    more, acts := Extend(cfg, states, actions, Notify);
  }
}
