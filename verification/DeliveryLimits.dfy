/**
 * What the machine of threads and queues does not promise: runs that it takes, for any links, and
 * with them the exact conditions of what it does.
 */
module DeliveryLimits {
  import opened Options
  import opened Delivery

  lemma Extend(cfg: Config, states: seq<State>, actions: seq<Action>, a: Action)
    returns (more: seq<State>, acts: seq<Action>)
    requires IsRun(cfg, states, actions)
    requires var last := states[|states| - 1]; |last.consumers| == |cfg.slots| && Enabled(cfg, last, a)
    ensures IsRun(cfg, more, acts) && more[|more| - 1] == Step(cfg, states[|states| - 1], a)
    ensures acts == actions + [a]
  {
    hide Enabled, Step;
    more, acts := states + [Step(cfg, states[|states| - 1], a)], actions + [a];
  }

  /** The listener picks an event for a queue that is not full. */
  lemma PushOne(cfg: Config, states: seq<State>, actions: seq<Action>, q: QueueId, item: Item)
    returns (more: seq<State>, acts: seq<Action>)
    requires IsRun(cfg, states, actions)
    requires var last := states[|states| - 1];
             last.listener.Polling? && |last.consumers| == |cfg.slots| && !Full(cfg, At(last, q))
    ensures IsRun(cfg, more, acts) && acts == actions + [Pick(q, item), Push, Notify]
    ensures var last, now := states[|states| - 1], more[|more| - 1];
            && now.listener.Polling? && |now.consumers| == |cfg.slots| && now.late == last.late
            && (forall c: nat | c < |cfg.slots| :: now.consumers[c].running == last.consumers[c].running)
            && At(now, q) == Logged(At(last, q), item, true)
  {
    hide IsRun;
    more, acts := Extend(cfg, states, actions, Pick(q, item));
    more, acts := Extend(cfg, more, acts, Push);
    more, acts := Extend(cfg, more, acts, Notify);
  }

  lemma NothingYet(cfg: Config) returns (states: seq<State>, actions: seq<Action>)
    ensures IsRun(cfg, states, actions) && states[|states| - 1] == Initial(cfg) && actions == []
  {
    states, actions := [Initial(cfg)], [];
  }

  /** The listener is joined while nothing else happens. */
  lemma ListenerLeaves(cfg: Config, states: seq<State>, actions: seq<Action>)
    returns (more: seq<State>, acts: seq<Action>)
    requires IsRun(cfg, states, actions) && states[|states| - 1].listener.Polling?
    requires |states[|states| - 1].consumers| == |cfg.slots|
    ensures IsRun(cfg, more, acts)
    ensures more[|more| - 1] == states[|states| - 1].(listener := Joining(0), running := false)
  {
    hide IsRun;
    more, acts := Extend(cfg, states, actions, JoinListener);
    more, acts := Extend(cfg, more, acts, StopPolling);
    more, acts := Extend(cfg, more, acts, EndClosing);
  }

  /** A thread of the program disconnects a connection, when no disconnection waits. */
  lemma TellOne(cfg: Config, states: seq<State>, actions: seq<Action>) returns (more: seq<State>, acts: seq<Action>)
    requires IsRun(cfg, states, actions)
    requires var last := states[|states| - 1];
             |last.consumers| == |cfg.slots| && At(last, Disconnected).waiting == []
    ensures IsRun(cfg, more, acts)
    ensures var last, now := states[|states| - 1], more[|more| - 1];
            && now.consumers == last.consumers && now.listener == last.listener && now.skipped == last.skipped
            && At(now, Disconnected).waiting != []
  {
    var item := Item(0, 0);
    assert !Full(cfg, At(states[|states| - 1], Disconnected));
    hide IsRun;
    more, acts := Extend(cfg, states, actions, UserDisconnect(item));
    assert item in more[|more| - 1].telling;
    more, acts := Extend(cfg, more, acts, PushTold(item));
  }

  /** A disconnection that a user's thread tells wakes nobody up: its consumer goes on sleeping. */
  lemma SilentDisconnectSleeps(cfg: Config, c: nat) returns (states: seq<State>, actions: seq<Action>)
    requires cfg.onDisconnect == Some(c) && c < |cfg.slots|
    ensures IsRun(cfg, states, actions)
    ensures var last := states[|states| - 1];
            && |last.consumers| == |cfg.slots| && Takes(cfg, c, Disconnected) && At(last, Disconnected).waiting != []
            && last.consumers[c].pc.Waiting? && !last.consumers[c].wake && last.listener.Polling?
  {
    states, actions := NothingYet(cfg);
    hide IsRun;
    states, actions := Extend(cfg, states, actions, StartConsumer(c));
    states, actions := Extend(cfg, states, actions, Test(c));
    states, actions := TellOne(cfg, states, actions);
  }

  /** An event that waits for consumer c will be found, or the listener is ending, and will join it. */
  ghost predicate Alerted(cfg: Config, s: State, c: nat, q: QueueId)
    requires c < |cfg.slots| && |s.consumers| == |cfg.slots|
  {
    || s.consumers[c].wake
    || AboutToNotify(cfg, s, c)
    || StillComes(cfg, c, s.consumers[c].pc, q)
    || (q.Disconnected? && IsEnding(s.listener))
  }

  /** In all runs, with disconnections by threads of the program, or only those without. */
  ghost predicate AlwaysAlerted(cfg: Config, tells: bool) {
    forall states: seq<State>, actions: seq<Action>, i: nat, c: nat, q ::
      IsRun(cfg, states, actions) && (tells || NoTells(actions)) && i < |states| && c < |cfg.slots|
      && Takes(cfg, c, q) && At(states[i], q).waiting != [] ==>
        |states[i].consumers| == |cfg.slots| && Alerted(cfg, states[i], c, q)
  }

  /** No wakeup is lost at all, if and only if the program leaves it to the listener to disconnect. */
  lemma AlertedIffNoTells(cfg: Config, tells: bool, d: nat)
    requires WellFormed(cfg) && cfg.onDisconnect == Some(d) && d < |cfg.slots|
    ensures AlwaysAlerted(cfg, tells) <==> !tells
  {
    hide Inv, Covered, Step, Enabled;
    if !tells {
      forall states: seq<State>, actions: seq<Action>, i: nat, c: nat, q
        | IsRun(cfg, states, actions) && NoTells(actions) && i < |states| && c < |cfg.slots|
          && Takes(cfg, c, q) && At(states[i], q).waiting != []
        ensures |states[i].consumers| == |cfg.slots| && Alerted(cfg, states[i], c, q)
      {
        NoLostWakeup(cfg, states, actions, i, c, q);
        SilentOnlyAtTheEnd(cfg, states, actions, i);
      }
    } else {
      var states, actions := SilentDisconnectSleeps(cfg, d);
      assert !Alerted(cfg, states[|states| - 1], d, Disconnected);
    }
  }

  /** The listener skips consumers that do not run. */
  lemma {:induction false} SkipJoins(cfg: Config, states: seq<State>, actions: seq<Action>, k: nat, end: nat)
    returns (more: seq<State>, acts: seq<Action>)
    requires IsRun(cfg, states, actions)
    requires var last := states[|states| - 1];
             && last.listener == Joining(k) && k <= end <= |cfg.slots| == |last.consumers|
             && forall j | k <= j < end :: !last.consumers[j].running
    ensures IsRun(cfg, more, acts)
    ensures var last, now := states[|states| - 1], more[|more| - 1];
            && now == last.(listener := Joining(end), skipped := now.skipped)
            && forall c: nat :: c in now.skipped <==> c in last.skipped || k <= c < end
    decreases end - k
  {
    hide IsRun;
    more, acts := states, actions;
    if k < end {
      more, acts := Extend(cfg, states, actions, JoinTest);
      more, acts := SkipJoins(cfg, more, acts, k + 1, end);
    }
  }

  /** A consumer walks over its slots while there are no queues. */
  lemma {:induction false} WalkSlots(cfg: Config, states: seq<State>, actions: seq<Action>, d: nat, i: nat)
    returns (more: seq<State>, acts: seq<Action>)
    requires IsRun(cfg, states, actions) && d < |cfg.slots|
    requires var last := states[|states| - 1];
             && |last.consumers| == |cfg.slots| && last.queues == map[] && i <= |cfg.slots[d]|
             && last.consumers[d].pc == Pass(true, Slots(i), None)
    ensures IsRun(cfg, more, acts)
    ensures var last, now := states[|states| - 1], more[|more| - 1];
            var pc := Pass(true, Slots(|cfg.slots[d]|), None);
            now == last.(consumers := last.consumers[d := last.consumers[d].(pc := pc)])
    decreases |cfg.slots[d]| - i
  {
    hide IsRun;
    more, acts := states, actions;
    if i < |cfg.slots[d]| {
      more, acts := Extend(cfg, states, actions, NextSlot(d));
      more, acts := WalkSlots(cfg, more, acts, d, i + 1);
    }
  }

  /** The listener comes to join consumer d, which has nothing to do, and waits until it has ended. */
  lemma JoinsIdly(cfg: Config, d: nat) returns (states: seq<State>, actions: seq<Action>)
    requires d < |cfg.slots|
    ensures IsRun(cfg, states, actions)
    ensures var last := states[|states| - 1];
            && |last.consumers| == |cfg.slots| && last.queues == map[] && last.listener == Joining(d + 1)
            && d !in last.skipped && forall c: nat | c < |cfg.slots| :: !last.consumers[c].running
  {
    states, actions := NothingYet(cfg);
    hide IsRun;
    states, actions := Extend(cfg, states, actions, StartConsumer(d));
    states, actions := ListenerLeaves(cfg, states, actions);
    states, actions := SkipJoins(cfg, states, actions, 0, d);
    states, actions := Extend(cfg, states, actions, JoinTest);
    states, actions := Extend(cfg, states, actions, Test(d));
    states, actions := WalkSlots(cfg, states, actions, d, 0);
    states, actions := EndsIdly(cfg, states, actions, d);
    states, actions := Extend(cfg, states, actions, Await);
  }

  lemma EndsIdly(cfg: Config, states: seq<State>, actions: seq<Action>, d: nat)
    returns (more: seq<State>, acts: seq<Action>)
    requires IsRun(cfg, states, actions) && d < |cfg.slots|
    requires var last := states[|states| - 1];
             && |last.consumers| == |cfg.slots| && last.queues == map[]
             && last.consumers[d].pc == Pass(true, Slots(|cfg.slots[d]|), None)
    ensures IsRun(cfg, more, acts)
    ensures var last, now := states[|states| - 1], more[|more| - 1];
            now == last.(consumers := last.consumers[d := last.consumers[d].(pc := Ended)])
  {
    hide IsRun;
    more, acts := LeavesSlots(cfg, states, actions, d);
    if cfg.onEvent == Some(d) {
      more, acts := LeavesEvents(cfg, more, acts, d);
    }
    more, acts := Extend(cfg, more, acts, EndPass(d));
  }

  lemma LeavesEvents(cfg: Config, states: seq<State>, actions: seq<Action>, d: nat)
    returns (more: seq<State>, acts: seq<Action>)
    requires IsRun(cfg, states, actions) && d < |cfg.slots|
    requires var last := states[|states| - 1];
             && |last.consumers| == |cfg.slots| && last.queues == map[]
             && last.consumers[d].pc == Pass(true, Events(0), None)
    ensures IsRun(cfg, more, acts)
    ensures var last, now := states[|states| - 1], more[|more| - 1];
            now == last.(consumers := last.consumers[d := last.consumers[d].(pc := Pass(true, Disconnections, None))])
  {
    hide IsRun;
    more, acts := Extend(cfg, states, actions, NoMoreEvents(d));
  }

  lemma LeavesSlots(cfg: Config, states: seq<State>, actions: seq<Action>, d: nat)
    returns (more: seq<State>, acts: seq<Action>)
    requires IsRun(cfg, states, actions) && d < |cfg.slots|
    requires var last := states[|states| - 1];
             |last.consumers| == |cfg.slots| && last.consumers[d].pc == Pass(true, Slots(|cfg.slots[d]|), None)
    ensures IsRun(cfg, more, acts)
    ensures var last, now := states[|states| - 1], more[|more| - 1];
            var stage := if cfg.onEvent == Some(d) then Events(0) else Disconnections;
            now == last.(consumers := last.consumers[d := last.consumers[d].(pc := Pass(true, stage, None))])
  {
    hide IsRun;
    more, acts := Extend(cfg, states, actions, NextSlot(d));
  }

  /** A disconnection that is told during the joins, when its consumer has made its last pass, is never delivered. */
  lemma LateTellIsNotDrained(cfg: Config, d: nat) returns (states: seq<State>, actions: seq<Action>)
    requires cfg.onDisconnect == Some(d) && d < |cfg.slots|
    ensures IsRun(cfg, states, actions)
    ensures var last := states[|states| - 1];
            && last.listener.Finished? && Takes(cfg, d, Disconnected) && d !in last.skipped
            && At(last, Disconnected).waiting != []
  {
    states, actions := JoinsIdly(cfg, d);
    hide IsRun;
    states, actions := TellOne(cfg, states, actions);
    states, actions := SkipJoins(cfg, states, actions, d + 1, |cfg.slots|);
    states, actions := Extend(cfg, states, actions, Finish);
  }

  /** A consumer that was never started is skipped by the join: what was pushed for it stays undelivered. */
  lemma SkippedIsNotDrained(cfg: Config, c: nat, q: QueueId) returns (states: seq<State>, actions: seq<Action>)
    requires c < |cfg.slots|
    ensures IsRun(cfg, states, actions)
    ensures var last := states[|states| - 1];
            last.listener.Finished? && c in last.skipped && !last.late && At(last, q).waiting != []
  {
    states, actions := NothingYet(cfg);
    hide IsRun;
    states, actions := PushOne(cfg, states, actions, q, Item(0, 0));
    states, actions := ListenerLeaves(cfg, states, actions);
    states, actions := SkipJoins(cfg, states, actions, 0, |cfg.slots|);
    states, actions := Extend(cfg, states, actions, Finish);
  }

  /**
   * In all runs, with disconnections that threads of the program tell during the joins or without,
   * and for consumers that the joins skipped too or not.
   */
  ghost predicate AlwaysDrains(cfg: Config, lateTells: bool, skips: bool) {
    forall states: seq<State>, actions: seq<Action>, i: nat, c: nat, q ::
      IsRun(cfg, states, actions) && i < |states| && (lateTells || !states[i].late)
      && states[i].listener.Finished? && c < |cfg.slots| && Takes(cfg, c, q) && (skips || c !in states[i].skipped) ==>
        At(states[i], q).waiting == [] && At(states[i], q).delivered == Kept(At(states[i], q).log)
  }

  predicate TakesDisconnections(cfg: Config) {
    cfg.onDisconnect.Some? && cfg.onDisconnect.value < |cfg.slots|
  }

  /**
   * Joining the listener drains all queues that consumers take from, if and only if the consumers
   * that do not run then are left out, and, if someone takes the disconnections, none is told that
   * late.
   */
  lemma DrainsIff(cfg: Config, lateTells: bool, skips: bool, c: nat, q: QueueId)
    requires WellFormed(cfg) && c < |cfg.slots| && Takes(cfg, c, q)
    ensures AlwaysDrains(cfg, lateTells, skips) <==> !skips && !(lateTells && TakesDisconnections(cfg))
  {
    if skips {
      var states, actions := SkippedIsNotDrained(cfg, c, q);
      assert At(states[|states| - 1], q).waiting != [];
    } else if lateTells && TakesDisconnections(cfg) {
      var states, actions := LateTellIsNotDrained(cfg, cfg.onDisconnect.value);
      assert At(states[|states| - 1], Disconnected).waiting != [];
    } else {
      RunningAreDrained(cfg, lateTells);
    }
  }

  lemma RunningAreDrained(cfg: Config, lateTells: bool)
    requires WellFormed(cfg) && !(lateTells && TakesDisconnections(cfg))
    ensures AlwaysDrains(cfg, lateTells, false)
  {
    hide IsRun, Inv, Step, Enabled;
    forall states: seq<State>, actions: seq<Action>, i: nat, c: nat, q
      | IsRun(cfg, states, actions) && i < |states| && (lateTells || !states[i].late)
        && states[i].listener.Finished? && c < |cfg.slots| && Takes(cfg, c, q) && c !in states[i].skipped
      ensures At(states[i], q).waiting == [] && At(states[i], q).delivered == Kept(At(states[i], q).log)
    {
      ShutdownDrains(cfg, states, actions, i, c, q);
    }
  }

  // The bound on the queues.

  /** The listener fills a queue, as far as it is not full. */
  lemma {:induction false} FillQueue(cfg: Config, q: QueueId, n: nat) returns (states: seq<State>, actions: seq<Action>)
    requires cfg.max > 0 ==> n <= cfg.max + 1
    ensures IsRun(cfg, states, actions) && NoTells(actions)
    ensures var last := states[|states| - 1];
            && last.listener.Polling? && |last.consumers| == |cfg.slots| && |At(last, q).waiting| == n
  {
    if n == 0 {
      states, actions := NothingYet(cfg);
    } else {
      states, actions := FillQueue(cfg, q, n - 1);
      hide IsRun;
      states, actions := PushOne(cfg, states, actions, q, Item(0, n));
    }
  }

  lemma {:induction false} RunStaysBounded(cfg: Config, states: seq<State>, actions: seq<Action>, i: nat, tells: bool)
    requires IsRun(cfg, states, actions) && i < |states| && (tells || NoTells(actions))
    ensures Bounded(cfg, states[i], tells)
  {
    hide Step, Enabled;
    if i > 0 {
      RunStaysBounded(cfg, states, actions, i - 1, tells);
      StepKeepsBound(cfg, states[i - 1], actions[i - 1], tells);
    }
  }

  /** In all runs, with disconnections by threads of the program, or only those without. */
  ghost predicate NeverLonger(cfg: Config, q: QueueId, bound: nat, tells: bool) {
    forall states: seq<State>, actions: seq<Action>, i: nat ::
      IsRun(cfg, states, actions) && i < |states| && (tells || NoTells(actions)) ==> |At(states[i], q).waiting| <= bound
  }

  /**
   * A queue keeps to a bound exactly if that is more than the maximum, and there is one; and that of
   * the disconnections only if no thread of the program adds to it: any number of them may find it
   * not full, and then push.
   */
  lemma NeverLongerIff(cfg: Config, q: QueueId, bound: nat, tells: bool)
    ensures NeverLonger(cfg, q, bound, tells) <==>
            cfg.max > 0 && bound >= cfg.max + 1 && (q.Disconnected? ==> !tells)
  {
    if cfg.max > 0 && bound >= cfg.max + 1 && (q.Disconnected? ==> !tells) {
      forall states: seq<State>, actions: seq<Action>, i: nat
        | IsRun(cfg, states, actions) && i < |states| && (tells || NoTells(actions))
        ensures |At(states[i], q).waiting| <= bound
      {
        RunStaysBounded(cfg, states, actions, i, tells);
        assert BoundedAt(cfg, states[i], q);
      }
    } else if q.Disconnected? && tells {
      var states, actions := ManyTell(cfg, bound + 1);
      assert |At(states[|states| - 1], q).waiting| == bound + 1;
    } else {
      var states, actions := FillQueue(cfg, q, bound + 1);
      assert |At(states[|states| - 1], q).waiting| == bound + 1;
    }
  }

  /** Any number of threads find the queue of disconnections empty. */
  lemma {:induction false} ManyTest(cfg: Config, n: nat) returns (states: seq<State>, actions: seq<Action>)
    ensures IsRun(cfg, states, actions)
    ensures var last := states[|states| - 1];
            && |last.consumers| == |cfg.slots| && last.telling[Item(0, 0)] == n && At(last, Disconnected).waiting == []
  {
    if n == 0 {
      states, actions := NothingYet(cfg);
    } else {
      states, actions := ManyTest(cfg, n - 1);
      assert !Full(cfg, At(states[|states| - 1], Disconnected));
      hide IsRun;
      states, actions := Extend(cfg, states, actions, UserDisconnect(Item(0, 0)));
    }
  }

  lemma {:induction false} ManyPush(cfg: Config, states: seq<State>, actions: seq<Action>, n: nat)
    returns (more: seq<State>, acts: seq<Action>)
    requires IsRun(cfg, states, actions)
    requires var last := states[|states| - 1]; |last.consumers| == |cfg.slots| && last.telling[Item(0, 0)] == n
    ensures IsRun(cfg, more, acts)
    ensures |At(more[|more| - 1], Disconnected).waiting| == |At(states[|states| - 1], Disconnected).waiting| + n
    decreases n
  {
    more, acts := states, actions;
    if n > 0 {
      hide IsRun;
      more, acts := Extend(cfg, states, actions, PushTold(Item(0, 0)));
      more, acts := ManyPush(cfg, more, acts, n - 1);
    }
  }

  lemma ManyTell(cfg: Config, n: nat) returns (states: seq<State>, actions: seq<Action>)
    ensures IsRun(cfg, states, actions) && |At(states[|states| - 1], Disconnected).waiting| == n
  {
    states, actions := ManyTest(cfg, n);
    states, actions := ManyPush(cfg, states, actions, n);
  }

  ghost predicate NeverLoses(cfg: Config, name: Name) {
    forall states: seq<State>, actions: seq<Action>, i: nat ::
      IsRun(cfg, states, actions) && i < |states| ==> Lost(At(states[i], Named(name)).log) == 0
  }

  /** An event for a queue that is full is lost. */
  lemma FullLoses(cfg: Config, name: Name) returns (states: seq<State>, actions: seq<Action>)
    requires cfg.max > 0
    ensures IsRun(cfg, states, actions) && Lost(At(states[|states| - 1], Named(name)).log) > 0
  {
    states, actions := FillQueue(cfg, Named(name), cfg.max + 1);
    hide IsRun;
    LostAppend(At(states[|states| - 1], Named(name)).log, Entry(Item(0, 0), false));
    states, actions := Extend(cfg, states, actions, Pick(Named(name), Item(0, 0)));
  }

  /** Events of a name are never lost, in all runs, exactly if there is no maximum. */
  lemma NeverLosesIffUnbounded(cfg: Config, name: Name)
    ensures NeverLoses(cfg, name) <==> cfg.max == 0
  {
    if cfg.max == 0 {
      forall states: seq<State>, actions: seq<Action>, i: nat | IsRun(cfg, states, actions) && i < |states|
        ensures Lost(At(states[i], Named(name)).log) == 0
      {
        UnboundedLosesNothing(cfg, states, actions, i, name);
      }
    } else {
      var states, actions := FullLoses(cfg, name);
      assert Lost(At(states[|states| - 1], Named(name)).log) > 0;
    }
  }
}
