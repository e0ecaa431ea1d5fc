/** What the records of a state say about the run that led to it. */
module Records {
  import opened Options
  import opened Delivery

  // ---------------------------------------------------------------------------
  // The flags, and the sets of consumers
  // ---------------------------------------------------------------------------

  /** A thread of the program tells a disconnection, when the listener has begun to join its consumers. */
  predicate TellsLate(s: State, a: Action) {
    a.PushTold? && (s.listener.Joining? || s.listener.Awaiting? || s.listener.Finished?)
  }

  /** The listener comes to join a consumer that does not run. */
  predicate Skips(s: State, a: Action, c: nat) {
    a.JoinTest? && s.listener == Joining(c) && c < |s.consumers| && !s.consumers[c].running
  }

  /** A disconnection is told without a notification. */
  predicate TellsSilently(a: Action) {
    a.PushTold? || a.PushClosed?
  }

  predicate NotifiesOfDisconnection(s: State, a: Action) {
    a.Notify? && s.listener == Notifying(Disconnected)
  }

  ghost predicate Recorded(s: State, a: Action, t: State) {
    Flagged(s, a, t) && Collected(s, a, t)
  }

  predicate Flagged(s: State, a: Action, t: State) {
    && (t.late <==> s.late || TellsLate(s, a))
    && (t.silent <==> !NotifiesOfDisconnection(s, a) && (s.silent || TellsSilently(a)))
  }

  ghost predicate Collected(s: State, a: Action, t: State) {
    && (forall c: nat :: c in t.stopped <==> c in s.stopped || a == StopConsumer(c))
    && (forall c: nat :: c in t.skipped <==> c in s.skipped || Skips(s, a, c))
  }

  lemma StepRecords(cfg: Config, s: State, a: Action)
    requires |s.consumers| == |cfg.slots| && Enabled(cfg, s, a)
    ensures Recorded(s, a, Step(cfg, s, a))
  {
    hide ConsumerEnabled, ListenerStep, UserStep, NextPc, NextQueues, Flagged, Collected;
    if OfConsumer(a) {
      ConsumerRecords(cfg, s, a);
    } else if OfListener(a) {
      ListenerFlags(cfg, s, a);
      ListenerCollects(cfg, s, a);
    } else {
      UserFlags(cfg, s, a);
      UserCollects(cfg, s, a);
    }
  }

  lemma ConsumerRecords(cfg: Config, s: State, a: Action)
    requires |s.consumers| == |cfg.slots| && OfConsumer(a) && ConsumerEnabled(cfg, s, a)
    ensures Recorded(s, a, ConsumerStep(cfg, s, a))
  {
    hide NextPc, NextQueues;
  }

  lemma ListenerFlags(cfg: Config, s: State, a: Action)
    requires |s.consumers| == |cfg.slots| && ListenerEnabled(s, a)
    ensures Flagged(s, a, ListenerStep(cfg, s, a))
  {
    hide Told, NotTold, At, Logged, Woken, Full;
    ListenerTells(s, a);
  }

  lemma ListenerCollects(cfg: Config, s: State, a: Action)
    requires |s.consumers| == |cfg.slots| && ListenerEnabled(s, a)
    ensures Collected(s, a, ListenerStep(cfg, s, a))
  {
    hide ListenerStep;
    ListenerSkips(cfg, s, a);
  }

  lemma ListenerTells(s: State, a: Action)
    ensures a.CloseOne? ==> NotTold(s, a.item) == s.(queues := NotTold(s, a.item).queues)
    ensures s.listener.Telling? ==>
              Told(s, s.listener.item) == s.(queues := Told(s, s.listener.item).queues, silent := true)
  {
    hide At, Logged;
  }

  lemma ListenerSkips(cfg: Config, s: State, a: Action)
    requires |s.consumers| == |cfg.slots| && ListenerEnabled(s, a)
    ensures var t := ListenerStep(cfg, s, a);
            && t.stopped == s.stopped
            && t.skipped == if a.JoinTest? && !s.consumers[s.listener.k].running then s.skipped + {s.listener.k}
                            else s.skipped
  {
    hide Told, NotTold, At, Logged, Woken, Full;
    ListenerTells(s, a);
  }

  lemma UserFlags(cfg: Config, s: State, a: Action)
    requires UserEnabled(s, a)
    ensures Flagged(s, a, UserStep(cfg, s, a))
  {
    hide Told, NotTold, Full, At;
    if a.UserDisconnect? || a.PushTold? {
      TellingLeaves(s, a.item);
    }
  }

  lemma UserCollects(cfg: Config, s: State, a: Action)
    requires UserEnabled(s, a)
    ensures Collected(s, a, UserStep(cfg, s, a))
  {
    hide UserStep;
    UserStops(cfg, s, a);
  }

  /** What is told leaves all but the queue and the flag as it is. */
  lemma TellingLeaves(s: State, item: Item)
    ensures var t := Told(s, item);
            t == s.(queues := t.queues, silent := true) && t.queues.Keys == s.queues.Keys + {Disconnected}
    ensures var t := NotTold(s, item);
            t == s.(queues := t.queues) && t.queues.Keys == s.queues.Keys + {Disconnected}
  {
    hide At, Logged;
  }

  lemma UserStops(cfg: Config, s: State, a: Action)
    requires UserEnabled(s, a)
    ensures var t := UserStep(cfg, s, a);
            t.skipped == s.skipped && t.stopped == if a.StopConsumer? then s.stopped + {a.c} else s.stopped
  {
    hide Told, NotTold, Full, At;
    if a.UserDisconnect? || a.PushTold? {
      TellingLeaves(s, a.item);
    }
  }

  /** What counts as late, as skipped and as stopped is what the run did. */
  lemma {:induction false} RecordsIff(cfg: Config, states: seq<State>, actions: seq<Action>, i: nat, c: nat)
    requires IsRun(cfg, states, actions) && i <= |actions|
    ensures states[i].late <==> exists j :: 0 <= j < i && TellsLate(states[j], actions[j])
    ensures c in states[i].skipped <==> exists j :: 0 <= j < i && Skips(states[j], actions[j], c)
    ensures c in states[i].stopped <==> StopConsumer(c) in actions[..i]
  {
    hide Step, Enabled, TellsLate, Skips;
    if i == 0 {
      assert actions[..0] == [];
    } else {
      RecordsIff(cfg, states, actions, i - 1, c);
      StepRecords(cfg, states[i - 1], actions[i - 1]);
      assert actions[..i] == actions[..i - 1] + [actions[i - 1]];
    }
  }

  /** A disconnection was told, and since then there was no notification for one. */
  ghost predicate ToldSince(states: seq<State>, actions: seq<Action>, i: nat)
    requires i <= |actions| < |states|
  {
    exists j :: 0 <= j < i && TellsSilently(actions[j]) &&
                forall k :: j < k < i ==> !NotifiesOfDisconnection(states[k], actions[k])
  }

  lemma {:induction false} SilentIff(cfg: Config, states: seq<State>, actions: seq<Action>, i: nat)
    requires IsRun(cfg, states, actions) && i <= |actions|
    ensures states[i].silent <==> ToldSince(states, actions, i)
  {
    hide Step, Enabled;
    if i > 0 {
      SilentIff(cfg, states, actions, i - 1);
      StepRecords(cfg, states[i - 1], actions[i - 1]);
    }
  }

  // ---------------------------------------------------------------------------
  // The queues in the map
  // ---------------------------------------------------------------------------

  /** Whoever is about to push to a queue, or took from it, has it in the map. */
  ghost predicate HaveQueues(cfg: Config, s: State)
    requires |s.consumers| == |cfg.slots|
  {
    && (s.listener.Pushing? ==> s.listener.q in s.queues)
    && forall c: nat | c < |s.consumers| :: HasQueue(cfg, s, c)
  }

  predicate HasQueue(cfg: Config, s: State, c: nat)
    requires c < |s.consumers| == |cfg.slots|
  {
    s.consumers[c].pc.Pass? && s.consumers[c].pc.hand.Some? && Current(cfg, s, c).Some? ==>
      Current(cfg, s, c).value in s.queues
  }

  /** A queue for a name is made when an event with the name is looked up, and stays. */
  ghost predicate MakesQueue(s: State, a: Action, t: State) {
    forall n :: Named(n) in t.queues <==> Named(n) in s.queues || (a.Pick? && a.q == Named(n))
  }

  lemma ConsumerMakesNone(cfg: Config, s: State, a: Action)
    requires Shaped(cfg, s) && OfConsumer(a) && ConsumerEnabled(cfg, s, a) && HaveQueues(cfg, s)
    ensures s.queues.Keys == NextQueues(cfg, s, a).Keys
  {
    assert HasQueue(cfg, s, a.c);
    hide NextPc;
  }

  lemma ConsumerHasQueues(cfg: Config, s: State, a: Action)
    requires Shaped(cfg, s) && OfConsumer(a) && ConsumerEnabled(cfg, s, a) && HaveQueues(cfg, s)
    ensures var t := ConsumerStep(cfg, s, a); MakesQueue(s, a, t) && HaveQueues(cfg, t)
  {
    ConsumerMakesNone(cfg, s, a);
    var t := ConsumerStep(cfg, s, a);
    HandStays(cfg, s, a);
    assert HasQueue(cfg, t, a.c) by {
      assert HasQueue(cfg, s, a.c);
      hide NextPc;
    }
    hide ConsumerEnabled, NextPc, NextQueues, Shaped;
    forall d: nat | d < |t.consumers| && d != a.c ensures HasQueue(cfg, t, d) {
      assert HasQueue(cfg, s, d);
    }
  }

  lemma OthersHaveQueues(cfg: Config, s: State, t: State)
    requires |s.consumers| == |t.consumers| == |cfg.slots| && HaveQueues(cfg, s)
    requires s.queues.Keys <= t.queues.Keys && (t.listener.Pushing? ==> t.listener.q in t.queues)
    requires forall c: nat | c < |t.consumers| ::
               t.consumers[c].pc == s.consumers[c].pc || t.consumers[c].pc.Testing?
    ensures HaveQueues(cfg, t)
  {
    forall c: nat | c < |t.consumers| ensures HasQueue(cfg, t, c) {
      assert HasQueue(cfg, s, c);
    }
  }

  lemma ListenerMakesQueue(cfg: Config, s: State, a: Action)
    requires |s.consumers| == |cfg.slots| && ListenerEnabled(s, a) && (s.listener.Pushing? ==> s.listener.q in s.queues)
    ensures var t := ListenerStep(cfg, s, a);
            && s.queues.Keys <= t.queues.Keys <= s.queues.Keys + LooksUp(a)
            && (a.Pick? ==> a.q in t.queues)
            && (t.listener.Pushing? ==> t.listener.q in t.queues)
  {
    hide Told, NotTold, At, Logged, Woken, Full;
    if a.CloseOne? {
      TellingLeaves(s, a.item);
    } else if a.PushClosed? {
      TellingLeaves(s, s.listener.item);
    }
  }

  /** The queue that a step of the listener may add to the map. */
  function LooksUp(a: Action): set<QueueId> {
    if a.Pick? then {a.q} else if a.CloseOne? || a.PushClosed? then {Disconnected} else {}
  }

  lemma UserMakesNone(cfg: Config, s: State, a: Action)
    requires UserEnabled(s, a)
    ensures var t := UserStep(cfg, s, a);
            s.queues.Keys <= t.queues.Keys <= s.queues.Keys + {Disconnected} && t.listener == s.listener
  {
    hide Told, NotTold, Full, At;
    if a.UserDisconnect? || a.PushTold? {
      TellingLeaves(s, a.item);
    }
  }

  lemma KeysMakeQueue(s: State, a: Action, t: State, more: set<QueueId>)
    requires s.queues.Keys <= t.queues.Keys <= s.queues.Keys + more
    requires more <= if a.Pick? then {a.q} else {Disconnected}
    requires a.Pick? ==> a.q in t.queues
    ensures MakesQueue(s, a, t)
  {
  }

  lemma StepMakesQueue(cfg: Config, s: State, a: Action)
    requires Shaped(cfg, s) && Enabled(cfg, s, a) && HaveQueues(cfg, s)
    ensures var t := Step(cfg, s, a); MakesQueue(s, a, t) && HaveQueues(cfg, t)
  {
    hide ConsumerEnabled, ConsumerStep, ListenerStep, UserStep, MakesQueue;
    if OfConsumer(a) {
      ConsumerHasQueues(cfg, s, a);
    } else {
      var t := Step(cfg, s, a);
      forall c: nat | c < |t.consumers|
        ensures t.consumers[c].pc == s.consumers[c].pc || t.consumers[c].pc.Testing?
      {
        OthersLeavePcs(cfg, s, a, c);
      }
      if OfListener(a) {
        ListenerMakesQueue(cfg, s, a);
        KeysMakeQueue(s, a, t, LooksUp(a));
      } else {
        UserMakesNone(cfg, s, a);
        KeysMakeQueue(s, a, t, {Disconnected});
      }
      OthersHaveQueues(cfg, s, t);
    }
  }

  lemma NoQueuesYet(cfg: Config)
    ensures Shaped(cfg, Initial(cfg)) && HaveQueues(cfg, Initial(cfg)) && Initial(cfg).queues == map[]
  {
  }

  /**
   * The map has a queue for a name that is in no slot, as soon as an event with that name was looked up,
   * also if it was lost. (What is in a slot gets its queue from its consumer as well, but no other one
   * ever looks for it.)
   */
  lemma {:induction false} QueuesArePicked(cfg: Config, states: seq<State>, actions: seq<Action>, i: nat, n: Name)
    requires IsRun(cfg, states, actions) && i <= |actions| && !Filled(cfg, n)
    ensures Shaped(cfg, states[i]) && HaveQueues(cfg, states[i])
    ensures Named(n) in states[i].queues <==> exists a :: a in actions[..i] && a.Pick? && a.q == Named(n)
  {
    hide Step, Enabled, Shaped, HaveQueues, Initial, Filled;
    if i == 0 {
      assert actions[..0] == [];
      NoQueuesYet(cfg);
    } else {
      QueuesArePicked(cfg, states, actions, i - 1, n);
      StepKeepsShape(cfg, states[i - 1], actions[i - 1]);
      StepMakesQueue(cfg, states[i - 1], actions[i - 1]);
      assert actions[..i] == actions[..i - 1] + [actions[i - 1]];
    }
  }
}
