/** The order in which a consumer goes through its queues. */
module PassOrder {
  import opened Options
  import opened Delivery

  /** The queues of its slots come first, then those of the other names, then the disconnections. */
  function Class(cfg: Config, c: nat, q: QueueId): nat
    requires c < |cfg.slots|
  {
    if q == Disconnected then 2 else if q.name in cfg.slots[c] then 0 else 1
  }

  /** Of two queues of other names, the one with the lower name comes first. */
  predicate MayPrecede(cfg: Config, c: nat, q: QueueId, r: QueueId)
    requires c < |cfg.slots|
  {
    && Class(cfg, c, q) <= Class(cfg, c, r)
    && (Class(cfg, c, q) == 1 && Class(cfg, c, r) == 1 ==> q.name <= r.name)
  }

  /** How far a pass has come: which queues lie behind it. */
  predicate MayStillTake(cfg: Config, c: nat, stage: Stage, q: QueueId)
    requires c < |cfg.slots|
  {
    match stage
    case Slots(_) => true
    case Events(from) => Class(cfg, c, q) == 2 || (Class(cfg, c, q) == 1 && q.name >= from)
    case EventAt(name) => Class(cfg, c, q) == 2 || (Class(cfg, c, q) == 1 && q.name >= name)
    case Disconnections => Class(cfg, c, q) == 2
  }

  ghost predicate GoesForward(cfg: Config, c: nat, before: Stage, after: Stage)
    requires c < |cfg.slots|
  {
    forall q :: MayStillTake(cfg, c, after, q) ==> MayStillTake(cfg, c, before, q)
  }

  /** The other steps of a thread stay in its pass, and never turn back. */
  lemma StepGoesForward(cfg: Config, s: State, a: Action, c: nat)
    requires Shaped(cfg, s) && Enabled(cfg, s, a) && c < |cfg.slots| && s.consumers[c].pc.Pass? && a != EndPass(c)
    ensures var t := Step(cfg, s, a);
            && t.consumers[c].pc.Pass?
            && GoesForward(cfg, c, s.consumers[c].pc.stage, t.consumers[c].pc.stage)
  {
    hide ListenerStep, UserStep, NextQueues, At;
    if OfConsumer(a) {
      hide Class;
    } else {
      OthersLeavePcs(cfg, s, a, c);
      hide ConsumerEnabled, Enabled, Step;
    }
  }

  /** Where it takes an item from is a queue that it may still take from, and what lies behind it is passed. */
  lemma CurrentIsHere(cfg: Config, s: State, c: nat, q: QueueId)
    requires Shaped(cfg, s) && c < |cfg.slots| && s.consumers[c].pc.Pass? && Current(cfg, s, c) == Some(q)
    ensures MayStillTake(cfg, c, s.consumers[c].pc.stage, q)
    ensures forall r :: MayStillTake(cfg, c, s.consumers[c].pc.stage, r) ==> MayPrecede(cfg, c, q, r)
  {
  }

  /** Between two points of one pass it goes forward. */
  lemma {:induction false} PassGoesForward(cfg: Config, states: seq<State>, actions: seq<Action>, i: nat, j: nat,
          c: nat)
    requires IsRun(cfg, states, actions) && i <= j <= |actions| && c < |cfg.slots|
    requires EndPass(c) !in actions[i..j]
    ensures Shaped(cfg, states[i]) && Shaped(cfg, states[j])
    ensures states[i].consumers[c].pc.Pass? ==>
              && states[j].consumers[c].pc.Pass?
              && GoesForward(cfg, c, states[i].consumers[c].pc.stage, states[j].consumers[c].pc.stage)
    decreases j - i
  {
    hide Enabled, Step, MayStillTake, Shaped;
    RunKeepsShape(cfg, states, actions, i);
    RunKeepsShape(cfg, states, actions, j);
    if i < j {
      assert actions[i..j] == actions[i..j - 1] + [actions[j - 1]];
      PassGoesForward(cfg, states, actions, i, j - 1, c);
      if states[i].consumers[c].pc.Pass? {
        StepGoesForward(cfg, states[j - 1], actions[j - 1], c);
      }
    }
  }

  lemma {:induction false} RunKeepsShape(cfg: Config, states: seq<State>, actions: seq<Action>, i: nat)
    requires IsRun(cfg, states, actions) && i <= |actions|
    ensures Shaped(cfg, states[i]) && |states[i].consumers| == |cfg.slots|
  {
    hide Enabled, Step;
    if i > 0 {
      RunKeepsShape(cfg, states, actions, i - 1);
      StepKeepsShape(cfg, states[i - 1], actions[i - 1]);
    }
  }

  /**
   * In one pass, the queues of the slots are emptied first, then those of the other names, in the order
   * of their names, and the disconnections are delivered last.
   */
  lemma PassIsInOrder(cfg: Config, states: seq<State>, actions: seq<Action>, i: nat, j: nat, c: nat,
          q: QueueId, r: QueueId)
    requires IsRun(cfg, states, actions) && i <= j < |actions| && c < |cfg.slots|
    requires actions[i] == actions[j] == Pop(c) && EndPass(c) !in actions[i..j]
    requires |states[i].consumers| == |states[j].consumers| == |cfg.slots|
    requires Current(cfg, states[i], c) == Some(q) && Current(cfg, states[j], c) == Some(r)
    ensures MayPrecede(cfg, c, q, r)
  {
    PassGoesForward(cfg, states, actions, i, j, c);
    assert states[i].consumers[c].pc.Pass?;
    CurrentIsHere(cfg, states[i], c, q);
    hide *;
    CurrentIsHere(cfg, states[j], c, r);
    FarThenNear(cfg, c, states[i].consumers[c].pc.stage, states[j].consumers[c].pc.stage, r);
  }

  lemma FarThenNear(cfg: Config, c: nat, before: Stage, after: Stage, r: QueueId)
    requires c < |cfg.slots| && GoesForward(cfg, c, before, after) && MayStillTake(cfg, c, after, r)
    ensures MayStillTake(cfg, c, before, r)
  {
    hide MayStillTake;
  }
}
