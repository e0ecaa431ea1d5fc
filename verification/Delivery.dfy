/**
 * The listener thread, the consumer threads, and the queues between them, as a machine that takes
 * one atomic step of one thread at a time.
 */
module Delivery {
  import opened Options

  /** The names of events, numbered in the order of the map of queues. */
  type Name = nat

  datatype Item = Item(connection: nat, payload: nat)

  datatype QueueId = Named(name: Name) | Disconnected

  /**
   * What the links say once the listener runs: the filled slots of each consumer, and the names
   * that are hidden, because they are bound to empty slots only.
   */
  datatype Config = Config(
    max: nat,
    slots: seq<seq<Name>>,
    hidden: set<Name>,
    onEvent: Option<nat>,
    onDisconnect: Option<nat>)

  /** Absence of collisions. */
  predicate WellFormed(cfg: Config) {
    forall c, d, i | 0 <= c < |cfg.slots| && 0 <= d < |cfg.slots| && 0 <= i < |cfg.slots[c]|
                     && cfg.slots[c][i] in cfg.slots[d] :: c == d
  }

  predicate Filled(cfg: Config, name: Name) {
    exists c :: 0 <= c < |cfg.slots| && name in cfg.slots[c]
  }

  /** There is a link for the name, to a consumer or to no one. */
  predicate Bound(cfg: Config, name: Name) {
    Filled(cfg, name) || name in cfg.hidden
  }

  /** Consumer c takes from a queue. */
  predicate Takes(cfg: Config, c: nat, q: QueueId)
    requires c < |cfg.slots|
  {
    match q
    case Named(name) => name in cfg.slots[c] || (cfg.onEvent == Some(c) && !Bound(cfg, name))
    case Disconnected => cfg.onDisconnect == Some(c)
  }

  /** Consumer c is woken up for a queue. It may be one that it does not take from, if the name is hidden. */
  predicate IsNotified(cfg: Config, c: nat, q: QueueId)
    requires c < |cfg.slots|
  {
    match q
    case Named(name) => name in cfg.slots[c] || (cfg.onEvent == Some(c) && !Filled(cfg, name))
    case Disconnected => cfg.onDisconnect == Some(c)
  }

  lemma OneTaker(cfg: Config, c: nat, d: nat, q: QueueId)
    requires WellFormed(cfg) && c < |cfg.slots| && d < |cfg.slots| && Takes(cfg, c, q) && Takes(cfg, d, q)
    ensures c == d
  {
  }

  // ---------------------------------------------------------------------------
  // States
  // ---------------------------------------------------------------------------

  /** An event that was picked, and whether it was kept or reported lost. */
  datatype Entry = Entry(item: Item, kept: bool)

  datatype Queue = Queue(log: seq<Entry>, waiting: seq<Item>, delivered: seq<Item>)

  const EMPTY := Queue([], [], [])

  function Kept(log: seq<Entry>): seq<Item> {
    if log == [] then []
    else
      var last := log[|log| - 1];
      Kept(log[..|log| - 1]) + if last.kept then [last.item] else []
  }

  lemma KeptAppend(log: seq<Entry>, e: Entry)
    ensures Kept(log + [e]) == Kept(log) + if e.kept then [e.item] else []
  {
    assert (log + [e])[..|log|] == log;
  }

  /** Where a consumer is in its pass over the queues. */
  datatype Stage =
    | Slots(i: nat)               // at the slot with this index
    | Events(from: Name)          // looking for the next name that no one is bound to
    | EventAt(name: Name)         // at the queue of such a name
    | Disconnections

  datatype ConsumerPc =
    | Idle
    | Testing                     // about to test m_running
    | Waiting                     // in wait_for
    | Pass(final: bool, stage: Stage, hand: Option<Item>)
    | Ended

  datatype Consumer = Consumer(running: bool, wake: bool, pc: ConsumerPc)

  datatype ListenerPc =
    | Polling
    | Pushing(q: QueueId, item: Item)
    | Notifying(q: QueueId)
    | Closing
    | Telling(item: Item)
    | Joining(k: nat)
    | Awaiting(k: nat)
    | Finished

  /**
   * `telling`: what threads of the program are about to push to the queue of disconnections.
   * `silent`: something was pushed to the queue of disconnections after the last notification for
   * it. `late`: a user's thread did that when the listener had begun to join its consumers.
   * `stopped`: the consumers that were joined by someone else than the listener. `skipped`: those
   * that were not running when the listener came to join them.
   */
  datatype State = State(
    queues: map<QueueId, Queue>,
    consumers: seq<Consumer>,
    listener: ListenerPc,
    running: bool,
    telling: multiset<Item>,
    silent: bool,
    late: bool,
    stopped: set<nat>,
    skipped: set<nat>)

  function Initial(cfg: Config): State {
    State(map[], seq(|cfg.slots|, _ => Consumer(false, false, Idle)), Polling, true, multiset{}, false, false, {}, {})
  }

  function At(s: State, q: QueueId): Queue {
    if q in s.queues then s.queues[q] else EMPTY
  }

  function Put(s: State, q: QueueId, queue: Queue): State {
    s.(queues := s.queues[q := queue])
  }

  /** The queue a consumer is taking from. */
  function Current(cfg: Config, s: State, c: nat): Option<QueueId>
    requires c < |cfg.slots| && c < |s.consumers|
  {
    match s.consumers[c].pc
    case Pass(_, Slots(i), _) => if i < |cfg.slots[c]| then Some(Named(cfg.slots[c][i])) else None
    case Pass(_, EventAt(name), _) => Some(Named(name))
    case Pass(_, Disconnections, _) => if Takes(cfg, c, Disconnected) then Some(Disconnected) else None
    case _ => None
  }

  predicate Full(cfg: Config, queue: Queue) {
    cfg.max > 0 && |queue.waiting| > cfg.max
  }

  // ---------------------------------------------------------------------------
  // Steps
  // ---------------------------------------------------------------------------

  datatype Action =
    // of the listener thread
    | Pick(q: QueueId, item: Item)
    | Push
    | Notify
    | StopPolling
    | CloseOne(item: Item)
    | PushClosed
    | EndClosing
    | JoinTest
    | Await
    | Finish
    // of other threads of the program
    | JoinListener
    | UserDisconnect(item: Item)
    | PushTold(item: Item)
    | StartConsumer(c: nat)
    | StopConsumer(c: nat)
    // of the thread of consumer c
    | Test(c: nat)
    | Wake(c: nat)
    | Timeout(c: nat)
    | Pop(c: nat)
    | Deliver(c: nat)
    | NextSlot(c: nat)
    | Visit(c: nat, name: Name)
    | NextEvent(c: nat)
    | NoMoreEvents(c: nat)
    | EndPass(c: nat)

  predicate OfListener(a: Action) {
    a.Pick? || a.Push? || a.Notify? || a.StopPolling? || a.CloseOne? || a.PushClosed? || a.EndClosing?
    || a.JoinTest? || a.Await? || a.Finish?
  }

  predicate OfConsumer(a: Action) {
    a.Test? || a.Wake? || a.Timeout? || a.Pop? || a.Deliver? || a.NextSlot? || a.Visit? || a.NextEvent?
    || a.NoMoreEvents? || a.EndPass?
  }

  /** Logs an item, and adds it to the queue if it is kept. */
  function Logged(queue: Queue, item: Item, kept: bool): Queue {
    queue.(log := queue.log + [Entry(item, kept)],
           waiting := if kept then queue.waiting + [item] else queue.waiting)
  }

  /** What tell_disconnected pushes, if the queue was not full when it looked: there is no notification. */
  function Told(s: State, item: Item): State {
    Put(s, Disconnected, Logged(At(s, Disconnected), item, true)).(silent := true)
  }

  /** What it reports lost, if it was. */
  function NotTold(s: State, item: Item): State {
    Put(s, Disconnected, Logged(At(s, Disconnected), item, false))
  }

  predicate ListenerEnabled(s: State, a: Action) {
    match a
    case Pick(_, _) => s.listener.Polling?
    case Push => s.listener.Pushing?
    case Notify => s.listener.Notifying?
    case StopPolling => s.listener.Polling? && !s.running
    case CloseOne(_) => s.listener.Closing?
    case PushClosed => s.listener.Telling?
    case EndClosing => s.listener.Closing?
    case JoinTest => s.listener.Joining? && s.listener.k < |s.consumers|
    case Await => s.listener.Awaiting? && s.listener.k < |s.consumers| && s.consumers[s.listener.k].pc.Ended?
    case Finish => s.listener.Joining? && s.listener.k == |s.consumers|
    case _ => false
  }

  function Woken(cfg: Config, consumers: seq<Consumer>, q: QueueId): (woken: seq<Consumer>)
    requires |consumers| == |cfg.slots|
    ensures |woken| == |consumers|
    ensures forall c :: 0 <= c < |woken| ==>
              woken[c] == consumers[c].(wake := consumers[c].wake || IsNotified(cfg, c, q))
  {
    seq(|consumers|, c requires 0 <= c < |consumers| =>
          consumers[c].(wake := consumers[c].wake || IsNotified(cfg, c, q)))
  }

  function ListenerStep(cfg: Config, s: State, a: Action): (t: State)
    requires |s.consumers| == |cfg.slots| && ListenerEnabled(s, a)
    ensures |t.consumers| == |s.consumers|
  {
    match a
    case Pick(q, item) =>
      if Full(cfg, At(s, q)) then
        Put(s, q, Logged(At(s, q), item, false)).(listener := if q.Disconnected? then Notifying(q) else Polling)
      else Put(s, q, At(s, q)).(listener := Pushing(q, item))
    case Push =>
      var (q, item) := (s.listener.q, s.listener.item);
      Put(s, q, Logged(At(s, q), item, true)).(listener := Notifying(q))
    case Notify =>
      s.(listener := Polling, silent := s.silent && !s.listener.q.Disconnected?,
         consumers := Woken(cfg, s.consumers, s.listener.q))
    case StopPolling => s.(listener := Closing)
    case CloseOne(item) =>
      if Full(cfg, At(s, Disconnected)) then NotTold(s, item) else s.(listener := Telling(item))
    case PushClosed => Told(s, s.listener.item).(listener := Closing)
    case EndClosing => s.(listener := Joining(0))
    case JoinTest =>
      var k := s.listener.k;
      if s.consumers[k].running then
        s.(consumers := s.consumers[k := s.consumers[k].(running := false)], listener := Awaiting(k))
      else s.(skipped := s.skipped + {k}, listener := Joining(k + 1))
    case Await => s.(listener := Joining(s.listener.k + 1))
    case Finish => s.(listener := Finished)
  }

  /** The listener has begun to join its consumers, or is done with it. */
  predicate IsJoining(l: ListenerPc) {
    l.Joining? || l.Awaiting? || l.Finished?
  }

  predicate UserEnabled(s: State, a: Action) {
    match a
    case JoinListener => true
    case UserDisconnect(_) => true
    case PushTold(item) => item in s.telling
    case StartConsumer(c) => c < |s.consumers| && s.consumers[c].pc.Idle?
    case StopConsumer(c) => c < |s.consumers| && s.consumers[c].running
    case _ => false
  }

  function UserStep(cfg: Config, s: State, a: Action): (t: State)
    requires UserEnabled(s, a)
    ensures |t.consumers| == |s.consumers|
  {
    match a
    case JoinListener => s.(running := false)
    case UserDisconnect(item) =>
      if Full(cfg, At(s, Disconnected)) then NotTold(s, item) else s.(telling := s.telling + multiset{item})
    case PushTold(item) =>
      Told(s, item).(telling := s.telling - multiset{item}, late := s.late || IsJoining(s.listener))
    case StartConsumer(c) => s.(consumers := s.consumers[c := s.consumers[c].(running := true, pc := Testing)])
    case StopConsumer(c) =>
      s.(consumers := s.consumers[c := s.consumers[c].(running := false)], stopped := s.stopped + {c})
  }

  /** A name of a queue that is there and that no one is bound to. */
  predicate Visitable(cfg: Config, s: State, name: Name) {
    Named(name) in s.queues && !Bound(cfg, name)
  }

  /** The queue that a consumer takes from, if any, is empty. */
  predicate NothingHere(cfg: Config, s: State, c: nat)
    requires c < |cfg.slots| && c < |s.consumers|
  {
    Current(cfg, s, c).Some? ==> At(s, Current(cfg, s, c).value).waiting == []
  }

  ghost predicate ConsumerEnabled(cfg: Config, s: State, a: Action)
    requires |s.consumers| == |cfg.slots| && OfConsumer(a)
  {
    && a.c < |s.consumers|
    && var k := s.consumers[a.c];
    && (a.Test? || a.Wake? || a.Timeout? || k.pc.Pass?)
    && (a.Test? || a.Wake? || a.Timeout? || a.Deliver? || k.pc.hand == None)
    && match a
       case Test(c) => k.pc.Testing?
       case Wake(c) => k.pc.Waiting? && k.wake
       case Timeout(c) => k.pc.Waiting? && !k.wake
       case Pop(c) => Current(cfg, s, c).Some? && At(s, Current(cfg, s, c).value).waiting != []
       case Deliver(c) => k.pc.hand.Some? && Current(cfg, s, c).Some?
       case NextSlot(c) => k.pc.stage.Slots? && NothingHere(cfg, s, c)
       case Visit(c, name) =>
         && k.pc.stage.Events? && k.pc.stage.from <= name && Visitable(cfg, s, name)
         && forall m :: k.pc.stage.from <= m < name ==> !Visitable(cfg, s, m)
       case NextEvent(c) => k.pc.stage.EventAt? && NothingHere(cfg, s, c)
       case NoMoreEvents(c) =>
         k.pc.stage.Events? && forall m :: k.pc.stage.from <= m ==> !Visitable(cfg, s, m)
       case EndPass(c) => k.pc.stage.Disconnections? && NothingHere(cfg, s, c)
  }

  /** Where the thread of a consumer goes. */
  function NextPc(cfg: Config, s: State, a: Action): ConsumerPc
    requires |s.consumers| == |cfg.slots| && OfConsumer(a) && ConsumerEnabled(cfg, s, a)
  {
    var k := s.consumers[a.c];
    match a
    case Test(_) => if k.running then Waiting else Pass(true, Slots(0), None)
    case Wake(_) => Pass(false, Slots(0), None)
    case Timeout(_) => Testing
    case Pop(c) => k.pc.(hand := Some(At(s, Current(cfg, s, c).value).waiting[0]))
    case Deliver(_) => k.pc.(hand := None)
    case NextSlot(c) =>
      k.pc.(stage := if k.pc.stage.i < |cfg.slots[c]| then Slots(k.pc.stage.i + 1)
                     else if cfg.onEvent == Some(c) then Events(0)
                     else Disconnections)
    case Visit(_, name) => k.pc.(stage := EventAt(name))
    case NextEvent(_) => k.pc.(stage := Events(k.pc.stage.name + 1))
    case NoMoreEvents(_) => k.pc.(stage := Disconnections)
    case EndPass(_) => if k.pc.final then Ended else Testing
  }

  /** What a consumer does to the queues: it pops the first item of one, or has delivered it. */
  function NextQueues(cfg: Config, s: State, a: Action): map<QueueId, Queue>
    requires |s.consumers| == |cfg.slots| && OfConsumer(a) && ConsumerEnabled(cfg, s, a)
  {
    if a.Pop? then
      var q := Current(cfg, s, a.c).value;
      s.queues[q := At(s, q).(waiting := At(s, q).waiting[1..])]
    else if a.Deliver? then
      var q := Current(cfg, s, a.c).value;
      s.queues[q := At(s, q).(delivered := At(s, q).delivered + [s.consumers[a.c].pc.hand.value])]
    else s.queues
  }

  function ConsumerStep(cfg: Config, s: State, a: Action): (t: State)
    requires |s.consumers| == |cfg.slots| && OfConsumer(a) && ConsumerEnabled(cfg, s, a)
    ensures |t.consumers| == |s.consumers|
  {
    var k := s.consumers[a.c];
    s.(queues := NextQueues(cfg, s, a),
       consumers := s.consumers[a.c := Consumer(k.running, k.wake && !a.Wake?, NextPc(cfg, s, a))])
  }

  ghost predicate Enabled(cfg: Config, s: State, a: Action)
    requires |s.consumers| == |cfg.slots|
  {
    if OfConsumer(a) then ConsumerEnabled(cfg, s, a)
    else if OfListener(a) then ListenerEnabled(s, a)
    else UserEnabled(s, a)
  }

  function Step(cfg: Config, s: State, a: Action): (t: State)
    requires |s.consumers| == |cfg.slots| && Enabled(cfg, s, a)
    ensures |t.consumers| == |s.consumers|
  {
    if OfConsumer(a) then ConsumerStep(cfg, s, a)
    else if OfListener(a) then ListenerStep(cfg, s, a)
    else UserStep(cfg, s, a)
  }

  // ---------------------------------------------------------------------------
  // Invariants
  // ---------------------------------------------------------------------------

  /** A consumer stands at queues that it takes from. */
  predicate StageFits(cfg: Config, c: nat, pc: ConsumerPc)
    requires c < |cfg.slots|
  {
    pc.Pass? ==>
      && (pc.stage.Slots? ==> pc.stage.i <= |cfg.slots[c]|)
      && (pc.stage.Events? || pc.stage.EventAt? ==> cfg.onEvent == Some(c))
      && (pc.stage.EventAt? ==> !Bound(cfg, pc.stage.name))
  }

  ghost predicate Shaped(cfg: Config, s: State) {
    && |s.consumers| == |cfg.slots|
    && forall c | 0 <= c < |s.consumers| ::
         && StageFits(cfg, c, s.consumers[c].pc)
         && (s.consumers[c].pc.Pass? && s.consumers[c].pc.hand.Some? ==> Current(cfg, s, c).Some?)
  }

  lemma CurrentIsTaken(cfg: Config, s: State, c: nat)
    requires Shaped(cfg, s) && c < |s.consumers| && Current(cfg, s, c).Some?
    ensures Takes(cfg, c, Current(cfg, s, c).value)
  {
  }

  lemma NextPcFits(cfg: Config, s: State, a: Action)
    requires Shaped(cfg, s) && OfConsumer(a) && ConsumerEnabled(cfg, s, a)
    ensures StageFits(cfg, a.c, NextPc(cfg, s, a))
  {
  }

  lemma HandStays(cfg: Config, s: State, a: Action)
    requires Shaped(cfg, s) && OfConsumer(a) && ConsumerEnabled(cfg, s, a)
    ensures var k, next := s.consumers[a.c].pc, NextPc(cfg, s, a);
            && (a.Pop? || a.Deliver? ==> k.Pass? && next.Pass? && next.stage == k.stage && next.final == k.final)
            && (a.Pop? ==> k.hand == None && next.hand.Some?)
            && (a.Deliver? ==> k.hand.Some? && next.hand == None)
            && (!a.Pop? && !a.Deliver? ==> (k.Pass? ==> k.hand == None) && (next.Pass? ==> next.hand == None))
  {
  }

  /** Nobody else touches the pass of a consumer. */
  lemma OthersLeavePcs(cfg: Config, s: State, a: Action, c: nat)
    requires |s.consumers| == |cfg.slots| && Enabled(cfg, s, a) && !OfConsumer(a) && c < |s.consumers|
    ensures var t := Step(cfg, s, a);
            && |t.consumers| == |s.consumers|
            && (t.consumers[c].pc == s.consumers[c].pc || (s.consumers[c].pc.Idle? && t.consumers[c].pc.Testing?))
  {
    hide ConsumerEnabled, ConsumerStep, ListenerStep, UserStep;
    if OfListener(a) {
      ListenerLeavesPcs(cfg, s, a, c);
    } else {
      UserLeavesPcs(cfg, s, a, c);
    }
  }

  lemma ListenerLeavesPcs(cfg: Config, s: State, a: Action, c: nat)
    requires |s.consumers| == |cfg.slots| && ListenerEnabled(s, a) && c < |s.consumers|
    ensures ListenerStep(cfg, s, a).consumers[c].pc == s.consumers[c].pc
  {
    hide At, Logged, IsNotified;
  }

  lemma UserLeavesPcs(cfg: Config, s: State, a: Action, c: nat)
    requires UserEnabled(s, a) && c < |s.consumers|
    ensures var before, after := s.consumers[c].pc, UserStep(cfg, s, a).consumers[c].pc;
            after == before || (before.Idle? && after.Testing?)
  {
    hide At, Logged;
  }

  lemma StepKeepsShape(cfg: Config, s: State, a: Action)
    requires Shaped(cfg, s) && Enabled(cfg, s, a)
    ensures Shaped(cfg, Step(cfg, s, a))
  {
    if OfConsumer(a) {
      ConsumerKeepsShape(cfg, s, a);
      hide ConsumerStep, ConsumerEnabled;
    } else {
      OthersKeepShape(cfg, s, a);
      hide Step, Enabled;
    }
  }

  lemma ConsumerKeepsShape(cfg: Config, s: State, a: Action)
    requires Shaped(cfg, s) && OfConsumer(a) && ConsumerEnabled(cfg, s, a)
    ensures Shaped(cfg, ConsumerStep(cfg, s, a))
  {
    NextPcFits(cfg, s, a);
    HandStays(cfg, s, a);
    hide ConsumerEnabled, NextPc, NextQueues;
  }

  lemma OthersKeepShape(cfg: Config, s: State, a: Action)
    requires Shaped(cfg, s) && Enabled(cfg, s, a) && !OfConsumer(a)
    ensures Shaped(cfg, Step(cfg, s, a))
  {
    var t := Step(cfg, s, a);
    hide Step, Enabled, StageFits;
    forall c: nat | c < |s.consumers|
      ensures t.consumers[c].pc == s.consumers[c].pc || (s.consumers[c].pc.Idle? && t.consumers[c].pc.Testing?)
    {
      OthersLeavePcs(cfg, s, a, c);
    }
  }

  /** Consumer c holds an item of queue q. */
  predicate Holds(cfg: Config, s: State, c: nat, q: QueueId)
    requires |s.consumers| == |cfg.slots|
  {
    c < |s.consumers| && s.consumers[c].pc.Pass? && s.consumers[c].pc.hand.Some? && Current(cfg, s, c) == Some(q)
  }

  /** What was kept was delivered, is in a hand, or is waiting, in that order. */
  ghost predicate ConservedAt(cfg: Config, s: State, q: QueueId)
    requires |s.consumers| == |cfg.slots|
  {
    var queue := At(s, q);
    && (forall c: nat | Holds(cfg, s, c, q) ::
          Kept(queue.log) == queue.delivered + [s.consumers[c].pc.hand.value] + queue.waiting)
    && ((forall c: nat :: !Holds(cfg, s, c, q)) ==> Kept(queue.log) == queue.delivered + queue.waiting)
  }

  ghost predicate Conserved(cfg: Config, s: State)
    requires |s.consumers| == |cfg.slots|
  {
    forall q :: ConservedAt(cfg, s, q)
  }

  lemma OneHolder(cfg: Config, s: State, c: nat, d: nat, q: QueueId)
    requires WellFormed(cfg) && Shaped(cfg, s) && c < |s.consumers|
    requires Current(cfg, s, c) == Some(q) && Holds(cfg, s, d, q)
    ensures c == d
  {
    CurrentIsTaken(cfg, s, c);
    CurrentIsTaken(cfg, s, d);
    OneTaker(cfg, c, d, q);
  }

  lemma PopConserves(cfg: Config, s: State, c: nat)
    requires WellFormed(cfg) && Shaped(cfg, s) && Conserved(cfg, s) && Enabled(cfg, s, Pop(c))
    ensures Conserved(cfg, Step(cfg, s, Pop(c)))
  {
    var t := Step(cfg, s, Pop(c));
    var here := Current(cfg, s, c).value;
    StepKeepsShape(cfg, s, Pop(c));
    forall q ensures ConservedAt(cfg, t, q) {
      assert ConservedAt(cfg, s, q);
      if q == here {
        forall d: nat ensures !Holds(cfg, s, d, q) {
          if Holds(cfg, s, d, q) { OneHolder(cfg, s, c, d, q); }
        }
        var queue := At(s, q);
        assert queue.waiting == [queue.waiting[0]] + queue.waiting[1..];
        forall d: nat | Holds(cfg, t, d, q) ensures d == c {
          OneHolder(cfg, t, c, d, q);
        }
        assert Holds(cfg, t, c, q);
      } else {
        assert forall d: nat :: Holds(cfg, t, d, q) <==> Holds(cfg, s, d, q);
      }
    }
  }

  lemma DeliverConserves(cfg: Config, s: State, c: nat)
    requires WellFormed(cfg) && Shaped(cfg, s) && Conserved(cfg, s) && Enabled(cfg, s, Deliver(c))
    ensures Conserved(cfg, Step(cfg, s, Deliver(c)))
  {
    var t := Step(cfg, s, Deliver(c));
    var here := Current(cfg, s, c).value;
    forall q ensures ConservedAt(cfg, t, q) {
      assert ConservedAt(cfg, s, q);
      if q == here {
        assert Holds(cfg, s, c, q);
        forall d: nat ensures !Holds(cfg, t, d, q) {
          if Holds(cfg, s, d, q) { OneHolder(cfg, s, c, d, q); }
        }
      } else {
        assert forall d: nat :: Holds(cfg, t, d, q) <==> Holds(cfg, s, d, q);
      }
    }
  }

  predicate IsLogging(a: Action) {
    a.Pick? || a.Push? || a.CloseOne? || a.PushClosed? || a.UserDisconnect? || a.PushTold?
  }

  /** What a step that logs does to the queues and the hands. */
  lemma LoggingStep(cfg: Config, s: State, a: Action, q: QueueId) returns (item: Item, kept: bool)
    requires |s.consumers| == |cfg.slots| && Enabled(cfg, s, a) && IsLogging(a)
    ensures var t := Step(cfg, s, a);
            && t.consumers == s.consumers
            && (At(t, q) == At(s, q) || At(t, q) == Logged(At(s, q), item, kept))
  {
    hide At, Logged, Full;
    if OfListener(a) {
      item, kept := ListenerLogsItem(cfg, s, a, q);
      hide ListenerStep, ListenerEnabled;
    } else {
      item, kept := UserLogsItem(cfg, s, a, q);
      hide UserStep, UserEnabled;
    }
  }

  lemma ListenerLogsItem(cfg: Config, s: State, a: Action, q: QueueId) returns (item: Item, kept: bool)
    requires |s.consumers| == |cfg.slots| && ListenerEnabled(s, a) && IsLogging(a)
    ensures var t := ListenerStep(cfg, s, a);
            && t.consumers == s.consumers
            && (At(t, q) == At(s, q) || At(t, q) == Logged(At(s, q), item, kept))
  {
    item := if a.Push? || a.PushClosed? then s.listener.item else a.item;
    kept := a.Push? || a.PushClosed?;
    hide Logged;
  }

  lemma UserLogsItem(cfg: Config, s: State, a: Action, q: QueueId) returns (item: Item, kept: bool)
    requires UserEnabled(s, a) && IsLogging(a)
    ensures var t := UserStep(cfg, s, a);
            && t.consumers == s.consumers
            && (At(t, q) == At(s, q) || At(t, q) == Logged(At(s, q), item, kept))
  {
    item, kept := a.item, a.PushTold?;
    hide Logged;
  }

  lemma LoggingConserves(cfg: Config, s: State, a: Action)
    requires Shaped(cfg, s) && Conserved(cfg, s) && Enabled(cfg, s, a) && IsLogging(a)
    ensures Conserved(cfg, Step(cfg, s, a))
  {
    var t := Step(cfg, s, a);
    forall q ensures |t.consumers| == |s.consumers| && ConservedAt(cfg, t, q) {
      var item, kept := LoggingStep(cfg, s, a, q);
      hide Step, Enabled, ConservedAt;
      assert ConservedAt(cfg, s, q);
      LoggedConserves(cfg, s, t, q, item, kept);
    }
  }

  lemma LoggedConserves(cfg: Config, s: State, t: State, q: QueueId, item: Item, kept: bool)
    requires |s.consumers| == |cfg.slots| && t.consumers == s.consumers && ConservedAt(cfg, s, q)
    requires At(t, q) == At(s, q) || At(t, q) == Logged(At(s, q), item, kept)
    ensures ConservedAt(cfg, t, q)
  {
    var queue := At(s, q);
    hide Holds, Current, At, Kept;
    forall d: nat
      ensures Holds(cfg, t, d, q) <==> Holds(cfg, s, d, q)
      ensures Holds(cfg, s, d, q) ==> d < |s.consumers| && s.consumers[d].pc.Pass? && s.consumers[d].pc.hand.Some?
    {
      HoldsByConsumers(cfg, s, t, d, q);
    }
    KeptAppend(queue.log, Entry(item, kept));
    if At(t, q) == Logged(queue, item, kept) && kept {
      forall c: nat | Holds(cfg, t, c, q)
        ensures Kept(At(t, q).log) == queue.delivered + [t.consumers[c].pc.hand.value] + At(t, q).waiting
      {
        BehindWaiting(queue.delivered + [t.consumers[c].pc.hand.value], queue.waiting, item);
      }
      BehindWaiting(queue.delivered, queue.waiting, item);
    }
  }

  lemma HoldsByConsumers(cfg: Config, s: State, t: State, d: nat, q: QueueId)
    requires |s.consumers| == |cfg.slots| && t.consumers == s.consumers
    ensures Holds(cfg, t, d, q) <==> Holds(cfg, s, d, q)
    ensures Holds(cfg, s, d, q) ==> d < |s.consumers| && s.consumers[d].pc.Pass? && s.consumers[d].pc.hand.Some?
  {
  }

  lemma BehindWaiting(front: seq<Item>, waiting: seq<Item>, item: Item)
    ensures front + (waiting + [item]) == (front + waiting) + [item]
  {
  }

  lemma QuietStep(cfg: Config, s: State, a: Action, d: nat, q: QueueId)
    requires Shaped(cfg, s) && Enabled(cfg, s, a) && !IsLogging(a) && !a.Pop? && !a.Deliver?
    ensures var t := Step(cfg, s, a);
            && t.queues == s.queues && |t.consumers| == |s.consumers|
            && (Holds(cfg, t, d, q) <==> Holds(cfg, s, d, q))
            && (Holds(cfg, t, d, q) ==> t.consumers[d].pc.hand == s.consumers[d].pc.hand)
  {
    var t := Step(cfg, s, a);
    if OfConsumer(a) {
      HandStays(cfg, s, a);
      hide ConsumerEnabled, NextPc;
    } else {
      if d < |s.consumers| {
        OthersLeavePcs(cfg, s, a, d);
      }
      OthersLeaveQueues(cfg, s, a);
      hide Step, Enabled;
    }
  }

  lemma OthersLeaveQueues(cfg: Config, s: State, a: Action)
    requires |s.consumers| == |cfg.slots| && Enabled(cfg, s, a) && !OfConsumer(a) && !IsLogging(a)
    ensures Step(cfg, s, a).queues == s.queues
  {
    if OfListener(a) {
      assert ListenerStep(cfg, s, a).queues == s.queues;
    } else {
      assert UserStep(cfg, s, a).queues == s.queues;
    }
    hide ConsumerEnabled, ListenerStep, UserStep;
  }

  lemma OthersConserve(cfg: Config, s: State, a: Action)
    requires Shaped(cfg, s) && Conserved(cfg, s) && Enabled(cfg, s, a) && !IsLogging(a) && !a.Pop? && !a.Deliver?
    ensures Conserved(cfg, Step(cfg, s, a))
  {
    var t := Step(cfg, s, a);
    hide Step, Enabled, Shaped, ConservedAt;
    forall q ensures ConservedAt(cfg, t, q) {
      assert ConservedAt(cfg, s, q);
      forall d: nat
        ensures t.queues == s.queues
        ensures Holds(cfg, t, d, q) <==> Holds(cfg, s, d, q)
        ensures Holds(cfg, t, d, q) ==> t.consumers[d].pc.hand == s.consumers[d].pc.hand
      {
        QuietStep(cfg, s, a, d, q);
      }
      SameHandsConserve(cfg, s, t, q);
    }
  }

  lemma SameHandsConserve(cfg: Config, s: State, t: State, q: QueueId)
    requires |s.consumers| == |t.consumers| == |cfg.slots| && t.queues == s.queues && ConservedAt(cfg, s, q)
    requires forall d: nat :: Holds(cfg, t, d, q) <==> Holds(cfg, s, d, q)
    requires forall d: nat :: Holds(cfg, t, d, q) ==> t.consumers[d].pc.hand == s.consumers[d].pc.hand
    ensures ConservedAt(cfg, t, q)
  {
    hide Current, Kept;
  }

  lemma StepConserves(cfg: Config, s: State, a: Action)
    requires WellFormed(cfg) && Shaped(cfg, s) && Conserved(cfg, s) && Enabled(cfg, s, a)
    ensures Conserved(cfg, Step(cfg, s, a))
  {
    hide *;
    if a.Pop? {
      PopConserves(cfg, s, a.c);
    } else if a.Deliver? {
      DeliverConserves(cfg, s, a.c);
    } else if IsLogging(a) {
      LoggingConserves(cfg, s, a);
    } else {
      OthersConserve(cfg, s, a);
    }
  }

  /**
   * A queue of events is never longer than the maximum and one more; nor is that of disconnections,
   * unless threads of the program push to it.
   */
  ghost predicate Bounded(cfg: Config, s: State, tells: bool) {
    && (!tells ==> s.telling == multiset{})
    && (cfg.max > 0 ==> forall q: QueueId | q.Named? || !tells :: BoundedAt(cfg, s, q))
  }

  predicate BoundedAt(cfg: Config, s: State, q: QueueId) {
    |At(s, q).waiting| <= if IsAdding(s.listener, q) then cfg.max else cfg.max + 1
  }

  /** The listener has found the queue not full, and is about to push to it. */
  predicate IsAdding(l: ListenerPc, q: QueueId) {
    (l.Pushing? && l.q == q) || (l.Telling? && q.Disconnected?)
  }

  lemma ConsumersOnlyShorten(cfg: Config, s: State, a: Action, q: QueueId)
    requires |s.consumers| == |cfg.slots| && OfConsumer(a) && ConsumerEnabled(cfg, s, a)
    ensures |At(ConsumerStep(cfg, s, a), q).waiting| <= |At(s, q).waiting|
  {
  }

  lemma StepKeepsBound(cfg: Config, s: State, a: Action, tells: bool)
    requires |s.consumers| == |cfg.slots| && Bounded(cfg, s, tells) && Enabled(cfg, s, a)
    requires a.UserDisconnect? ==> tells
    ensures Bounded(cfg, Step(cfg, s, a), tells)
  {
    if OfConsumer(a) {
      forall q
        ensures |At(ConsumerStep(cfg, s, a), q).waiting| <= |At(s, q).waiting|
        ensures cfg.max > 0 && (q.Named? || !tells) ==> BoundedAt(cfg, s, q)
      {
        ConsumersOnlyShorten(cfg, s, a, q);
      }
    } else if OfListener(a) {
      ListenerKeepsBound(cfg, s, a, tells);
    } else {
      UserKeepsBound(cfg, s, a, tells);
    }
    hide ConsumerEnabled, ListenerStep, UserStep, NextPc, NextQueues, At;
  }

  lemma ListenerKeepsBound(cfg: Config, s: State, a: Action, tells: bool)
    requires |s.consumers| == |cfg.slots| && Bounded(cfg, s, tells) && ListenerEnabled(s, a)
    ensures Bounded(cfg, ListenerStep(cfg, s, a), tells)
  {
    assert ListenerStep(cfg, s, a).telling == s.telling;
    hide ListenerStep, ListenerEnabled, BoundedAt;
    if cfg.max > 0 {
      forall q: QueueId | q.Named? || !tells ensures BoundedAt(cfg, ListenerStep(cfg, s, a), q) {
        ListenerKeepsBoundAt(cfg, s, a, q);
      }
    }
  }

  lemma ListenerKeepsBoundAt(cfg: Config, s: State, a: Action, q: QueueId)
    requires |s.consumers| == |cfg.slots| && cfg.max > 0 && BoundedAt(cfg, s, q) && ListenerEnabled(s, a)
    ensures BoundedAt(cfg, ListenerStep(cfg, s, a), q)
  {
    ListenerAdds(cfg, s, a, q);
    ListenerLooksFirst(cfg, s, a, q);
    hide ListenerStep, At;
  }

  /** The listener adds to a queue that it was about to add to. */
  lemma ListenerAdds(cfg: Config, s: State, a: Action, q: QueueId)
    requires |s.consumers| == |cfg.slots| && ListenerEnabled(s, a)
    ensures var before, after := At(s, q).waiting, At(ListenerStep(cfg, s, a), q).waiting;
            |after| == |before| + if (a.Push? || a.PushClosed?) && IsAdding(s.listener, q) then 1 else 0
  {
    if a.Push? {
      PushAdds(cfg, s, q);
    } else if a.PushClosed? {
      PushClosedAdds(cfg, s, q);
    } else if a.Pick? || a.CloseOne? {
      LookingLogsLoss(cfg, s, a, q);
    } else {
      assert ListenerStep(cfg, s, a).queues == s.queues;
    }
    hide ListenerStep;
  }

  lemma PushAdds(cfg: Config, s: State, q: QueueId)
    requires |s.consumers| == |cfg.slots| && ListenerEnabled(s, Push)
    ensures var before, after := At(s, q).waiting, At(ListenerStep(cfg, s, Push), q).waiting;
            |after| == |before| + if IsAdding(s.listener, q) then 1 else 0
  {
  }

  lemma PushClosedAdds(cfg: Config, s: State, q: QueueId)
    requires |s.consumers| == |cfg.slots| && ListenerEnabled(s, PushClosed)
    ensures var before, after := At(s, q).waiting, At(ListenerStep(cfg, s, PushClosed), q).waiting;
            |after| == |before| + if IsAdding(s.listener, q) then 1 else 0
  {
  }

  lemma LookingLogsLoss(cfg: Config, s: State, a: Action, q: QueueId)
    requires |s.consumers| == |cfg.slots| && ListenerEnabled(s, a) && (a.Pick? || a.CloseOne?)
    ensures At(ListenerStep(cfg, s, a), q).waiting == At(s, q).waiting
  {
  }

  /** It is only about to add to a queue that it has found not full. */
  lemma ListenerLooksFirst(cfg: Config, s: State, a: Action, q: QueueId)
    requires |s.consumers| == |cfg.slots| && ListenerEnabled(s, a)
    ensures IsAdding(ListenerStep(cfg, s, a).listener, q) ==>
              !Full(cfg, At(s, q)) && !a.Push? && !a.PushClosed? && !IsAdding(s.listener, q)
  {
  }

  lemma UserKeepsBound(cfg: Config, s: State, a: Action, tells: bool)
    requires Bounded(cfg, s, tells) && UserEnabled(s, a) && (a.UserDisconnect? ==> tells)
    ensures Bounded(cfg, UserStep(cfg, s, a), tells)
  {
    if cfg.max > 0 {
      forall q: QueueId | q.Named? || !tells ensures BoundedAt(cfg, UserStep(cfg, s, a), q) {
        assert BoundedAt(cfg, s, q);
      }
    }
  }

  /** Consumer c will still look at queue q in the pass it is in. */
  predicate StillComes(cfg: Config, c: nat, pc: ConsumerPc, q: QueueId)
    requires c < |cfg.slots|
  {
    pc.Pass? &&
    match q
    case Disconnected => true
    case Named(name) =>
      if name in cfg.slots[c] then
        pc.stage.Slots? && exists j :: pc.stage.i <= j < |cfg.slots[c]| && cfg.slots[c][j] == name
      else
        || pc.stage.Slots?
        || (pc.stage.Events? && pc.stage.from <= name)
        || (pc.stage.EventAt? && pc.stage.name <= name)
  }

  /** The listener has pushed something for consumer c, and is about to notify it. */
  predicate AboutToNotify(cfg: Config, s: State, c: nat)
    requires c < |cfg.slots|
  {
    s.listener.Notifying? && IsNotified(cfg, c, s.listener.q)
  }

  ghost predicate CoveredAt(cfg: Config, s: State, c: nat, q: QueueId)
    requires |s.consumers| == |cfg.slots| && c < |cfg.slots|
  {
    Takes(cfg, c, q) && At(s, q).waiting != [] ==>
      || s.consumers[c].wake
      || AboutToNotify(cfg, s, c)
      || StillComes(cfg, c, s.consumers[c].pc, q)
      || (q.Disconnected? && s.silent)
  }

  /** No wakeup is lost. */
  ghost predicate Covered(cfg: Config, s: State)
    requires |s.consumers| == |cfg.slots|
  {
    forall c: nat, q | c < |cfg.slots| :: CoveredAt(cfg, s, c, q)
  }

  // What a step of a consumer does, seen from outside.

  lemma ConsumerTakesAway(cfg: Config, s: State, a: Action, q: QueueId)
    requires |s.consumers| == |cfg.slots| && OfConsumer(a) && ConsumerEnabled(cfg, s, a)
    requires At(ConsumerStep(cfg, s, a), q).waiting != []
    ensures At(s, q).waiting != []
  {
  }

  lemma ConsumerMoves(cfg: Config, s: State, a: Action)
    requires |s.consumers| == |cfg.slots| && OfConsumer(a) && ConsumerEnabled(cfg, s, a)
    ensures var k, after := s.consumers[a.c], NextPc(cfg, s, a);
            && !k.pc.Idle? && !k.pc.Ended? && !after.Idle?
            && (k.pc.Pass? || a.Wake? || (a.Test? && !k.running) ||
                (!after.Pass? && !after.Ended?))
            && (a.Wake? || (a.Test? && !k.running) ==> after == Pass(a.Test?, Slots(0), None))
            && (k.pc.Pass? ==> !a.Wake? && !a.Test? && (Leaving(after) <==> k.pc.final))
  {
  }

  /** A pass begins in front of everything that the consumer takes. */
  lemma PassBegins(cfg: Config, c: nat, q: QueueId, final: bool)
    requires c < |cfg.slots| && Takes(cfg, c, q)
    ensures StillComes(cfg, c, Pass(final, Slots(0), None), q)
  {
  }

  /** A consumer only moves past a queue that is empty. */
  lemma MovesPastEmpty(cfg: Config, s: State, a: Action, q: QueueId)
    requires Shaped(cfg, s) && OfConsumer(a) && ConsumerEnabled(cfg, s, a)
    requires Takes(cfg, a.c, q) && StillComes(cfg, a.c, s.consumers[a.c].pc, q) && At(s, q).waiting != []
    ensures StillComes(cfg, a.c, NextPc(cfg, s, a), q)
  {
    if q.Named? && (a.Visit? || a.NoMoreEvents?) {
      var from := s.consumers[a.c].pc.stage.from;
      assert from <= q.name && (a.Visit? ==> q.name < a.name) ==> !Visitable(cfg, s, q.name);
    }
  }

  lemma ConsumerKeepsCover(cfg: Config, s: State, a: Action)
    requires Shaped(cfg, s) && Covered(cfg, s) && Enabled(cfg, s, a) && OfConsumer(a)
    ensures Covered(cfg, Step(cfg, s, a))
  {
    var t := Step(cfg, s, a);
    ConsumerMoves(cfg, s, a);
    hide ConsumerEnabled, NextPc, NextQueues, StillComes, Takes, At;
    forall c: nat, q | c < |cfg.slots| ensures CoveredAt(cfg, t, c, q) {
      assert CoveredAt(cfg, s, c, q);
      if At(t, q).waiting != [] {
        ConsumerTakesAway(cfg, s, a, q);
      }
      if c == a.c && Takes(cfg, c, q) && At(t, q).waiting != [] {
        if a.Wake? {
          PassBegins(cfg, c, q, false);
        } else if StillComes(cfg, c, s.consumers[c].pc, q) {
          MovesPastEmpty(cfg, s, a, q);
        }
      }
    }
  }

  lemma OthersKeepCover(cfg: Config, s: State, a: Action)
    requires Shaped(cfg, s) && Covered(cfg, s) && Enabled(cfg, s, a) && !OfConsumer(a)
    ensures Covered(cfg, Step(cfg, s, a))
  {
    assert |s.consumers| == |cfg.slots|;
    hide Shaped, Covered, ListenerStep, UserStep;
    if OfListener(a) {
      ListenerKeepsCover(cfg, s, a);
    } else {
      UserKeepsCover(cfg, s, a);
    }
  }

  lemma ListenerKeepsCover(cfg: Config, s: State, a: Action)
    requires |s.consumers| == |cfg.slots| && Covered(cfg, s) && ListenerEnabled(s, a)
    ensures Covered(cfg, ListenerStep(cfg, s, a))
  {
    var t := ListenerStep(cfg, s, a);
    hide StillComes, Bound, Filled, At, Full;
    forall c: nat, q | c < |cfg.slots| ensures CoveredAt(cfg, t, c, q) {
      assert CoveredAt(cfg, s, c, q);
      ListenerAdds(cfg, s, a, q);
    }
  }

  lemma UserKeepsCover(cfg: Config, s: State, a: Action)
    requires |s.consumers| == |cfg.slots| && Covered(cfg, s) && UserEnabled(s, a)
    ensures Covered(cfg, UserStep(cfg, s, a))
  {
    var t := UserStep(cfg, s, a);
    hide Takes, IsNotified;
    forall c: nat, q | c < |cfg.slots| ensures CoveredAt(cfg, t, c, q) {
      assert CoveredAt(cfg, s, c, q);
    }
  }

  // Shutdown.

  /** The listener has come to consumer c in its round of joins. */
  predicate Reached(s: State, c: nat) {
    match s.listener
    case Joining(k) => c < k
    case Awaiting(k) => c <= k
    case Finished => true
    case _ => false
  }

  /** The listener has done with consumer c in its round of joins. */
  predicate Passed(s: State, c: nat) {
    Reached(s, c) && s.listener != Awaiting(c)
  }

  /** Consumer c has left its loop, and is in its last pass or past it. */
  predicate Leaving(pc: ConsumerPc) {
    pc.Ended? || (pc.Pass? && pc.final)
  }

  ghost predicate OrderlyAt(cfg: Config, s: State, c: nat)
    requires |s.consumers| == |cfg.slots| && c < |cfg.slots|
  {
    var k := s.consumers[c];
    && (k.running ==> c !in s.stopped && !k.pc.Idle? && !Leaving(k.pc))
    && (k.pc.Idle? ==> c !in s.stopped && s.listener != Awaiting(c))
    && (!k.running && !k.pc.Idle? && c !in s.stopped ==> Reached(s, c))
    && (s.listener == Awaiting(c) ==> c !in s.stopped && !k.running)
    && (Passed(s, c) && c !in s.skipped ==> k.pc.Ended? && c !in s.stopped)
    && (Leaving(k.pc) && c !in s.stopped ==>
          forall q: QueueId | (q.Disconnected? ==> !s.late) && Takes(cfg, c, q) && At(s, q).waiting != [] ::
            StillComes(cfg, c, k.pc, q))
  }

  ghost predicate Orderly(cfg: Config, s: State)
    requires |s.consumers| == |cfg.slots|
  {
    && (s.listener.Joining? ==> s.listener.k <= |cfg.slots|)
    && (s.listener.Awaiting? ==> s.listener.k < |cfg.slots|)
    && forall c: nat | c < |cfg.slots| :: OrderlyAt(cfg, s, c)
  }

  lemma ConsumerStaysOrderly(cfg: Config, s: State, a: Action)
    requires Shaped(cfg, s) && Orderly(cfg, s) && Enabled(cfg, s, a) && OfConsumer(a)
    ensures Orderly(cfg, Step(cfg, s, a))
  {
    var t := Step(cfg, s, a);
    ConsumerMoves(cfg, s, a);
    hide ConsumerEnabled, NextPc, NextQueues, StillComes, Takes, At;
    forall c: nat | c < |cfg.slots| ensures OrderlyAt(cfg, t, c) {
      assert OrderlyAt(cfg, s, c);
      forall q: QueueId | Leaving(t.consumers[c].pc) && c !in t.stopped && (q.Disconnected? ==> !t.late)
                 && Takes(cfg, c, q) && At(t, q).waiting != []
        ensures StillComes(cfg, c, t.consumers[c].pc, q)
      {
        ConsumerTakesAway(cfg, s, a, q);
        if c == a.c {
          if s.consumers[c].pc.Pass? {
            MovesPastEmpty(cfg, s, a, q);
          } else {
            PassBegins(cfg, c, q, true);
          }
        }
      }
    }
  }

  predicate KeepsQueues(a: Action) {
    a.Notify? || a.StopPolling? || a.EndClosing? || a.Await? || a.Finish?
  }

  lemma ListenerStaysOrderly(cfg: Config, s: State, a: Action)
    requires |s.consumers| == |cfg.slots| && Orderly(cfg, s) && ListenerEnabled(s, a)
    ensures Orderly(cfg, ListenerStep(cfg, s, a))
  {
    hide Orderly, ListenerStep;
    if a.JoinTest? {
      JoinTestStaysOrderly(cfg, s);
    } else if KeepsQueues(a) {
      KeepingStaysOrderly(cfg, s, a);
    } else if a.CloseOne? || a.PushClosed? {
      CloseOneStaysOrderly(cfg, s, a);
    } else {
      PushingStaysOrderly(cfg, s, a);
    }
  }

  lemma KeepingStaysOrderly(cfg: Config, s: State, a: Action)
    requires |s.consumers| == |cfg.slots| && Orderly(cfg, s) && ListenerEnabled(s, a) && KeepsQueues(a)
    ensures Orderly(cfg, ListenerStep(cfg, s, a))
  {
    var t := ListenerStep(cfg, s, a);
    assert t.queues == s.queues;
    hide StillComes, Takes, At;
    forall c: nat | c < |cfg.slots| ensures OrderlyAt(cfg, t, c) {
      assert OrderlyAt(cfg, s, c);
    }
  }

  lemma JoinTestStaysOrderly(cfg: Config, s: State)
    requires |s.consumers| == |cfg.slots| && Orderly(cfg, s) && ListenerEnabled(s, JoinTest)
    ensures Orderly(cfg, ListenerStep(cfg, s, JoinTest))
  {
    var t := ListenerStep(cfg, s, JoinTest);
    hide StillComes, Takes, At;
    forall c: nat | c < |cfg.slots| ensures OrderlyAt(cfg, t, c) {
      assert OrderlyAt(cfg, s, c);
    }
  }

  lemma CloseOneStaysOrderly(cfg: Config, s: State, a: Action)
    requires |s.consumers| == |cfg.slots| && Orderly(cfg, s) && ListenerEnabled(s, a) && (a.CloseOne? || a.PushClosed?)
    ensures Orderly(cfg, ListenerStep(cfg, s, a))
  {
    var t := ListenerStep(cfg, s, a);
    hide StillComes, Takes;
    forall c: nat | c < |cfg.slots| ensures OrderlyAt(cfg, t, c) {
      assert OrderlyAt(cfg, s, c);
    }
  }

  /** While the listener still pushes, no consumer that it is to join has left its loop. */
  lemma PushingStaysOrderly(cfg: Config, s: State, a: Action)
    requires |s.consumers| == |cfg.slots| && Orderly(cfg, s) && ListenerEnabled(s, a) && (a.Pick? || a.Push?)
    ensures Orderly(cfg, ListenerStep(cfg, s, a))
  {
    var t := ListenerStep(cfg, s, a);
    assert t.consumers == s.consumers && t.stopped == s.stopped && t.skipped == s.skipped;
    assert !t.listener.Joining? && !t.listener.Awaiting? && !t.listener.Finished?;
    hide StillComes, Takes, At, ListenerStep;
    forall c: nat | c < |cfg.slots| ensures OrderlyAt(cfg, t, c) {
      assert OrderlyAt(cfg, s, c);
    }
  }

  lemma UserStaysOrderly(cfg: Config, s: State, a: Action)
    requires |s.consumers| == |cfg.slots| && Orderly(cfg, s) && UserEnabled(s, a)
    ensures Orderly(cfg, UserStep(cfg, s, a))
  {
    if a.PushTold? {
      PushToldStaysOrderly(cfg, s, a.item);
    } else if a.UserDisconnect? {
      UserDisconnectStaysOrderly(cfg, s, a.item);
    } else {
      JoinsStayOrderly(cfg, s, a);
    }
  }

  /** Starting and joining consumers, and joining the listener, leaves the queues as they are. */
  lemma JoinsStayOrderly(cfg: Config, s: State, a: Action)
    requires |s.consumers| == |cfg.slots| && Orderly(cfg, s) && UserEnabled(s, a)
    requires a.JoinListener? || a.StartConsumer? || a.StopConsumer?
    ensures Orderly(cfg, UserStep(cfg, s, a))
  {
    var t := UserStep(cfg, s, a);
    assert t.queues == s.queues;
    hide StillComes, Takes, At;
    forall c: nat | c < |cfg.slots| ensures OrderlyAt(cfg, t, c) {
      assert OrderlyAt(cfg, s, c);
    }
  }

  lemma UserDisconnectStaysOrderly(cfg: Config, s: State, item: Item)
    requires |s.consumers| == |cfg.slots| && Orderly(cfg, s) && UserEnabled(s, UserDisconnect(item))
    ensures Orderly(cfg, UserStep(cfg, s, UserDisconnect(item)))
  {
    var t := UserStep(cfg, s, UserDisconnect(item));
    forall q ensures At(t, q).waiting == At(s, q).waiting {
    }
    hide StillComes, Takes, At;
    forall c: nat | c < |cfg.slots| ensures OrderlyAt(cfg, t, c) {
      assert OrderlyAt(cfg, s, c);
    }
  }

  lemma PushToldStaysOrderly(cfg: Config, s: State, item: Item)
    requires |s.consumers| == |cfg.slots| && Orderly(cfg, s) && UserEnabled(s, PushTold(item))
    ensures Orderly(cfg, UserStep(cfg, s, PushTold(item)))
  {
    var t := UserStep(cfg, s, PushTold(item));
    forall name ensures At(t, Named(name)) == At(s, Named(name)) {
    }
    hide StillComes, Takes, At;
    forall c: nat | c < |cfg.slots| ensures OrderlyAt(cfg, t, c) {
      assert OrderlyAt(cfg, s, c);
    }
  }

  // ---------------------------------------------------------------------------
  // Runs
  // ---------------------------------------------------------------------------

  ghost predicate Inv(cfg: Config, s: State) {
    Shaped(cfg, s) && Conserved(cfg, s) && Bounded(cfg, s, true) && Covered(cfg, s) && Orderly(cfg, s)
  }

  lemma InitialInv(cfg: Config)
    ensures Inv(cfg, Initial(cfg))
  {
    assert Kept([]) == [];
  }

  lemma StepKeepsInv(cfg: Config, s: State, a: Action)
    requires WellFormed(cfg) && Inv(cfg, s) && Enabled(cfg, s, a)
    ensures Inv(cfg, Step(cfg, s, a))
  {
    StepKeepsShape(cfg, s, a);
    StepConserves(cfg, s, a);
    StepKeepsBound(cfg, s, a, true);
    if OfConsumer(a) {
      ConsumerKeepsCover(cfg, s, a);
      ConsumerStaysOrderly(cfg, s, a);
    } else {
      OthersKeepCover(cfg, s, a);
      if OfListener(a) {
        ListenerStaysOrderly(cfg, s, a);
      } else {
        UserStaysOrderly(cfg, s, a);
      }
    }
  }

  ghost predicate IsRun(cfg: Config, states: seq<State>, actions: seq<Action>) {
    && |states| == |actions| + 1 && states[0] == Initial(cfg)
    && forall i :: 0 <= i < |actions| ==>
         && |states[i].consumers| == |cfg.slots|
         && Enabled(cfg, states[i], actions[i])
         && states[i + 1] == Step(cfg, states[i], actions[i])
  }

  lemma {:induction false} RunKeepsInv(cfg: Config, states: seq<State>, actions: seq<Action>, i: nat)
    requires WellFormed(cfg) && IsRun(cfg, states, actions) && i < |states|
    ensures Inv(cfg, states[i])
  {
    hide Inv, Step, Enabled;
    if i == 0 {
      InitialInv(cfg);
    } else {
      RunKeepsInv(cfg, states, actions, i - 1);
      StepKeepsInv(cfg, states[i - 1], actions[i - 1]);
    }
  }

  /**
   * No wakeup is lost. Whenever an event waits in the queue of a consumer, that consumer has been
   * woken up, or is about to be, or will still come to that queue in the pass it is in. Only a
   * disconnection may wait for the next notification, if it was told without one.
   */
  lemma NoLostWakeup(cfg: Config, states: seq<State>, actions: seq<Action>, i: nat, c: nat, q: QueueId)
    requires WellFormed(cfg) && IsRun(cfg, states, actions) && i < |states|
    requires c < |cfg.slots| && Takes(cfg, c, q) && At(states[i], q).waiting != []
    ensures |states[i].consumers| == |cfg.slots|
    ensures var s := states[i];
            || s.consumers[c].wake
            || AboutToNotify(cfg, s, c)
            || StillComes(cfg, c, s.consumers[c].pc, q)
            || (q.Disconnected? && s.silent)
  {
    RunKeepsInv(cfg, states, actions, i);
    assert CoveredAt(cfg, states[i], c, q);
  }

  /** No thread of the program disconnects a connection. */
  ghost predicate NoTells(actions: seq<Action>) {
    forall i :: 0 <= i < |actions| ==> !actions[i].UserDisconnect?
  }

  /** The listener has left its loop. What it tells then is for the last pass of the consumers. */
  predicate IsEnding(l: ListenerPc) {
    l.Closing? || l.Telling? || IsJoining(l)
  }

  /** So far no disconnection was told without a notification, but by the listener at its end. */
  ghost predicate Untold(s: State) {
    s.telling == multiset{} && (s.silent ==> IsEnding(s.listener))
  }

  lemma {:induction false} SilentOnlyAtTheEnd(cfg: Config, states: seq<State>, actions: seq<Action>, i: nat)
    requires IsRun(cfg, states, actions) && i < |states| && NoTells(actions)
    ensures Untold(states[i])
  {
    if i > 0 {
      SilentOnlyAtTheEnd(cfg, states, actions, i - 1);
      SilentStep(cfg, states[i - 1], actions[i - 1]);
    }
  }

  lemma SilentStep(cfg: Config, s: State, a: Action)
    requires |s.consumers| == |cfg.slots| && Enabled(cfg, s, a) && !a.UserDisconnect? && Untold(s)
    ensures Untold(Step(cfg, s, a))
  {
  }

  /** A consumer that sleeps, and that the listener is not about to notify, has nothing to do. */
  lemma SleepersHaveNothingToDo(cfg: Config, states: seq<State>, actions: seq<Action>, i: nat, c: nat, q: QueueId)
    requires WellFormed(cfg) && IsRun(cfg, states, actions) && i < |states|
    requires c < |cfg.slots| && |states[i].consumers| == |cfg.slots| && Takes(cfg, c, q)
    requires states[i].consumers[c].pc.Waiting? && !states[i].consumers[c].wake && !states[i].listener.Notifying?
    requires q.Disconnected? ==> !states[i].silent
    ensures At(states[i], q).waiting == []
    ensures Kept(At(states[i], q).log) == At(states[i], q).delivered
  {
    RunKeepsInv(cfg, states, actions, i);
    var s := states[i];
    assert CoveredAt(cfg, s, c, q);
    assert ConservedAt(cfg, s, q);
    forall d: nat ensures !Holds(cfg, s, d, q) {
      if Holds(cfg, s, d, q) {
        CurrentIsTaken(cfg, s, d);
        OneTaker(cfg, c, d, q);
      }
    }
  }

  /** The items of one connection, in order. */
  function OfConnection(items: seq<Item>, connection: nat): seq<Item> {
    if items == [] then []
    else (if items[0].connection == connection then [items[0]] else []) + OfConnection(items[1..], connection)
  }

  lemma {:induction false} OfConnectionConcat(a: seq<Item>, b: seq<Item>, connection: nat)
    ensures OfConnection(a + b, connection) == OfConnection(a, connection) + OfConnection(b, connection)
  {
    if a == [] {
      assert a + b == b;
    } else {
      assert (a + b)[0] == a[0] && (a + b)[1..] == a[1..] + b;
      OfConnectionConcat(a[1..], b, connection);
      var first := if a[0].connection == connection then [a[0]] else [];
      assert OfConnection(a, connection) == first + OfConnection(a[1..], connection);
      assert OfConnection(a + b, connection) == first + OfConnection(a[1..] + b, connection);
    }
  }

  /** The items reported lost. */
  function Lost(log: seq<Entry>): nat {
    if log == [] then 0 else Lost(log[..|log| - 1]) + if log[|log| - 1].kept then 0 else 1
  }

  lemma {:induction false} KeptAndLost(log: seq<Entry>)
    ensures |log| == |Kept(log)| + Lost(log)
  {
    if log != [] {
      KeptAndLost(log[..|log| - 1]);
    }
  }

  /**
   * Every event that was picked was delivered, or is in one hand, or waits, or was reported lost.
   * From each connection, the delivered ones are those that were kept, in the order they were sent.
   * A queue of events never grows beyond the maximum and one more.
   */
  lemma ConservationAndOrder(cfg: Config, states: seq<State>, actions: seq<Action>, i: nat, q: QueueId, connection: nat)
    requires WellFormed(cfg) && IsRun(cfg, states, actions) && i < |states|
    ensures var queue := At(states[i], q);
            && |queue.delivered| + |queue.waiting| + Lost(queue.log) <= |queue.log|
               <= |queue.delivered| + 1 + |queue.waiting| + Lost(queue.log)
            && queue.delivered <= Kept(queue.log)
            && OfConnection(queue.delivered, connection) <= OfConnection(Kept(queue.log), connection)
            && (q.Named? && cfg.max > 0 ==> |queue.waiting| <= cfg.max + 1)
  {
    RunKeepsInv(cfg, states, actions, i);
    var s := states[i];
    var queue := At(s, q);
    assert ConservedAt(cfg, s, q);
    KeptAndLost(queue.log);
    hide Shaped, Conserved, Covered, Orderly, IsRun, OfConnection;
    var rest: seq<Item>;
    if c: nat :| Holds(cfg, s, c, q) {
      rest := [s.consumers[c].pc.hand.value] + queue.waiting;
      assert queue.delivered + rest == queue.delivered + [s.consumers[c].pc.hand.value] + queue.waiting;
    } else {
      rest := queue.waiting;
    }
    assert Kept(queue.log) == queue.delivered + rest;
    OfConnectionConcat(queue.delivered, rest, connection);
  }

  /** What the listener picked for the queue of a name. */
  function Picks(actions: seq<Action>, name: Name): seq<Item> {
    if actions == [] then []
    else
      var last := actions[|actions| - 1];
      Picks(actions[..|actions| - 1], name) + if last.Pick? && last.q == Named(name) then [last.item] else []
  }

  function Items(log: seq<Entry>): (items: seq<Item>)
    ensures |items| == |log|
  {
    if log == [] then [] else Items(log[..|log| - 1]) + [log[|log| - 1].item]
  }

  lemma ItemsAppend(log: seq<Entry>, e: Entry)
    ensures Items(log + [e]) == Items(log) + [e.item]
  {
    assert (log + [e])[..|log|] == log;
  }

  lemma {:induction false} NothingLost(log: seq<Entry>)
    requires Lost(log) == 0
    ensures Kept(log) == Items(log)
  {
    if log != [] {
      NothingLost(log[..|log| - 1]);
    }
  }

  /** The item that the listener has picked for a queue, and not pushed yet. */
  function Pending(s: State, name: Name): seq<Item> {
    if s.listener.Pushing? && s.listener.q == Named(name) then [s.listener.item] else []
  }

  /** What was kept or lost is what was picked, in that order. */
  lemma {:induction false} LogIsPicks(cfg: Config, states: seq<State>, actions: seq<Action>, i: nat, name: Name)
    requires IsRun(cfg, states, actions) && i < |states|
    ensures Items(At(states[i], Named(name)).log) + Pending(states[i], name) == Picks(actions[..i], name)
  {
    hide Step, Enabled, At, Items, Pending, Picks;
    if i == 0 {
      NothingPickedYet(cfg, actions, name);
    } else {
      LogIsPicks(cfg, states, actions, i - 1, name);
      PicksStep(actions, i, name);
      LogStep(cfg, states[i - 1], actions[i - 1], name);
    }
  }

  lemma NothingPickedYet(cfg: Config, actions: seq<Action>, name: Name)
    ensures Items(At(Initial(cfg), Named(name)).log) + Pending(Initial(cfg), name) == Picks(actions[..0], name)
  {
  }

  lemma PicksStep(actions: seq<Action>, i: nat, name: Name)
    requires 0 < i <= |actions|
    ensures var a := actions[i - 1];
            Picks(actions[..i], name) ==
            Picks(actions[..i - 1], name) + if a.Pick? && a.q == Named(name) then [a.item] else []
  {
    assert actions[..i][..i - 1] == actions[..i - 1];
  }

  lemma LogStep(cfg: Config, s: State, a: Action, name: Name)
    requires |s.consumers| == |cfg.slots| && Enabled(cfg, s, a)
    ensures var t := Step(cfg, s, a);
            Items(At(t, Named(name)).log) + Pending(t, name) ==
            Items(At(s, Named(name)).log) + Pending(s, name) + if a.Pick? && a.q == Named(name) then [a.item] else []
  {
    if OfConsumer(a) {
      ConsumersLeaveLogs(cfg, s, a, Named(name));
    } else if OfListener(a) {
      ListenerLogs(cfg, s, a, name);
    } else {
      UsersLeaveLogs(cfg, s, a, name);
    }
    hide ConsumerEnabled, ConsumerStep, ListenerStep, UserStep, Items, At;
  }

  lemma UsersLeaveLogs(cfg: Config, s: State, a: Action, name: Name)
    requires UserEnabled(s, a)
    ensures At(UserStep(cfg, s, a), Named(name)) == At(s, Named(name))
    ensures UserStep(cfg, s, a).listener == s.listener
  {
  }

  lemma ListenerLogs(cfg: Config, s: State, a: Action, name: Name)
    requires |s.consumers| == |cfg.slots| && ListenerEnabled(s, a)
    ensures var t := ListenerStep(cfg, s, a);
            Items(At(t, Named(name)).log) + Pending(t, name) ==
            Items(At(s, Named(name)).log) + Pending(s, name) + if a.Pick? && a.q == Named(name) then [a.item] else []
  {
    var log := At(s, Named(name)).log;
    if a.Pick? {
      PickLogs(cfg, s, a, name);
      ItemsAppend(log, Entry(a.item, false));
    } else if a.Push? {
      PushLogs(cfg, s, name);
      ItemsAppend(log, Entry(s.listener.item, true));
    } else {
      NothingLogged(cfg, s, a, name);
    }
    hide *;
  }

  lemma NothingLogged(cfg: Config, s: State, a: Action, name: Name)
    requires |s.consumers| == |cfg.slots| && ListenerEnabled(s, a) && !a.Pick? && !a.Push?
    ensures At(ListenerStep(cfg, s, a), Named(name)) == At(s, Named(name))
    ensures Pending(ListenerStep(cfg, s, a), name) == Pending(s, name) == []
  {
  }

  lemma PickLogs(cfg: Config, s: State, a: Action, name: Name)
    requires |s.consumers| == |cfg.slots| && ListenerEnabled(s, a) && a.Pick?
    ensures var t, log := ListenerStep(cfg, s, a), At(s, Named(name)).log;
            && Pending(s, name) == []
            && if a.q != Named(name) then At(t, Named(name)).log == log && Pending(t, name) == []
               else if Full(cfg, At(s, a.q)) then
                 At(t, a.q).log == log + [Entry(a.item, false)] && Pending(t, name) == []
               else At(t, a.q).log == log && Pending(t, name) == [a.item]
  {
  }

  lemma PushLogs(cfg: Config, s: State, name: Name)
    requires |s.consumers| == |cfg.slots| && ListenerEnabled(s, Push)
    ensures var t, log := ListenerStep(cfg, s, Push), At(s, Named(name)).log;
            && Pending(t, name) == []
            && Pending(s, name) == (if s.listener.q == Named(name) then [s.listener.item] else [])
            && At(t, Named(name)).log ==
               if s.listener.q == Named(name) then log + [Entry(s.listener.item, true)] else log
  {
  }

  /** With queues of any length nothing is lost. */
  lemma {:induction false} UnboundedLosesNothing(cfg: Config, states: seq<State>, actions: seq<Action>, i: nat,
          name: Name)
    requires IsRun(cfg, states, actions) && i < |states| && cfg.max == 0
    ensures Lost(At(states[i], Named(name)).log) == 0
  {
    hide Step, Enabled, At, Lost;
    if i == 0 {
      NothingLostYet(cfg, name);
    } else {
      UnboundedLosesNothing(cfg, states, actions, i - 1, name);
      LosingStep(cfg, states[i - 1], actions[i - 1], name);
    }
  }

  lemma NothingLostYet(cfg: Config, name: Name)
    ensures Lost(At(Initial(cfg), Named(name)).log) == 0
  {
  }

  lemma LosingStep(cfg: Config, s: State, a: Action, name: Name)
    requires |s.consumers| == |cfg.slots| && Enabled(cfg, s, a) && cfg.max == 0
    ensures Lost(At(Step(cfg, s, a), Named(name)).log) == Lost(At(s, Named(name)).log)
  {
    var log := At(s, Named(name)).log;
    if OfConsumer(a) {
      ConsumersLeaveLogs(cfg, s, a, Named(name));
    } else if a.Pick? {
      PickLogs(cfg, s, a, name);
    } else if a.Push? {
      PushLogs(cfg, s, name);
      LostAppend(log, Entry(s.listener.item, true));
    } else if OfListener(a) {
      NothingLogged(cfg, s, a, name);
    } else {
      UsersLeaveLogs(cfg, s, a, name);
    }
    hide ConsumerEnabled, ConsumerStep, ListenerStep, UserStep, Lost, At;
  }

  lemma LostAppend(log: seq<Entry>, e: Entry)
    ensures Lost(log + [e]) == Lost(log) + if e.kept then 0 else 1
  {
    assert (log + [e])[..|log|] == log;
  }

  lemma ConsumersLeaveLogs(cfg: Config, s: State, a: Action, q: QueueId)
    requires |s.consumers| == |cfg.slots| && OfConsumer(a) && ConsumerEnabled(cfg, s, a)
    ensures var t := ConsumerStep(cfg, s, a);
            At(t, q).log == At(s, q).log && t.listener == s.listener && t.telling == s.telling
  {
    hide NextPc;
  }

  /**
   * Joining the listener drains the queues: once it is done, a consumer that was running when the
   * listener came to join it has delivered every event that was kept for it, once, and in order.
   * That goes for the disconnections too, but for those that a user's thread told during the joins.
   */
  lemma ShutdownDrains(cfg: Config, states: seq<State>, actions: seq<Action>, i: nat, c: nat, q: QueueId)
    requires WellFormed(cfg) && IsRun(cfg, states, actions) && i < |states| && states[i].listener.Finished?
    requires c < |cfg.slots| && Takes(cfg, c, q) && c !in states[i].skipped
    requires q.Disconnected? ==> !states[i].late
    ensures At(states[i], q).waiting == []
    ensures At(states[i], q).delivered == Kept(At(states[i], q).log)
  {
    RunKeepsInv(cfg, states, actions, i);
    var s := states[i];
    assert OrderlyAt(cfg, s, c);
    assert ConservedAt(cfg, s, q);
    forall d: nat ensures !Holds(cfg, s, d, q) {
      if Holds(cfg, s, d, q) {
        CurrentIsTaken(cfg, s, d);
        OneTaker(cfg, c, d, q);
      }
    }
  }

  /** A hidden name keeps its events for ever. */
  lemma HiddenIsNeverDelivered(cfg: Config, states: seq<State>, actions: seq<Action>, i: nat, name: Name)
    requires WellFormed(cfg) && IsRun(cfg, states, actions) && i < |states|
    requires name in cfg.hidden && !Filled(cfg, name)
    ensures At(states[i], Named(name)).delivered == []
  {
    UntakenIsNeverDelivered(cfg, states, actions, i, Named(name));
  }

  lemma {:induction false} UntakenIsNeverDelivered(cfg: Config, states: seq<State>, actions: seq<Action>, i: nat,
          q: QueueId)
    requires WellFormed(cfg) && IsRun(cfg, states, actions) && i < |states|
    requires forall c: nat | c < |cfg.slots| :: !Takes(cfg, c, q)
    ensures At(states[i], q).delivered == []
  {
    if i > 0 {
      UntakenIsNeverDelivered(cfg, states, actions, i - 1, q);
      RunKeepsInv(cfg, states, actions, i - 1);
      assert Shaped(cfg, states[i - 1]);
      hide Inv, Step, Enabled, Shaped, At;
      UntakenStep(cfg, states[i - 1], actions[i - 1], q);
    }
  }

  lemma UntakenStep(cfg: Config, s: State, a: Action, q: QueueId)
    requires Shaped(cfg, s) && Enabled(cfg, s, a)
    requires forall c: nat | c < |cfg.slots| :: !Takes(cfg, c, q)
    ensures At(Step(cfg, s, a), q).delivered == At(s, q).delivered
  {
    if OfConsumer(a) {
      UntakenByConsumer(cfg, s, a, q);
    } else if IsLogging(a) {
      var item, kept := LoggingStep(cfg, s, a, q);
    } else {
      OthersLeaveQueues(cfg, s, a);
    }
    hide ConsumerEnabled, ConsumerStep, ListenerStep, UserStep;
  }

  lemma UntakenByConsumer(cfg: Config, s: State, a: Action, q: QueueId)
    requires Shaped(cfg, s) && OfConsumer(a) && ConsumerEnabled(cfg, s, a)
    requires forall c: nat | c < |cfg.slots| :: !Takes(cfg, c, q)
    ensures At(ConsumerStep(cfg, s, a), q).delivered == At(s, q).delivered
  {
    if a.Pop? || a.Deliver? {
      CurrentIsTaken(cfg, s, a.c);
      assert Current(cfg, s, a.c).value != q;
    }
    hide NextPc, Takes, Shaped;
  }
}
