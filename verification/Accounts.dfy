/** What was done in a run, added up: picks, notifications, passes, and the sleep of consumers. */
module Accounts {
  import opened Delivery

  function Count(b: bool): nat {
    if b then 1 else 0
  }

  // ---------------------------------------------------------------------------
  // Notifications
  // ---------------------------------------------------------------------------

  /** The notifications for a queue in the first i steps. */
  function Notices(states: seq<State>, actions: seq<Action>, i: nat, q: QueueId): nat
    requires i <= |actions| <= |states|
  {
    if i == 0 then 0
    else
      var s := states[i - 1];
      Notices(states, actions, i - 1, q) + Count(actions[i - 1].Notify? && s.listener == Notifying(q))
  }

  function Picked(actions: seq<Action>, i: nat, q: QueueId): nat
    requires i <= |actions|
  {
    if i == 0 then 0
    else Picked(actions, i - 1, q) + Count(actions[i - 1].Pick? && actions[i - 1].q == q)
  }

  /** A notification for a name is due, was given, or will be when an event is kept. */
  lemma NoticeStep(cfg: Config, s: State, a: Action, name: Name)
    requires |s.consumers| == |cfg.slots| && Enabled(cfg, s, a)
    ensures var t, q := Step(cfg, s, a), Named(name);
            Count(a.Notify? && s.listener == Notifying(q)) + Count(t.listener == Notifying(q)) + |Kept(At(s, q).log)|
            == Count(s.listener == Notifying(q)) + |Kept(At(t, q).log)|
  {
    hide ConsumerEnabled, ConsumerStep, ListenerStep, UserStep, At, Kept, Full;
    if OfConsumer(a) {
      ConsumersLeaveLogs(cfg, s, a, Named(name));
    } else if OfListener(a) {
      ListenerNoticeStep(cfg, s, a, name);
    } else {
      UsersLeaveLogs(cfg, s, a, name);
    }
  }

  lemma ListenerNoticeStep(cfg: Config, s: State, a: Action, name: Name)
    requires |s.consumers| == |cfg.slots| && ListenerEnabled(s, a)
    ensures var t, q := ListenerStep(cfg, s, a), Named(name);
            Count(a.Notify? && s.listener == Notifying(q)) + Count(t.listener == Notifying(q)) + |Kept(At(s, q).log)|
            == Count(s.listener == Notifying(q)) + |Kept(At(t, q).log)|
  {
    hide At, Kept, Full, Woken;
    var log := At(s, Named(name)).log;
    ListenerNoticePcs(cfg, s, a, Named(name));
    if a.Pick? {
      PickLogs(cfg, s, a, name);
      KeptAppend(log, Entry(a.item, false));
    } else if a.Push? {
      PushLogs(cfg, s, name);
      KeptAppend(log, Entry(s.listener.item, true));
    } else {
      NothingLogged(cfg, s, a, name);
    }
  }

  /** When the listener is about to notify for a queue. */
  lemma ListenerNoticePcs(cfg: Config, s: State, a: Action, q: QueueId)
    requires |s.consumers| == |cfg.slots| && ListenerEnabled(s, a)
    ensures var after := ListenerStep(cfg, s, a).listener;
            && (s.listener == Notifying(q) ==> a.Notify? && after == Polling)
            && (after == Notifying(q) <==>
                  || (a.Push? && s.listener.q == q)
                  || (a.Pick? && q.Disconnected? && a.q == q && Full(cfg, At(s, q))))
  {
    hide At, Woken;
  }

  /** There is one notification for each event that was kept; only the last one may still be due. */
  lemma {:induction false} NoticesAreKept(cfg: Config, states: seq<State>, actions: seq<Action>, i: nat, name: Name)
    requires IsRun(cfg, states, actions) && i <= |actions|
    ensures Notices(states, actions, i, Named(name)) + Count(states[i].listener == Notifying(Named(name)))
         == |Kept(At(states[i], Named(name)).log)|
  {
    hide Step, Enabled, At, Kept;
    if i == 0 {
      NothingKeptYet(cfg, name);
    } else {
      NoticesAreKept(cfg, states, actions, i - 1, name);
      NoticeStep(cfg, states[i - 1], actions[i - 1], name);
    }
  }

  lemma NothingKeptYet(cfg: Config, name: Name)
    ensures Kept(At(Initial(cfg), Named(name)).log) == []
  {
  }

  /** The listener has picked a disconnection, and has not come to its notification yet. */
  predicate IsTelling(l: ListenerPc) {
    l == Notifying(Disconnected) || (l.Pushing? && l.q == Disconnected)
  }

  lemma TellingStep(cfg: Config, s: State, a: Action)
    requires |s.consumers| == |cfg.slots| && Enabled(cfg, s, a)
    ensures var t := Step(cfg, s, a);
            Count(a.Notify? && s.listener == Notifying(Disconnected)) + Count(IsTelling(t.listener))
            == Count(IsTelling(s.listener)) + Count(a.Pick? && a.q == Disconnected)
  {
    hide ConsumerEnabled, ConsumerStep, ListenerStep, UserStep;
    if OfConsumer(a) {
      ConsumersLeaveLogs(cfg, s, a, Disconnected);
    } else if OfListener(a) {
      ListenerTellingStep(cfg, s, a);
    } else {
      UsersLeaveLogs(cfg, s, a, 0);
    }
  }

  lemma ListenerTellingStep(cfg: Config, s: State, a: Action)
    requires |s.consumers| == |cfg.slots| && ListenerEnabled(s, a)
    ensures var after := ListenerStep(cfg, s, a).listener;
            Count(a.Notify? && s.listener == Notifying(Disconnected)) + Count(IsTelling(after))
            == Count(IsTelling(s.listener)) + Count(a.Pick? && a.q == Disconnected)
  {
    hide At, Logged, Woken, Full;
  }

  /** The listener notifies for each disconnection that it picks, for those that are lost too. */
  lemma {:induction false} NoticesArePicks(cfg: Config, states: seq<State>, actions: seq<Action>, i: nat)
    requires IsRun(cfg, states, actions) && i <= |actions|
    ensures Notices(states, actions, i, Disconnected) + Count(IsTelling(states[i].listener))
         == Picked(actions, i, Disconnected)
  {
    hide Step, Enabled;
    if i > 0 {
      NoticesArePicks(cfg, states, actions, i - 1);
      TellingStep(cfg, states[i - 1], actions[i - 1]);
    }
  }

  // ---------------------------------------------------------------------------
  // Passes and sleep
  // ---------------------------------------------------------------------------

  /** The notifications that reached consumer c. */
  function NoticesFor(cfg: Config, states: seq<State>, actions: seq<Action>, i: nat, c: nat): nat
    requires i <= |actions| <= |states| && c < |cfg.slots|
  {
    if i == 0 then 0
    else
      var s := states[i - 1];
      NoticesFor(cfg, states, actions, i - 1, c) +
      Count(actions[i - 1].Notify? && s.listener.Notifying? && IsNotified(cfg, c, s.listener.q))
  }

  function Wakeups(actions: seq<Action>, i: nat, c: nat): nat
    requires i <= |actions|
  {
    if i == 0 then 0 else Wakeups(actions, i - 1, c) + Count(actions[i - 1] == Wake(c))
  }

  lemma WakeStep(cfg: Config, s: State, a: Action, c: nat)
    requires |s.consumers| == |cfg.slots| && Enabled(cfg, s, a) && c < |cfg.slots|
    ensures var t := Step(cfg, s, a);
            Count(t.consumers[c].wake) + Count(a == Wake(c)) <=
            Count(s.consumers[c].wake) + Count(a.Notify? && s.listener.Notifying? && IsNotified(cfg, c, s.listener.q))
  {
    hide ConsumerEnabled, ConsumerStep, ListenerStep, UserStep, IsNotified;
    if OfConsumer(a) {
      ConsumerWakeStep(cfg, s, a, c);
    } else if OfListener(a) {
      ListenerWakeStep(cfg, s, a, c);
    } else {
      UserWakeStep(cfg, s, a, c);
    }
  }

  lemma ConsumerWakeStep(cfg: Config, s: State, a: Action, c: nat)
    requires |s.consumers| == |cfg.slots| && OfConsumer(a) && ConsumerEnabled(cfg, s, a) && c < |cfg.slots|
    ensures Count(ConsumerStep(cfg, s, a).consumers[c].wake) + Count(a == Wake(c)) <= Count(s.consumers[c].wake)
  {
    hide NextPc, NextQueues, At;
  }

  lemma ListenerWakeStep(cfg: Config, s: State, a: Action, c: nat)
    requires |s.consumers| == |cfg.slots| && ListenerEnabled(s, a) && c < |cfg.slots|
    ensures Count(ListenerStep(cfg, s, a).consumers[c].wake) <=
            Count(s.consumers[c].wake) + Count(a.Notify? && IsNotified(cfg, c, s.listener.q))
  {
    hide At, Logged, IsNotified;
  }

  lemma UserWakeStep(cfg: Config, s: State, a: Action, c: nat)
    requires UserEnabled(s, a) && c < |s.consumers|
    ensures UserStep(cfg, s, a).consumers[c].wake == s.consumers[c].wake
  {
    hide At, Logged;
  }

  /** A consumer wakes up for notifications only, and at most once for each. */
  lemma {:induction false} WakeupsAreNoticed(cfg: Config, states: seq<State>, actions: seq<Action>, i: nat, c: nat)
    requires IsRun(cfg, states, actions) && i <= |actions| && c < |cfg.slots|
    ensures |states[i].consumers| == |cfg.slots|
    ensures Wakeups(actions, i, c) + Count(states[i].consumers[c].wake) <= NoticesFor(cfg, states, actions, i, c)
  {
    hide Step, Enabled;
    if i > 0 {
      WakeupsAreNoticed(cfg, states, actions, i - 1, c);
      WakeStep(cfg, states[i - 1], actions[i - 1], c);
    }
  }

  /** A consumer goes to sleep only while it is to run; so no join waits for a time to run out more than once. */
  lemma SleepsOnlyWhileRunning(cfg: Config, states: seq<State>, actions: seq<Action>, i: nat, c: nat)
    requires IsRun(cfg, states, actions) && i < |actions| && c < |cfg.slots|
    ensures |states[i].consumers| == |states[i + 1].consumers| == |cfg.slots|
    ensures !states[i].consumers[c].pc.Waiting? && states[i + 1].consumers[c].pc.Waiting? ==>
              states[i].consumers[c].running
  {
    var s, a := states[i], actions[i];
    hide ConsumerEnabled, NextQueues, At, Logged;
    if !OfConsumer(a) {
      OthersLeavePcs(cfg, s, a, c);
    }
  }

  /** A sleep ends with a pass if a wakeup is due, which is then used up, and else with a test of m_running. */
  lemma SleepEnds(cfg: Config, states: seq<State>, actions: seq<Action>, i: nat, c: nat)
    requires IsRun(cfg, states, actions) && i < |actions| && c < |cfg.slots|
    ensures |states[i].consumers| == |states[i + 1].consumers| == |cfg.slots|
    ensures var before, after := states[i].consumers[c], states[i + 1].consumers[c];
            before.pc.Waiting? && !after.pc.Waiting? ==>
              if before.wake then after.pc.Pass? && !after.wake else after.pc.Testing?
  {
    var s, a := states[i], actions[i];
    hide NextQueues, At, Logged;
    if !OfConsumer(a) {
      OthersLeavePcs(cfg, s, a, c);
    }
  }

  // ---------------------------------------------------------------------------
  // Disconnections
  // ---------------------------------------------------------------------------

  /** The disconnection that comes up in a step. */
  function Offer(a: Action): multiset<Item> {
    if (a.Pick? && a.q == Disconnected) || a.CloseOne? || a.UserDisconnect? then multiset{a.item} else multiset{}
  }

  /** The disconnections that came up in the first i steps: from the listener, and from threads of the program. */
  function Offered(actions: seq<Action>, i: nat): multiset<Item>
    requires i <= |actions|
  {
    if i == 0 then multiset{}
    else
      Offered(actions, i - 1) + Offer(actions[i - 1])
  }

  /** The disconnections that are about to be pushed. */
  function Due(s: State): multiset<Item> {
    s.telling + if IsAdding(s.listener, Disconnected) then multiset{s.listener.item} else multiset{}
  }

  /** All of them were kept, or reported lost, or are about to be pushed. */
  ghost predicate Accounted(s: State, offered: multiset<Item>) {
    multiset(Items(At(s, Disconnected).log)) + Due(s) == offered
  }

  lemma OneMoreItem(log: seq<Entry>, e: Entry)
    ensures multiset(Items(log + [e])) == multiset(Items(log)) + multiset{e.item}
  {
    ItemsAppend(log, e);
    hide Items;
  }

  lemma DisconnectionStep(cfg: Config, s: State, a: Action, offered: multiset<Item>)
    requires |s.consumers| == |cfg.slots| && Enabled(cfg, s, a) && Accounted(s, offered)
    ensures Accounted(Step(cfg, s, a), offered + Offer(a))
  {
    hide ConsumerEnabled, ConsumerStep, ListenerStep, UserStep, At, Items;
    if OfConsumer(a) {
      ConsumersLeaveLogs(cfg, s, a, Disconnected);
    } else if OfListener(a) {
      ListenerDisconnections(cfg, s, a, offered);
    } else {
      UserDisconnections(cfg, s, a, offered);
    }
  }

  lemma UserDisconnections(cfg: Config, s: State, a: Action, offered: multiset<Item>)
    requires UserEnabled(s, a) && Accounted(s, offered)
    ensures Accounted(UserStep(cfg, s, a), offered + Offer(a))
  {
    hide Items, UserStep, At;
    UserLogs(cfg, s, a);
    if a.UserDisconnect? || a.PushTold? {
      OneMoreItem(At(s, Disconnected).log, Entry(a.item, a.PushTold?));
    }
  }

  lemma UserLogs(cfg: Config, s: State, a: Action)
    requires UserEnabled(s, a)
    ensures var t := UserStep(cfg, s, a);
            var log, after := At(s, Disconnected).log, At(t, Disconnected).log;
            && t.listener == s.listener
            && if a.PushTold? then
                 && a.item in s.telling && t.telling == s.telling - multiset{a.item}
                 && after == log + [Entry(a.item, true)]
               else if a.UserDisconnect? then
                 || (t.telling == s.telling && after == log + [Entry(a.item, false)])
                 || (t.telling == s.telling + multiset{a.item} && after == log)
               else t.telling == s.telling && after == log
  {
    hide Full;
  }

  lemma ListenerDisconnections(cfg: Config, s: State, a: Action, offered: multiset<Item>)
    requires |s.consumers| == |cfg.slots| && ListenerEnabled(s, a) && Accounted(s, offered)
    ensures Accounted(ListenerStep(cfg, s, a), offered + Offer(a))
  {
    hide Items, ListenerStep, At;
    var log := At(s, Disconnected).log;
    if a.Pick? || a.CloseOne? {
      LookLogs(cfg, s, a);
      OneMoreItem(log, Entry(a.item, false));
    } else if a.Push? || a.PushClosed? {
      PushingLogs(cfg, s, a);
      OneMoreItem(log, Entry(s.listener.item, true));
    } else {
      QuietListener(cfg, s, a);
    }
  }

  /** The disconnection is reported lost, or about to be pushed. */
  ghost predicate Looked(s: State, t: State, item: Item) {
    var log, after := At(s, Disconnected).log, At(t, Disconnected).log;
    && t.telling == s.telling && !IsAdding(s.listener, Disconnected)
    && if IsAdding(t.listener, Disconnected) then after == log && t.listener.item == item
       else after == log + [Entry(item, false)]
  }

  lemma LookLogs(cfg: Config, s: State, a: Action)
    requires |s.consumers| == |cfg.slots| && ListenerEnabled(s, a) && (a.Pick? || a.CloseOne?)
    ensures var t := ListenerStep(cfg, s, a);
            if a.Pick? && a.q != Disconnected then
              && t.telling == s.telling && At(t, Disconnected) == At(s, Disconnected)
              && !IsAdding(s.listener, Disconnected) && !IsAdding(t.listener, Disconnected)
            else Looked(s, t, a.item)
  {
    hide Full;
    if a.Pick? && a.q == Disconnected {
      PickLooks(cfg, s, a.item);
    } else if a.CloseOne? {
      CloseLooks(cfg, s, a.item);
    }
    hide Looked;
  }

  lemma PickLooks(cfg: Config, s: State, item: Item)
    requires |s.consumers| == |cfg.slots| && ListenerEnabled(s, Pick(Disconnected, item))
    ensures Looked(s, ListenerStep(cfg, s, Pick(Disconnected, item)), item)
  {
    hide Full;
  }

  lemma CloseLooks(cfg: Config, s: State, item: Item)
    requires |s.consumers| == |cfg.slots| && ListenerEnabled(s, CloseOne(item))
    ensures Looked(s, ListenerStep(cfg, s, CloseOne(item)), item)
  {
    hide Full;
  }

  lemma PushingLogs(cfg: Config, s: State, a: Action)
    requires |s.consumers| == |cfg.slots| && ListenerEnabled(s, a) && (a.Push? || a.PushClosed?)
    ensures var t := ListenerStep(cfg, s, a);
            && t.telling == s.telling && !IsAdding(t.listener, Disconnected)
            && var log, after := At(s, Disconnected).log, At(t, Disconnected).log;
            if IsAdding(s.listener, Disconnected) then after == log + [Entry(s.listener.item, true)] else after == log
  {
  }

  lemma QuietListener(cfg: Config, s: State, a: Action)
    requires |s.consumers| == |cfg.slots| && ListenerEnabled(s, a) && !IsLogging(a)
    ensures var t := ListenerStep(cfg, s, a);
            && t.telling == s.telling && At(t, Disconnected) == At(s, Disconnected)
            && !IsAdding(s.listener, Disconnected) && !IsAdding(t.listener, Disconnected)
  {
    hide Woken;
  }

  /** No disconnection gets lost without a report. */
  lemma {:induction false} DisconnectionsAreAccounted(cfg: Config, states: seq<State>, actions: seq<Action>, i: nat)
    requires IsRun(cfg, states, actions) && i <= |actions|
    ensures Accounted(states[i], Offered(actions, i))
  {
    hide Step, Enabled, Accounted;
    if i == 0 {
      NothingOffered(cfg);
    } else {
      DisconnectionsAreAccounted(cfg, states, actions, i - 1);
      DisconnectionStep(cfg, states[i - 1], actions[i - 1], Offered(actions, i - 1));
    }
  }

  lemma NothingOffered(cfg: Config)
    ensures Accounted(Initial(cfg), multiset{})
  {
  }
}
