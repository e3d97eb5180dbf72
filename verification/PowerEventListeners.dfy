/**
 Listeners of the power event queue: who is called for which settled event. Every settled event
 is announced to the listeners registered for all triggers and then to those of one trigger
 type, its route: its own trigger type when it is rejected, the trigger type of the head of the
 queue when it is processed.
 */
module PowerEventListeners {
  import opened Common
  import opened PowerEventModel
  import opened PowerEventProofs

  type Listener = nat
  type ListenerTable = map<TriggerType, seq<Listener>>

  datatype Notification = Notification(listener: Listener, about: Settlement)

  function At(table: ListenerTable, trigger: TriggerType): seq<Listener> {
    if trigger in table then table[trigger] else []
  }

  function ToEach(listeners: seq<Listener>, t: Settlement): seq<Notification> {
    seq(|listeners|, i requires 0 <= i < |listeners| => Notification(listeners[i], t))
  }

  function Deliver(t: Settlement, table: ListenerTable): seq<Notification> {
    ToEach(At(table, AnyTrigger), t) + ToEach(At(table, t.route), t)
  }

  function Deliveries(ts: seq<Settlement>, table: ListenerTable): seq<Notification> {
    if ts == [] then [] else Deliveries(ts[..|ts| - 1], table) + Deliver(Last(ts), table)
  }

  lemma {:induction false} DeliveriesConcat(a: seq<Settlement>, b: seq<Settlement>, table: ListenerTable)
    ensures Deliveries(a + b, table) == Deliveries(a, table) + Deliveries(b, table)
  {
    if b == [] {
      assert a + b == a;
    } else {
      var front := b[..|b| - 1];
      assert (a + b)[..|a + b| - 1] == a + front && Last(a + b) == Last(b);
      DeliveriesConcat(a, front, table);
      hide Deliver;
      assert Deliveries(a + b, table) == Deliveries(a + front, table) + Deliver(Last(b), table);
    }
  }

  /** How often `listener` was called about `event`. */
  function Heard(notes: seq<Notification>, listener: Listener, event: EventInfo): nat {
    if notes == [] then 0
    else Heard(notes[..|notes| - 1], listener, event)
         + if Last(notes).listener == listener && Last(notes).about.event == event then 1 else 0
  }

  function Registrations(listeners: seq<Listener>, listener: Listener): nat {
    if listeners == [] then 0
    else Registrations(listeners[..|listeners| - 1], listener) + if Last(listeners) == listener then 1 else 0
  }

  lemma {:induction false} HeardConcat(a: seq<Notification>, b: seq<Notification>, listener: Listener, event: EventInfo)
    ensures Heard(a + b, listener, event) == Heard(a, listener, event) + Heard(b, listener, event)
  {
    if b == [] {
      assert a + b == a;
    } else {
      assert (a + b)[..|a + b| - 1] == a + b[..|b| - 1];
      HeardConcat(a, b[..|b| - 1], listener, event);
    }
  }

  lemma {:induction false} HeardToEach(listeners: seq<Listener>, t: Settlement, listener: Listener, event: EventInfo)
    ensures Heard(ToEach(listeners, t), listener, event)
         == if t.event == event then Registrations(listeners, listener) else 0
  {
    if listeners == [] {
    } else {
      var front := listeners[..|listeners| - 1];
      assert ToEach(listeners, t)[..|listeners| - 1] == ToEach(front, t);
      HeardToEach(front, t, listener, event);
    }
  }

  /** A listener hears of a settled event once per registration for all triggers and once per registration for its route. */
  lemma {:induction false} HeardPerSettlement(ts: seq<Settlement>, table: ListenerTable, listener: Listener, k: nat)
    requires DistinctEvents(ts) && k < |ts|
    ensures Heard(Deliveries(ts, table), listener, ts[k].event)
         == Registrations(At(table, AnyTrigger), listener) + Registrations(At(table, ts[k].route), listener)
  {
    var event := ts[k].event;
    var front := ts[..|ts| - 1];
    HeardConcat(Deliveries(front, table), Deliver(Last(ts), table), listener, event);
    HeardConcat(ToEach(At(table, AnyTrigger), Last(ts)), ToEach(At(table, Last(ts).route), Last(ts)), listener, event);
    HeardToEach(At(table, AnyTrigger), Last(ts), listener, event);
    HeardToEach(At(table, Last(ts).route), Last(ts), listener, event);
    if k < |ts| - 1 {
      HeardPerSettlement(front, table, listener, k);
    } else {
      UnsettledIsUnheard(front, table, listener, event);
    }
  }

  lemma {:induction false} UnsettledIsUnheard(ts: seq<Settlement>, table: ListenerTable, listener: Listener, event: EventInfo)
    requires forall i :: 0 <= i < |ts| ==> ts[i].event != event
    ensures Heard(Deliveries(ts, table), listener, event) == 0
  {
    if ts == [] {
    } else {
      var front := ts[..|ts| - 1];
      UnsettledIsUnheard(front, table, listener, event);
      HeardConcat(Deliveries(front, table), Deliver(Last(ts), table), listener, event);
      HeardConcat(ToEach(At(table, AnyTrigger), Last(ts)), ToEach(At(table, Last(ts).route), Last(ts)), listener, event);
      HeardToEach(At(table, AnyTrigger), Last(ts), listener, event);
      HeardToEach(At(table, Last(ts).route), Last(ts), listener, event);
    }
  }

  // ---- What a listener is told ----

  /** Every call is about one of the settlements, as it was made. */
  lemma {:induction false} ToldOnlySettled(ts: seq<Settlement>, table: ListenerTable, i: nat)
    requires i < |Deliveries(ts, table)|
    ensures Deliveries(ts, table)[i].about in ts
  {
    var front := ts[..|ts| - 1];
    if i < |Deliveries(front, table)| {
      ToldOnlySettled(front, table, i);
      assert forall t :: t in front ==> t in ts;
    } else {
      var call := Deliver(Last(ts), table)[i - |Deliveries(front, table)|];
      assert call.about == Last(ts);
    }
  }

  /** The calls about one settlement: the listeners for all triggers in the order of registration, then those of its route. */
  ghost predicate ToldAt(notes: seq<Notification>, p: nat, t: Settlement, table: ListenerTable) {
    var all, routed := At(table, AnyTrigger), At(table, t.route);
    && p + |all| + |routed| <= |notes|
    && (forall i :: 0 <= i < |all| ==> notes[p + i] == Notification(all[i], t))
    && (forall i :: 0 <= i < |routed| ==> notes[p + |all| + i] == Notification(routed[i], t))
  }

  /** Where the calls about the k-th settlement begin. */
  function Calls(ts: seq<Settlement>, table: ListenerTable): nat {
    if ts == [] then 0
    else Calls(ts[..|ts| - 1], table) + |At(table, AnyTrigger)| + |At(table, Last(ts).route)|
  }

  lemma ToldLast(notes: seq<Notification>, t: Settlement, table: ListenerTable)
    ensures ToldAt(notes + Deliver(t, table), |notes|, t, table)
    ensures |Deliver(t, table)| == |At(table, AnyTrigger)| + |At(table, t.route)|
  {
  }

  lemma ToldBefore(notes: seq<Notification>, more: seq<Notification>, p: nat, t: Settlement, table: ListenerTable)
    requires ToldAt(notes, p, t, table)
    ensures ToldAt(notes + more, p, t, table)
  {
  }

  lemma {:induction false} CallsMade(ts: seq<Settlement>, table: ListenerTable)
    ensures |Deliveries(ts, table)| == Calls(ts, table)
  {
    if ts == [] {
    } else {
      CallsMade(ts[..|ts| - 1], table);
    }
  }

  /** Settlements are announced one after the other, each to the listeners for all triggers first. */
  lemma {:induction false} ToldInOrder(ts: seq<Settlement>, table: ListenerTable, k: nat)
    requires k < |ts|
    ensures ToldAt(Deliveries(ts, table), Calls(ts[..k], table), ts[k], table)
  {
    var front := ts[..|ts| - 1];
    hide ToldAt, Deliver;
    if k == |ts| - 1 {
      CallsMade(front, table);
      ToldLast(Deliveries(front, table), Last(ts), table);
    } else {
      ToldInOrder(front, table, k);
      assert front[..k] == ts[..k];
      ToldBefore(Deliveries(front, table), Deliver(Last(ts), table), Calls(ts[..k], table), ts[k], table);
    }
  }

  /** In every run each call about a settled event tells its settlement: the final status, and whether it was processed and successful. */
  lemma ToldAsSettled(states: seq<Scheduler>, steps: seq<Step>, m: nat, table: ListenerTable, i: nat, k: nat)
    requires IsRun(states, steps) && m < |states| && k < |states[m].settled|
    requires i < |Deliveries(states[m].settled, table)|
    requires Deliveries(states[m].settled, table)[i].about.event == states[m].settled[k].event
    ensures Deliveries(states[m].settled, table)[i].about == states[m].settled[k]
  {
    Conservation(states, steps, m);
    ToldOnlySettled(states[m].settled, table, i);
  }

  // ---- Which route an event takes ----

  lemma ProcessRoute(s: Scheduler, status: EventStatus, i: nat)
    requires |s.settled| <= i < |ProcessHead(s, status).settled|
    ensures s.queue != []
    ensures var t := ProcessHead(s, status).settled[i];
            t.outcome.Processed? && t.route == s.queue[0].trigger
  {
  }

  lemma PushRoute(s: Scheduler, e: EventInfo, machines: Option<seq<string>>, serviceUp: bool, i: nat)
    requires |s.settled| <= i < |ApplyPush(s, e, machines, serviceUp).settled|
    ensures var t := ApplyPush(s, e, machines, serviceUp).settled[i];
            t.outcome.Rejected? && t.route == t.event.trigger
  {
  }

  /** The trigger type under which a step announces an event, known before the step is taken. */
  function RouteOf(s: Scheduler, step: Step, e: EventInfo): TriggerType
    requires !step.Push? ==> s.queue != []
  {
    if step.Push? then e.trigger else s.queue[0].trigger
  }

  /** An event rejected by a push is announced under its own trigger type, one processed by a completion under the head's. */
  lemma RouteExactly(states: seq<Scheduler>, steps: seq<Step>, n: nat, i: nat)
    requires IsRun(states, steps) && n < |steps| && |states[n].settled| <= i < |states[n + 1].settled|
    ensures !steps[n].Push? ==> states[n].queue != []
    ensures var t := states[n + 1].settled[i];
            (t.outcome.Rejected? <==> steps[n].Push?) && t.route == RouteOf(states[n], steps[n], t.event)
  {
    var s := states[n];
    match steps[n]
    case Push(e, machines, serviceUp) => PushRoute(s, e, machines, serviceUp, i);
    case CommandFailed(c) => ProcessRoute(Retire(s, c), Failed, i);
    case CommandOk(c) => ProcessRoute(Retire(s, c), Succeed, i);
    case SlaveAck(c, report) => ProcessRoute(Retire(s, c), ReportStatus(report), i);
  }

  /**
   A listener registered once, for all triggers, hears of an event settled by step n exactly once if
   and only if the step announces it under a specific trigger type: for a push the event's own, for a
   completion that of the head of the queue. So it does when no event was pushed with the unknown one.
   */
  lemma CatchAllHearsOnce(states: seq<Scheduler>, steps: seq<Step>, n: nat, i: nat, m: nat, table: ListenerTable, listener: Listener)
    requires IsRun(states, steps) && n < m < |states| && |states[n].settled| <= i < |states[n + 1].settled|
    requires Registrations(At(table, AnyTrigger), listener) == 1
    requires forall trigger :: trigger != AnyTrigger ==> Registrations(At(table, trigger), listener) == 0
    ensures !steps[n].Push? ==> states[n].queue != []
    ensures var e := states[n + 1].settled[i].event;
            var calls := Heard(Deliveries(states[m].settled, table), listener, e);
            && (calls == 1 <==> RouteOf(states[n], steps[n], e) != AnyTrigger)
            && ((forall x :: x in states[m].pushed ==> x.trigger != AnyTrigger) ==> calls == 1)
  {
    HeardOnRoute(states, steps, n, i, m, table, listener);
    SettledByPushed(states, steps, n, i, m);
  }

  /** A listener registered once, for one trigger type, hears of an event iff the step announces it under that type. */
  lemma SpecificListenerHears(states: seq<Scheduler>, steps: seq<Step>, n: nat, i: nat, m: nat,
                              table: ListenerTable, listener: Listener, trigger: TriggerType)
    requires IsRun(states, steps) && n < m < |states| && |states[n].settled| <= i < |states[n + 1].settled|
    requires trigger != AnyTrigger && Registrations(At(table, trigger), listener) == 1
    requires forall t :: t != trigger ==> Registrations(At(table, t), listener) == 0
    ensures !steps[n].Push? ==> states[n].queue != []
    ensures var e := states[n + 1].settled[i].event;
            Heard(Deliveries(states[m].settled, table), listener, e) == if RouteOf(states[n], steps[n], e) == trigger then 1 else 0
  {
    HeardOnRoute(states, steps, n, i, m, table, listener);
  }

  lemma HeardOnRoute(states: seq<Scheduler>, steps: seq<Step>, n: nat, i: nat, m: nat, table: ListenerTable, listener: Listener)
    requires IsRun(states, steps) && n < m < |states| && |states[n].settled| <= i < |states[n + 1].settled|
    ensures !steps[n].Push? ==> states[n].queue != []
    ensures var e := states[n + 1].settled[i].event;
            Heard(Deliveries(states[m].settled, table), listener, e)
              == Registrations(At(table, AnyTrigger), listener)
                 + Registrations(At(table, RouteOf(states[n], steps[n], e)), listener)
  {
    hide Apply, ControlInv, Ledger;
    RouteExactly(states, steps, n, i);
    SettledForGood(states, steps, n + 1, m);
    Conservation(states, steps, m);
    HeardPerSettlement(states[m].settled, table, listener, i);
  }

  /** The event that is settled and the head of the queue were both pushed. */
  lemma SettledByPushed(states: seq<Scheduler>, steps: seq<Step>, n: nat, i: nat, m: nat)
    requires IsRun(states, steps) && n < m < |states| && |states[n].settled| <= i < |states[n + 1].settled|
    ensures states[n + 1].settled[i].event in states[m].pushed
    ensures states[n].queue != [] ==> states[n].queue[0] in states[m].pushed
  {
    hide Apply, Block, ControlInv;
    RunKeepsInvariants(states, steps, n);
    RunKeepsInvariants(states, steps, n + 1);
    var s, s' := states[n], states[n + 1];
    QueuedIsNotSettled(s.pushed, s.queue, s.settled, s.status);
    QueuedIsNotSettled(s'.pushed, s'.queue, s'.settled, s'.status);
    PushedForGood(states, steps, n, m);
    PushedForGood(states, steps, n + 1, m);
    assert s.queue != [] ==> s.queue[0] in s.queue && s.queue[0] in s.pushed;
  }

  lemma PushedGrows(s: Scheduler, step: Step)
    requires Enabled(s, step)
    ensures s.pushed <= Apply(s, step).pushed
  {
  }

  lemma {:induction false} PushedForGood(states: seq<Scheduler>, steps: seq<Step>, n: nat, m: nat)
    requires IsRun(states, steps) && n <= m < |states|
    ensures states[n].pushed <= states[m].pushed
  {
    hide Apply, Enabled;
    if n == m {
    } else {
      PushedForGood(states, steps, n, m - 1);
      PushedGrows(states[m - 1], steps[m - 1]);
    }
  }

  /**
   An SMS event queued behind an equal request of unknown trigger type is processed with it and
   announced twice to a catch-all listener, although its own trigger type is specific.
   */
  lemma SpecificEventHeardTwice(listener: Listener)
    ensures exists states, steps, k :: IsRun(states, steps) && 0 <= k < |Last(states).settled|
              && Last(states).settled[k].event.trigger == Sms
              && Heard(Deliveries(Last(states).settled, map[AnyTrigger := [listener]]), listener, Last(states).settled[k].event) == 2
  {
    var first := EventInfo(1, Suspend, ALL_MACHINES, AnyTrigger);
    var second := EventInfo(2, Suspend, ALL_MACHINES, Sms);
    var states, steps := BatchedRun(first, second);
    Conservation(states, steps, 4);
    assert Registrations([listener], listener) == 1;
    HeardPerSettlement(states[4].settled, map[AnyTrigger := [listener]], listener, 1);
    assert Last(states) == states[4] && Last(states).settled[1].event == second;
  }

  /** Two equal SUSPEND requests, processed together on one acknowledgement. */
  lemma BatchedRun(first: EventInfo, second: EventInfo) returns (states: seq<Scheduler>, steps: seq<Step>)
    requires first != second && first.state == second.state == Suspend
    ensures IsRun(states, steps) && |states| == 5
    ensures states[4].settled == SettleAs([first, second], Succeed, Processed(true), first.trigger)
  {
    hide ApplyPush, ProcessHead;
    steps := [Push(first, None, true), Push(second, None, true), CommandOk(0), SlaveAck(0, AckSuccess)];
    var s1 := Scheduler([first], map[first := Initialized], [Command(first, false)], true, [first], [first], [Suspend], []);
    assert s1 == ApplyPush(EMPTY, first, None, true) by { FirstPush(first); }
    var s2 := s1.(queue := [first, second], status := s1.status[second := InQueue],
                  pushed := s1.pushed + [second], accepted := s1.accepted + [second]);
    assert s2 == ApplyPush(s1, second, None, true) by { SecondPush(first, second, s1); }
    var s3 := s2.(inFlight := s2.inFlight[0 := Command(first, true)], status := s2.status[first := InProgress]);
    assert Retire(s3, 0).settled == [];
    BothProcessed(Retire(s3, 0), first, second);
    states := [EMPTY, s1, s2, s3, ProcessHead(Retire(s3, 0), Succeed)];
  }

  lemma FirstPush(first: EventInfo)
    ensures ApplyPush(EMPTY, first, None, true)
         == Scheduler([first], map[first := Initialized], [Command(first, false)], true, [first], [first], [first.state], [])
  {
  }

  lemma BothProcessed(s: Scheduler, first: EventInfo, second: EventInfo)
    requires s.queue == [first, second] && first.state == second.state && s.settled == []
    ensures ProcessHead(s, Succeed).settled == SettleAs([first, second], Succeed, Processed(true), first.trigger)
  {
    BlockOfPrefix([first, second], first.state, 2);
    assert [first, second][..2] == [first, second];
  }

  lemma SecondPush(first: EventInfo, second: EventInfo, s: Scheduler)
    requires first != second && first.state == second.state && s.queue == [first] && s.settled == []
    ensures ApplyPush(s, second, None, true)
         == s.(queue := [first, second], status := s.status[second := InQueue],
               pushed := s.pushed + [second], accepted := s.accepted + [second])
  {
    KeptSplit([first], 1, first.state, first.state);
    assert RejectAll([], RejectedOverridden) == [];
    assert MarkAll(s.status[second := Initialized], [], RejectedOverridden) == s.status[second := Initialized];
  }
}
