/** The power event queue as the daemon keeps it: event objects, a queue and a listener table. */
module PowerEventManager {
  import opened Common
  import opened PowerEventModel
  import opened PowerEventProofs
  import opened PowerEventListeners

  class Event {
    const id: nat
    const triggeredState: TcuActivityState
    const machineName: string
    const triggerType: TriggerType
    var status: EventStatus

    constructor (id: nat, triggeredState: TcuActivityState, machineName: string, triggerType: TriggerType)
      ensures Info() == EventInfo(id, triggeredState, machineName, triggerType) && status == Initialized
    {
      this.id, this.triggeredState, this.machineName, this.triggerType := id, triggeredState, machineName, triggerType;
      status := Initialized;
    }

    function Info(): EventInfo {
      EventInfo(id, triggeredState, machineName, triggerType)
    }
  }

  const UINT64 := 0x1_0000_0000_0000_0000

  /** Hands out event ids, counting up from one and around at 64 bits. */
  class EventSource {
    var nextId: nat

    ghost predicate Valid()
      reads this
    {
      nextId < UINT64
    }

    constructor ()
      ensures Valid() && nextId == 0
    {
      nextId := 0;
    }

    method NewEvent(triggeredState: TcuActivityState, machineName: string, triggerType: TriggerType) returns (e: Event)
      requires Valid()
      modifies this
      ensures Valid() && fresh(e) && e.id == nextId == (old(nextId) + 1) % UINT64
      ensures e.Info() == EventInfo(nextId, triggeredState, machineName, triggerType) && e.status == Initialized
    {
      nextId := if nextId + 1 == UINT64 then 0 else nextId + 1;
      e := new Event(nextId, triggeredState, machineName, triggerType);
    }
  }

  datatype Pending = Pending(event: Event, awaitingAck: bool)

  class EventManager {
    var eventQueue: seq<Event>
    var listeners: ListenerTable
    var wakeLock: bool
    var inFlight: seq<Pending>        // commands handed to the TCU-activity manager
    var heard: seq<Notification>      // calls made to listeners, in order
    ghost var model: Scheduler
    ghost var handle: map<EventInfo, Event>   // the object of every event pushed so far
    ghost var known: set<Event>
    ghost var since: nat                      // settlements before the last registration of a listener
    ghost var before: seq<Notification>       // and the calls made until then

    /** What listeners heard since the last registration is what the settlements since then call for. */
    ghost predicate Announced()
      reads this`since, this`before, this`heard, this`listeners, this`model
    {
      since <= |model.settled| && heard == before + Deliveries(model.settled[since..], listeners)
    }

    /** Since a moment with these calls and settlements, exactly the new settlements were announced. */
    ghost predicate Told(calls: seq<Notification>, settled: seq<Settlement>)
      reads this`heard, this`listeners, this`model
    {
      settled <= model.settled && heard == calls + Deliveries(model.settled[|settled|..], listeners)
    }

    ghost predicate Handles()
      reads this`handle, this`known
    {
      forall k :: k in handle ==> handle[k] in known && handle[k].Info() == k
    }

    ghost predicate StatusesAre(m: Statuses)
      requires Handles()
      reads this`handle, this`known, known`status
    {
      forall k :: k in handle ==> k in m && handle[k].status == m[k]
    }

    ghost predicate Queued(q: seq<EventInfo>)
      reads this`handle, this`eventQueue
    {
      |eventQueue| == |q| && forall i :: 0 <= i < |q| ==> q[i] in handle && eventQueue[i] == handle[q[i]]
    }

    ghost predicate Sent(commands: seq<Command>)
      reads this`handle, this`inFlight
    {
      |inFlight| == |commands| && forall i :: 0 <= i < |commands| ==>
        commands[i].event in handle && inFlight[i] == Pending(handle[commands[i].event], commands[i].awaitingAck)
    }

    /** The fields agree with the model. */
    ghost predicate Synced()
      reads this, known
    {
      && Handles() && StatusesAre(model.status) && Queued(model.queue) && Sent(model.inFlight)
      && wakeLock == model.wakeLock
      && handle.Keys == (set e | e in model.pushed)
      && Announced()
    }

    ghost predicate Valid()
      reads this, known
    {
      Synced() && ControlInv(model) && Ledger(model)
    }

    constructor ()
      ensures Valid() && model == EMPTY && known == {} && heard == [] && listeners == map[]
    {
      eventQueue, listeners, wakeLock, inFlight, heard := [], map[], false, [], [];
      model, known, handle := EMPTY, {}, map[];
      since, before := 0, [];
    }

    method AddListener(listener: Listener, trigger: TriggerType)
      modifies this`listeners
      ensures forall t :: At(listeners, t) == At(old(listeners), t) + if t == trigger then [listener] else []
    {
      if trigger !in listeners {
        listeners := listeners[trigger := [listener]];
      } else {
        listeners := listeners[trigger := listeners[trigger] + [listener]];
      }
    }

    method RegisterListener(listener: Listener, trigger: TriggerType)
      requires Valid()
      modifies this`listeners, this`since, this`before
      ensures Valid() && since == |model.settled| && before == heard
      ensures forall t :: At(listeners, t) == At(old(listeners), t) + if t == trigger then [listener] else []
    {
      hide At, Handles, StatusesAre, Queued, Sent, Books, ControlInv;
      AddListener(listener, trigger);
      since, before := |model.settled|, heard;
      assert model.settled[since..] == [] && Deliveries([], listeners) == [] && before + [] == before;
    }

    /** What the object recorded since the last registration: each event settled since then, once per registration. */
    lemma HeardSinceRegistration(listener: Listener, k: nat)
      requires Valid() && since <= k < |model.settled|
      ensures |before| <= |heard|
      ensures Heard(heard[|before|..], listener, model.settled[k].event)
           == Registrations(At(listeners, AnyTrigger), listener) + Registrations(At(listeners, model.settled[k].route), listener)
    {
      var recent := model.settled[since..];
      SettledOnce(model.pushed, model.queue, model.settled, model.status);
      assert DistinctEvents(recent) && recent[k - since] == model.settled[k];
      assert heard[|before|..] == Deliveries(recent, listeners);
      HeardPerSettlement(recent, listeners, listener, k - since);
    }

    /** Each call made since the last registration tells a settlement made since, with its status and outcome. */
    lemma HeardAsSettled(i: nat)
      requires Valid() && |before| <= i < |heard|
      ensures exists k :: since <= k < |model.settled| && heard[i].about == model.settled[k]
      ensures forall k :: 0 <= k < |model.settled| && heard[i].about.event == model.settled[k].event
                          ==> heard[i].about == model.settled[k]
    {
      var recent := model.settled[since..];
      ToldOnlySettled(recent, listeners, i - |before|);
      var j :| 0 <= j < |recent| && recent[j] == heard[i].about;
      assert model.settled[since + j] == heard[i].about;
      SettledOnce(model.pushed, model.queue, model.settled, model.status);
    }

    /** More settlements, and the calls they make, appended to what was there. */
    static lemma AnnouncedMore(before: seq<Notification>, old': seq<Settlement>, new': seq<Settlement>, since: nat, table: ListenerTable)
      requires since <= |old'| && old' <= new'
      ensures before + Deliveries(old'[since..], table) + Deliveries(new'[|old'|..], table) == before + Deliveries(new'[since..], table)
    {
      assert new'[since..] == old'[since..] + new'[|old'|..];
      DeliveriesConcat(old'[since..], new'[|old'|..], table);
      hide Deliveries;
      var a, b := Deliveries(old'[since..], table), Deliveries(new'[|old'|..], table);
      assert before + a + b == before + (a + b);
    }

    method Notify(who: seq<Listener>, t: Settlement)
      modifies this`heard
      ensures heard == old(heard) + ToEach(who, t)
    {
      var i := 0;
      while i < |who|
        invariant 0 <= i <= |who|
        invariant heard == old(heard) + ToEach(who, t)[..i]
      {
        heard := heard + [Notification(who[i], t)];
        i := i + 1;
      }
    }

    method NotifyOnEventRejected(event: Event, status: EventStatus, ghost m: Statuses)
      requires Handles() && StatusesAre(m) && event.Info() in handle && handle[event.Info()] == event
      modifies this`heard, event`status
      ensures StatusesAre(m[event.Info() := status])
      ensures heard == old(heard) + Deliver(Settlement(event.Info(), status, Rejected, event.triggerType), listeners)
    {
      event.status := status;
      var t := Settlement(event.Info(), status, Rejected, event.triggerType);
      Notify(At(listeners, AnyTrigger), t);
      Notify(At(listeners, event.triggerType), t);
    }

    method NotifyOnEventProcessed(event: Event, trigger: TriggerType, succeed: bool, status: EventStatus, ghost m: Statuses)
      requires Handles() && StatusesAre(m) && event.Info() in handle && handle[event.Info()] == event
      modifies this`heard, event`status
      ensures StatusesAre(m[event.Info() := status])
      ensures heard == old(heard) + Deliver(Settlement(event.Info(), status, Processed(succeed), trigger), listeners)
    {
      event.status := status;
      var t := Settlement(event.Info(), status, Processed(succeed), trigger);
      Notify(At(listeners, AnyTrigger), t);
      Notify(At(listeners, trigger), t);
    }

    static lemma MarkSnoc(m: Statuses, q: seq<EventInfo>, e: EventInfo, status: EventStatus)
      ensures MarkAll(m, q + [e], status) == MarkAll(m, q, status)[e := status]
    {
    }

    static lemma DeliverSnoc(ts: seq<Settlement>, t: Settlement, table: ListenerTable, before: seq<Notification>)
      ensures before + Deliveries(ts + [t], table) == before + Deliveries(ts, table) + Deliver(t, table)
    {
      assert (ts + [t])[..|ts|] == ts;
      assert before + (Deliveries(ts, table) + Deliver(t, table)) == before + Deliveries(ts, table) + Deliver(t, table);
    }

    /** Settling one more event of a queue prefix: what it adds to the statuses and to the calls. */
    static lemma SettleSnoc(q: seq<EventInfo>, i: nat, trigger: TriggerType, outcome: Outcome, status: EventStatus,
                            table: ListenerTable, m: Statuses, before: seq<Notification>)
      requires i < |q|
      ensures before + Deliveries(SettleAs(q[..i + 1], status, outcome, trigger), table)
           == before + Deliveries(SettleAs(q[..i], status, outcome, trigger), table)
              + Deliver(Settlement(q[i], status, outcome, trigger), table)
      ensures MarkAll(m, q[..i + 1], status) == MarkAll(m, q[..i], status)[q[i] := status]
    {
      assert q[..i + 1] == q[..i] + [q[i]];
      var t := Settlement(q[i], status, outcome, trigger);
      assert SettleAs(q[..i + 1], status, outcome, trigger) == SettleAs(q[..i], status, outcome, trigger) + [t];
      hide MarkAll, Deliveries, Deliver, SettleAs;
      DeliverSnoc(SettleAs(q[..i], status, outcome, trigger), t, table, before);
      MarkSnoc(m, q[..i], q[i], status);
    }

    static lemma SettleNone(q: seq<EventInfo>, trigger: TriggerType, outcome: Outcome, status: EventStatus,
                            table: ListenerTable, m: Statuses)
      ensures Deliveries(SettleAs(q[..0], status, outcome, trigger), table) == []
      ensures MarkAll(m, q[..0], status) == m
    {
    }

    method NotifyAndEraseEventProcessed(trigger: TriggerType, state: TcuActivityState, succeed: bool, status: EventStatus,
                                        ghost q: seq<EventInfo>, ghost m: Statuses)
      requires Handles() && Queued(q) && StatusesAre(m)
      modifies this`eventQueue, this`heard, known`status
      ensures var n := Block(q, state);
              && Queued(q[n..]) && StatusesAre(MarkAll(m, q[..n], status))
              && heard == old(heard) + Deliveries(SettleAs(q[..n], status, Processed(succeed), trigger), listeners)
    {
      SettleNone(q, trigger, Processed(succeed), status, listeners, m);
      hide Deliver, Deliveries, Block, SettleAs, MarkAll, StatusesAre;
      ghost var i := 0;
      while eventQueue != [] && eventQueue[0].triggeredState == state
        invariant i <= Block(q, state) && Queued(q[i..]) && StatusesAre(MarkAll(m, q[..i], status))
        invariant heard == old(heard) + Deliveries(SettleAs(q[..i], status, Processed(succeed), trigger), listeners)
        decreases |eventQueue|
      {
        assert q[i..][0] == q[i] && q[i..][1..] == q[i + 1..];
        SettleSnoc(q, i, trigger, Processed(succeed), status, listeners, m, old(heard));
        NotifyOnEventProcessed(eventQueue[0], trigger, succeed, status, MarkAll(m, q[..i], status));
        eventQueue := eventQueue[1..];
        i := i + 1;
      }
    }

    static lemma RejectSnoc(q: seq<EventInfo>, e: EventInfo, table: ListenerTable, m: Statuses, before: seq<Notification>)
      ensures before + Deliveries(RejectAll(q + [e], RejectedOverridden), table)
           == before + Deliveries(RejectAll(q, RejectedOverridden), table)
              + Deliver(Settlement(e, RejectedOverridden, Rejected, e.trigger), table)
      ensures MarkAll(m, q + [e], RejectedOverridden) == MarkAll(m, q, RejectedOverridden)[e := RejectedOverridden]
    {
      var t := Settlement(e, RejectedOverridden, Rejected, e.trigger);
      assert RejectAll(q + [e], RejectedOverridden) == RejectAll(q, RejectedOverridden) + [t];
      hide MarkAll, Deliveries, Deliver, RejectAll;
      DeliverSnoc(RejectAll(q, RejectedOverridden), t, table, before);
      MarkSnoc(m, q, e, RejectedOverridden);
    }

    static lemma RejectNone(q: seq<EventInfo>, a: TcuActivityState, b: TcuActivityState, table: ListenerTable, m: Statuses)
      ensures Kept(q[..0], a, b) == [] && Dropped(q[..0], a, b) == []
      ensures Deliveries(RejectAll([], RejectedOverridden), table) == []
      ensures MarkAll(m, [], RejectedOverridden) == m
    {
    }

    /** Takes one event out of the queue, rejects it and tells its listeners. */
    method RejectAt(it: nat, ghost q: seq<EventInfo>, ghost dropped: seq<EventInfo>, ghost m: Statuses, ghost before: seq<Notification>)
      requires it < |q| && Handles() && Queued(q) && StatusesAre(MarkAll(m, dropped, RejectedOverridden))
      requires heard == before + Deliveries(RejectAll(dropped, RejectedOverridden), listeners)
      modifies this`eventQueue, this`heard, known`status
      ensures Queued(q[..it] + q[it + 1..]) && StatusesAre(MarkAll(m, dropped + [q[it]], RejectedOverridden))
      ensures heard == before + Deliveries(RejectAll(dropped + [q[it]], RejectedOverridden), listeners)
    {
      hide Deliver, Deliveries, RejectAll, MarkAll, StatusesAre;
      RejectSnoc(dropped, q[it], listeners, m, before);
      var e := eventQueue[it];
      eventQueue := eventQueue[..it] + eventQueue[it + 1..];
      NotifyOnEventRejected(e, RejectedOverridden, MarkAll(m, dropped, RejectedOverridden));
    }

    /** One turn of the override loop at index j: what stays in the queue and what is rejected. */
    static lemma OverrideTurn(q: seq<EventInfo>, j: nat, a: TcuActivityState, b: TcuActivityState)
      requires j < |q|
      ensures var kept, kept' := Kept(q[..j], a, b), Kept(q[..j + 1], a, b);
              var all := kept + q[j..];
              && all[|kept|] == q[j]
              && (if q[j].state == a || q[j].state == b
                  then |kept'| == |kept| + 1 && kept' + q[j + 1..] == all && Dropped(q[..j + 1], a, b) == Dropped(q[..j], a, b)
                  else |kept'| == |kept| && kept' + q[j + 1..] == all[..|kept|] + all[|kept| + 1..]
                       && Dropped(q[..j + 1], a, b) == Dropped(q[..j], a, b) + [q[j]])
    {
      assert q[..j + 1][..j] == q[..j];
    }

    /** Takes out and rejects the queued events that are neither in progress nor newly asked for. */
    method RejectOverridden(newState: TcuActivityState, ghost q: seq<EventInfo>, ghost m: Statuses)
      requires q != [] && Handles() && Queued(q) && StatusesAre(m)
      modifies this`eventQueue, this`heard, known`status
      ensures var dropped := Dropped(q, newState, q[0].state);
              && Queued(Kept(q, newState, q[0].state)) && StatusesAre(MarkAll(m, dropped, RejectedOverridden))
              && heard == old(heard) + Deliveries(RejectAll(dropped, RejectedOverridden), listeners)
    {
      var inProgress := eventQueue[0].triggeredState;
      RejectNone(q, newState, inProgress, listeners, m);
      assert Kept(q[..0], newState, inProgress) + q[0..] == q;
      hide Deliver, Deliveries, RejectAll, Kept, Dropped, MarkAll, StatusesAre;
      ghost var j: nat := 0;
      var it := 0;
      while it < |eventQueue|
        invariant j <= |q| && it == |Kept(q[..j], newState, inProgress)|
        invariant Queued(Kept(q[..j], newState, inProgress) + q[j..])
        invariant StatusesAre(MarkAll(m, Dropped(q[..j], newState, inProgress), RejectedOverridden))
        invariant heard == old(heard) + Deliveries(RejectAll(Dropped(q[..j], newState, inProgress), RejectedOverridden), listeners)
        decreases |q| - j
      {
        var e := eventQueue[it];
        OverrideTurn(q, j, newState, inProgress);
        if e.triggeredState != newState && e.triggeredState != inProgress {
          RejectAt(it, Kept(q[..j], newState, inProgress) + q[j..], Dropped(q[..j], newState, inProgress), m, old(heard));
        } else {
          it := it + 1;
        }
        j := j + 1;
      }
      assert q[..j] == q && Kept(q, newState, inProgress) + q[j..] == Kept(q, newState, inProgress);
    }

    method SetActivityState(event: Event, ghost commands: seq<Command>)
      requires event.Info() in handle && handle[event.Info()] == event && Sent(commands)
      modifies this`inFlight
      ensures Sent(commands + [Command(event.Info(), false)])
    {
      inFlight := inFlight + [Pending(event, false)];
    }

    static lemma RejectedAlone(e: EventInfo, status: EventStatus, table: ListenerTable)
      ensures Deliveries(RejectAll([e], status), table) == Deliver(Settlement(e, status, Rejected, e.trigger), table)
    {
      var t := Settlement(e, status, Rejected, e.trigger);
      assert RejectAll([e], status) == [t] && [t][..0] == [];
    }

    /** The new event is turned down at once. */
    method RejectNew(event: Event, status: EventStatus)
      requires Synced() && event.Info() in handle && handle[event.Info()] == event && event.Info() !in model.queue
      modifies this`heard, this`model, event`status
      ensures Synced() && model == Reject(old(model), event.Info(), status)
      ensures Told(old(heard), old(model).settled)
    {
      RejectedAlone(event.Info(), status, listeners);
      hide Deliver, Deliveries, RejectAll, StatusesAre, Sent, Queued;
      NotifyOnEventRejected(event, status, model.status);
      model := Reject(model, event.Info(), status);
      AnnouncedMore(before, old(model).settled, model.settled, since, listeners);
    }

    method JoinQueue(event: Event, ghost q: seq<EventInfo>, ghost m: Statuses)
      requires Handles() && Queued(q) && StatusesAre(m) && event.Info() in handle && handle[event.Info()] == event
      modifies this`eventQueue, event`status
      ensures Queued(q + [event.Info()]) && StatusesAre(m[event.Info() := InQueue])
    {
      event.status := InQueue;
      eventQueue := eventQueue + [event];
    }

    /** The stale events are rejected and the new one appended. */
    method OverrideAndAppend(event: Event, ghost q: seq<EventInfo>, ghost m: Statuses)
      requires q != [] && Handles() && Queued(q) && StatusesAre(m)
      requires event.Info() in handle && handle[event.Info()] == event
      modifies this`eventQueue, this`heard, known`status
      ensures var dropped := Dropped(q, event.triggeredState, q[0].state);
              && Queued(Kept(q, event.triggeredState, q[0].state) + [event.Info()])
              && StatusesAre(MarkAll(m, dropped, RejectedOverridden)[event.Info() := InQueue])
              && heard == old(heard) + Deliveries(RejectAll(dropped, RejectedOverridden), listeners)
    {
      assert event in known;
      hide Deliver, Deliveries, RejectAll, Kept, Dropped, MarkAll, StatusesAre, Queued;
      RejectOverridden(event.triggeredState, q, m);
      JoinQueue(event, Kept(q, event.triggeredState, q[0].state),
                MarkAll(m, Dropped(q, event.triggeredState, q[0].state), RejectedOverridden));
    }

    /** The new event joins a busy queue. */
    method EnqueueBehind(event: Event)
      requires Synced() && event.Info() in handle && handle[event.Info()] == event && model.queue != []
      modifies this`eventQueue, this`heard, this`model, known`status
      ensures Synced() && model == Enqueue(old(model), event.Info())
      ensures Told(old(heard), old(model).settled)
    {
      hide Deliver, Deliveries, RejectAll, Kept, Dropped, MarkAll, StatusesAre, Queued;
      OverrideAndAppend(event, model.queue, model.status);
      model := Enqueue(model, event.Info());
      AnnouncedMore(before, old(model).settled, model.settled, since, listeners);
    }

    /** The new event is started at once. */
    method StartNow(event: Event)
      requires Synced() && event.Info() in handle && handle[event.Info()] == event && model.queue == []
      modifies this`eventQueue, this`wakeLock, this`inFlight, this`model
      ensures Synced()
      ensures model == Issue(old(model).(wakeLock := true, queue := [event.Info()], accepted := old(model).accepted + [event.Info()]))
    {
      wakeLock := true;
      eventQueue := eventQueue + [event];
      SetActivityState(event, model.inFlight);
      model := Issue(model.(wakeLock := true, queue := [event.Info()], accepted := model.accepted + [event.Info()]));
    }

    ghost method Admit(event: Event)
      requires Synced() && event.Info() !in model.pushed && event.status == Initialized
      modifies this`model, this`handle, this`known
      ensures Synced() && known == old(known) + {event} && handle == old(handle)[event.Info() := event]
      ensures model == Admitted(old(model), event.Info())
    {
      model := Admitted(model, event.Info());
      known := known + {event};
      handle := handle[event.Info() := event];
    }

    method Dispatch(event: Event, machines: Option<seq<string>>, serviceUp: bool)
      requires Synced() && event.Info() in handle && handle[event.Info()] == event && event.Info() !in model.queue
      modifies this`eventQueue, this`wakeLock, this`inFlight, this`heard, this`model, known`status
      ensures Synced() && model == Decide(old(model), event.Info(), machines, serviceUp)
      ensures Told(old(heard), old(model).settled)
    {
      assert Deliveries([], listeners) == [] && (eventQueue == [] <==> model.queue == []);
      assert event in known;
      hide Synced, Deliveries, Enqueue, Reject;
      if machines.Some? && event.machineName !in machines.value && event.machineName != ALL_MACHINES {
        RejectNew(event, RejectedInvalidMachineName);
      } else if eventQueue != [] {
        EnqueueBehind(event);
      } else if !serviceUp {
        RejectNew(event, Failed);
      } else {
        StartNow(event);
      }
    }

    method PushEvent(event: Event, machines: Option<seq<string>>, serviceUp: bool)
      requires Valid() && event.Info() !in model.pushed && event.status == Initialized
      modifies this`eventQueue, this`wakeLock, this`inFlight, this`heard, this`model, this`handle, this`known
      modifies known`status, event`status
      ensures Valid() && known == old(known) + {event}
      ensures model == ApplyPush(old(model), event.Info(), machines, serviceUp)
      ensures Told(old(heard), old(model).settled)
    {
      assert Shape(model.queue);
      hide Synced, Deliveries, Decide, Books, ControlInv, Shape;
      PushKeepsControl(model, event.Info(), machines, serviceUp);
      PushKeepsLedger(model, event.Info(), machines, serviceUp);
      QueuedIsNotSettled(model.pushed, model.queue, model.settled, model.status);
      Admit(event);
      Dispatch(event, machines, serviceUp);
    }

    method SettleHeadBlock(status: EventStatus)
      requires Synced() && model.queue != []
      modifies this`eventQueue, this`heard, this`model, known`status
      ensures Synced() && model == SettleHead(old(model), status)
      ensures Told(old(heard), old(model).settled)
    {
      hide Deliver, Deliveries, Block, SettleAs, MarkAll, StatusesAre;
      var processed := eventQueue[0];
      var overridden := eventQueue[|eventQueue| - 1].triggeredState != processed.triggeredState;
      NotifyAndEraseEventProcessed(processed.triggerType, processed.triggeredState, !overridden,
                                   if overridden then RejectedOverridden else status, model.queue, model.status);
      model := SettleHead(model, status);
      AnnouncedMore(before, old(model).settled, model.settled, since, listeners);
    }

    method StartNextEvent(ghost calls: seq<Notification>, ghost settled: seq<Settlement>)
      requires Synced() && Told(calls, settled)
      modifies this`wakeLock, this`inFlight, this`model
      ensures Synced() && model == StartNext(old(model)) && Told(calls, settled)
    {
      hide Deliveries;
      if eventQueue != [] {
        SetActivityState(eventQueue[0], model.inFlight);
      } else {
        wakeLock := false;
      }
      model := StartNext(model);
    }

    lemma NothingToTell()
      ensures Told(heard, model.settled)
    {
      assert Deliveries([], listeners) == [];
    }

    method ProcessedEventHandler(status: EventStatus)
      requires Synced()
      modifies this`eventQueue, this`wakeLock, this`inFlight, this`heard, this`model, known`status
      ensures Synced() && model == ProcessHead(old(model), status)
      ensures Told(old(heard), old(model).settled)
    {
      assert eventQueue == [] <==> model.queue == [];
      hide Synced, SettleHead, Told;
      NothingToTell();
      if eventQueue != [] {
        SettleHeadBlock(status);
        StartNextEvent(old(heard), old(model).settled);
      }
    }

    /** The command is answered for good: it is no longer outstanding. */
    method Answered(index: nat)
      requires Synced() && index < |inFlight|
      modifies this`inFlight, this`model
      ensures index < |old(model).inFlight| && Synced() && model == Retire(old(model), index)
    {
      inFlight := inFlight[..index] + inFlight[index + 1..];
      model := Retire(model, index);
    }

    /** The command is answered for good and its event processed. */
    method Finish(index: nat, status: EventStatus)
      requires Synced() && index < |model.inFlight|
      modifies this`eventQueue, this`wakeLock, this`inFlight, this`heard, this`model, known`status
      ensures Synced() && model == ProcessHead(Retire(old(model), index), status)
      ensures Told(old(heard), old(model).settled)
    {
      assert index < |inFlight|;
      hide Deliveries, ProcessHead, Synced;
      Answered(index);
      ProcessedEventHandler(status);
    }

    /** A command other than RESUME was accepted: its acknowledgement is still to come. */
    method Progress(index: nat)
      requires Synced() && index < |inFlight| && !inFlight[index].event.triggeredState.Resume?
      requires !inFlight[index].awaitingAck
      modifies this`inFlight, this`model, known`status
      ensures Synced() && Takes(old(model), CommandOk(index), model)
    {
      var event := inFlight[index].event;
      event.status := InProgress;
      inFlight := inFlight[index := Pending(event, true)];
      model := Apply(model, CommandOk(index));
    }

    /** A RESUME command succeeded; no acknowledgement will follow. */
    method ResumeDone(index: nat)
      requires Synced() && Enabled(model, CommandOk(index)) && model.inFlight[index].event.state.Resume?
      modifies this`eventQueue, this`wakeLock, this`inFlight, this`heard, this`model, known`status
      ensures Synced() && model == ProcessHead(Retire(old(model), index), Succeed).(wakeLock := false)
      ensures Told(old(heard), old(model).settled)
    {
      hide Deliveries, ProcessHead, Handles, StatusesAre, Queued;
      Finish(index, Succeed);
      wakeLock := false;
      model := model.(wakeLock := false);
    }

    /** The TCU-activity manager refuses command `index`. */
    method OnCommandFailed(index: nat)
      requires Valid() && Enabled(model, CommandFailed(index))
      modifies this`eventQueue, this`wakeLock, this`inFlight, this`heard, this`model, known`status
      ensures Valid() && Takes(old(model), CommandFailed(index), model)
      ensures Told(old(heard), old(model).settled)
    {
      hide Deliveries, Books, ControlInv, ProcessHead, Synced;
      StepKeepsControl(model, CommandFailed(index));
      StepKeepsLedger(model, CommandFailed(index));
      Finish(index, Failed);
    }

    /** The TCU-activity manager accepts command `index`. */
    method OnCommandOk(index: nat)
      requires Valid() && Enabled(model, CommandOk(index))
      modifies this`eventQueue, this`wakeLock, this`inFlight, this`heard, this`model, known`status
      ensures Valid() && Takes(old(model), CommandOk(index), model)
      ensures Told(old(heard), old(model).settled)
    {
      assert Deliveries([], listeners) == [];
      assert index < |inFlight| && inFlight[index].awaitingAck == false;
      var resume := inFlight[index].event.triggeredState.Resume?;
      assert resume == model.inFlight[index].event.state.Resume?;
      hide Deliveries, Books, ControlInv, ProcessHead, Synced;
      StepKeepsControl(model, CommandOk(index));
      StepKeepsLedger(model, CommandOk(index));
      if resume {
        ResumeDone(index);
      } else {
        Progress(index);
      }
    }

    /** The acknowledgement of command `index` arrives. */
    method OnSlaveAckStatusUpdate(index: nat, report: AckReport)
      requires Valid() && index < |inFlight| && inFlight[index].awaitingAck
      modifies this`eventQueue, this`wakeLock, this`inFlight, this`heard, this`model, known`status
      ensures Valid() && Takes(old(model), SlaveAck(index, report), model)
      ensures Told(old(heard), old(model).settled)
    {
      assert Enabled(model, SlaveAck(index, report));
      hide Deliveries, Books, ControlInv, ProcessHead, Synced, Told;
      StepKeepsControl(model, SlaveAck(index, report));
      StepKeepsLedger(model, SlaveAck(index, report));
      var status := Failed;
      if report.AckSuccess? {
        status := Succeed;
      } else if report.AckExpired? {
        status := FailedTimeout;
      }
      Finish(index, status);
    }
  }
}
