/**
 What holds over every run of the eCall client: when the client hangs up by itself, what happens
 to redialled calls after that, how long the call is cached, and what must have happened before
 an automatic restart.
 */
module ECallProofs {
  import opened Common
  import opened ECallModel

  // ---- Reading the log backwards ----

  /** A reason to stop the dial timer came after the last standard start. */
  function StoppedSinceStart(log: seq<Event>): bool {
    log != [] && match Last(log)
    case DialStopped => true
    case Started(_, Standard(_, _, _, _, _)) => false
    case _ => StoppedSinceStart(Front(log))
  }

  /** The client hung up by itself after the cache was last cleared. */
  function HungUpSinceCleared(log: seq<Event>): bool {
    log != [] && match Last(log)
    case AutoHangup(_) => true
    case CacheCleared => false
    case _ => HungUpSinceCleared(Front(log))
  }

  /** The latest report on redials, if any came since the last standard start, announces one. */
  function RedialSince(log: seq<Event>): bool {
    log != [] && match Last(log)
    case RedialReport(will) => will
    case Started(_, Standard(_, _, _, _, _)) => false
    case _ => RedialSince(Front(log))
  }

  /** The latest hangup that found no call was asked for while a redial was announced, and no standard start came since. */
  function ResolvedSince(log: seq<Event>): bool {
    log != [] && match Last(log)
    case Hangup(_, _, found) => if found then ResolvedSince(Front(log)) else RedialSince(Front(log))
    case Started(_, Standard(_, _, _, _, _)) => false
    case _ => ResolvedSince(Front(log))
  }

  /** T9 was reported running and not over since, nor a standard start made. */
  function T9Since(log: seq<Event>): bool {
    log != [] && match Last(log)
    case T9Running => true
    case T9Over => false
    case Started(_, Standard(_, _, _, _, _)) => false
    case _ => T9Since(Front(log))
  }

  /** The answer window ended after the last standard start. */
  function WindowOverSince(log: seq<Event>): bool {
    log != [] && match Last(log)
    case AnswerWindowOver => true
    case Started(_, Standard(_, _, _, _, _)) => false
    case _ => WindowOverSince(Front(log))
  }

  /** The event begins or ends the slot's map entry. */
  predicate Resets(e: Event, slot: int) {
    (e.Started? || e.Erased?) && e.slot == slot
  }

  /** The parameters of the start that made the slot's current entry, if one did. */
  function LastStart(log: seq<Event>, slot: int): Option<Params> {
    if log == [] then None
    else if Resets(Last(log), slot) then (if Last(log).Started? then Some(Last(log).params) else None)
    else LastStart(Front(log), slot)
  }

  function FailedSince(log: seq<Event>, slot: int): bool {
    log != [] && !Resets(Last(log), slot) && (Last(log) == ScanFailed(slot) || FailedSince(Front(log), slot))
  }

  /** The first slot, in key order, on which a scan failed. */
  ghost predicate LowestFailed(log: seq<Event>, slot: int) {
    slot != INVALID_SLOT_ID && FailedSince(log, slot) && forall s: int :: s < slot ==> !FailedSince(log, s)
  }

  /** An answer named another slot while this one was the lowest failed one. */
  ghost predicate TriggeredSince(log: seq<Event>, slot: int) {
    log != [] && !Resets(Last(log), slot)
    && ((Last(log).HighCapability? && Last(log).slot != slot && LowestFailed(Front(log), slot)) || TriggeredSince(Front(log), slot))
  }

  /** The latest MSD report on the slot since its entry was made or erased. */
  function LatestReport(log: seq<Event>, slot: int): Option<MsdStatus> {
    if log == [] || Resets(Last(log), slot) then None
    else if Last(log).MsdReport? && Last(log).slot == slot then Some(Last(log).status)
    else LatestReport(Front(log), slot)
  }

  predicate MsdOkSince(log: seq<Event>, slot: int) {
    LatestReport(log, slot) == Some(MsdSuccess)
  }

  predicate Reported(log: seq<Event>, slot: int) {
    LatestReport(log, slot).Some?
  }

  function Scans(log: seq<Event>, slot: int): nat {
    if log == [] then 0 else Scans(Front(log), slot) + if Last(log) == ScanFailed(slot) then 1 else 0
  }

  predicate GoodRestart(e: Event, slot: int) {
    e.Restart? && e.slot == slot && e.ok
  }

  function GoodRestarts(log: seq<Event>, slot: int): nat {
    if log == [] then 0 else GoodRestarts(Front(log), slot) + if GoodRestart(Last(log), slot) then 1 else 0
  }

  // ---- The invariant ----

  /** The parameters that the slot's entry holds: its start's, or the default ones. */
  function StartParams(log: seq<Event>, slot: int): Params {
    match LastStart(log, slot)
    case None => DEFAULT_INFO.params
    case Some(params) => params
  }

  /** Each entry of the log was justified when it was made. */
  ghost predicate EventOk(era: bool, before: seq<Event>, e: Event) {
    && (e.AutoHangup? && era ==> !StoppedSinceStart(before))
    && (e.AutoAnswered? && era ==> T9Since(before) && !WindowOverSince(before))
    && (e.Restart? ==>
          && TriggeredSince(before, e.slot)
          && e.params == StartParams(before, e.slot)
          && (MsdOkSince(before, e.slot) <==> LastStart(before, e.slot).Some? || Reported(before, e.slot)))
  }

  ghost predicate LogOk(era: bool, log: seq<Event>) {
    forall k :: 0 <= k < |log| ==> EventOk(era, log[..k], log[k])
  }

  ghost predicate SlotOk(data: map<int, Info>, log: seq<Event>, slot: int) {
    && GoodRestarts(log, slot) + (if FailedSince(log, slot) then 1 else 0) <= Scans(log, slot)
    && (slot !in data ==> LastStart(log, slot) == None && !FailedSince(log, slot) && !TriggeredSince(log, slot) && !Reported(log, slot))
    && (slot in data ==> EntryOk(data[slot], log, slot))
  }

  ghost predicate EntryOk(info: Info, log: seq<Event>, slot: int) {
    && (info.scanFailed <==> FailedSince(log, slot))
    && (info.trigger <==> TriggeredSince(log, slot))
    && (info.trigger ==> info.scanFailed)
    && info.params == StartParams(log, slot)
    && info.msd == (match LatestReport(log, slot)
                    case Some(status) => status
                    case None => if LastStart(log, slot).Some? then MsdFailure else MsdSuccess)
  }

  ghost predicate SlotsOk(data: map<int, Info>, log: seq<Event>) {
    forall slot: int :: SlotOk(data, log, slot)
  }

  /** The flags of the dial timer; whether its time is up is not in the log. */
  ghost predicate DialOk(era: bool, dial: Dial, log: seq<Event>) {
    era ==>
      && dial.stopped == StoppedSinceStart(log) && dial.clearECall == HungUpSinceCleared(log)
      && dial.willRedial == RedialSince(log) && dial.disconnectNext == ResolvedSince(log)
  }

  ghost predicate CallBackOk(era: bool, callBack: CallBack, log: seq<Event>) {
    era ==> callBack.t9Active == T9Since(log) && callBack.windowOver == WindowOverSince(log)
  }

  ghost predicate Core(era: bool, dial: Dial, callBack: CallBack, data: map<int, Info>, log: seq<Event>) {
    LogOk(era, log) && SlotsOk(data, log) && DialOk(era, dial, log) && CallBackOk(era, callBack, log)
  }

  ghost predicate Inv(c: Client) {
    Core(c.era, c.dial, c.callBack, c.data, c.log)
  }

  // ---- One more log entry ----

  lemma LogSnoc(era: bool, log: seq<Event>, e: Event)
    requires LogOk(era, log) && EventOk(era, log, e)
    ensures LogOk(era, log + [e])
  {
    var log' := log + [e];
    forall k | 0 <= k < |log'| ensures EventOk(era, log'[..k], log'[k]) {
      if k < |log| {
        assert log'[..k] == log[..k];
      } else {
        assert log'[..k] == log;
      }
    }
  }

  lemma DialSnoc(log: seq<Event>, e: Event)
    ensures StoppedSinceStart(log + [e])
         == (e.DialStopped? || (!(e.Started? && e.params.Standard?) && StoppedSinceStart(log)))
    ensures HungUpSinceCleared(log + [e]) == (e.AutoHangup? || (!e.CacheCleared? && HungUpSinceCleared(log)))
    ensures RedialSince(log + [e])
         == (if e.RedialReport? then e.will else !(e.Started? && e.params.Standard?) && RedialSince(log))
    ensures ResolvedSince(log + [e])
         == (if e.Hangup? && !e.found then RedialSince(log) else !(e.Started? && e.params.Standard?) && ResolvedSince(log))
    ensures T9Since(log + [e])
         == (e.T9Running? || (!e.T9Over? && !(e.Started? && e.params.Standard?) && T9Since(log)))
    ensures WindowOverSince(log + [e])
         == (e.AnswerWindowOver? || (!(e.Started? && e.params.Standard?) && WindowOverSince(log)))
  {
    assert Front(log + [e]) == log;
  }

  lemma SlotSnoc(log: seq<Event>, e: Event, slot: int)
    ensures LastStart(log + [e], slot)
         == (if Resets(e, slot) then (if e.Started? then Some(e.params) else None) else LastStart(log, slot))
    ensures FailedSince(log + [e], slot) == (!Resets(e, slot) && (e == ScanFailed(slot) || FailedSince(log, slot)))
    ensures TriggeredSince(log + [e], slot)
         == (!Resets(e, slot) && ((e.HighCapability? && e.slot != slot && LowestFailed(log, slot)) || TriggeredSince(log, slot)))
    ensures LatestReport(log + [e], slot)
         == (if Resets(e, slot) then None
             else if e.MsdReport? && e.slot == slot then Some(e.status) else LatestReport(log, slot))
    ensures Scans(log + [e], slot) == Scans(log, slot) + if e == ScanFailed(slot) then 1 else 0
    ensures GoodRestarts(log + [e], slot) == GoodRestarts(log, slot) + if GoodRestart(e, slot) then 1 else 0
  {
    assert Front(log + [e]) == log;
  }

  /** An entry that says nothing new about the slot. */
  ghost predicate NeutralFor(log: seq<Event>, e: Event, slot: int) {
    && !Resets(e, slot) && e != ScanFailed(slot)
    && !(e.HighCapability? && e.slot != slot && LowestFailed(log, slot))
    && !(e.MsdReport? && e.slot == slot) && !GoodRestart(e, slot)
  }

  lemma NeutralKeepsSlot(data: map<int, Info>, data': map<int, Info>, log: seq<Event>, e: Event, slot: int)
    requires SlotOk(data, log, slot) && NeutralFor(log, e, slot)
    requires slot in data <==> slot in data'
    requires slot in data ==> data'[slot] == data[slot]
    ensures SlotOk(data', log + [e], slot)
  {
    SlotSnoc(log, e, slot);
  }

  predicate Neutral(e: Event) {
    e.OnConnect? || e.OnDisconnect? || e.SwitchAsked?
  }

  lemma NeutralKeepsCore(era: bool, dial: Dial, callBack: CallBack, data: map<int, Info>, log: seq<Event>, e: Event)
    requires Core(era, dial, callBack, data, log) && Neutral(e)
    ensures Core(era, dial, callBack, data, log + [e])
  {
    LogSnoc(era, log, e);
    DialSnoc(log, e);
    forall slot: int ensures SlotOk(data, log + [e], slot) {
      NeutralKeepsSlot(data, data, log, e, slot);
    }
  }

  /** What an entry says about the flags of the dial timer. */
  function DialAfter(dial: Dial, e: Event): Dial {
    match e
    case DialStopped => dial.(stopped := true)
    case RedialReport(will) => dial.(willRedial := will)
    case AutoHangup(_) => dial.(clearECall := true)
    case CacheCleared => dial.(clearECall := false)
    case Hangup(_, _, found) => if found then dial else dial.(disconnectNext := dial.willRedial)
    case _ => dial
  }

  /** Entries about the dial timer and the cache. */
  lemma DialEventKeepsCore(era: bool, dial: Dial, callBack: CallBack, data: map<int, Info>, log: seq<Event>, e: Event)
    requires Core(era, dial, callBack, data, log)
    requires e.DialStopped? || e.RedialReport? || e.CacheCleared? || e.Hangup? || (e.AutoHangup? && !dial.stopped)
    ensures Core(era, DialAfter(dial, e), callBack, data, log + [e])
    ensures !era ==> Core(era, dial, callBack, data, log + [e])
  {
    LogSnoc(era, log, e);
    DialSnoc(log, e);
    forall slot: int ensures SlotOk(data, log + [e], slot) {
      NeutralKeepsSlot(data, data, log, e, slot);
    }
  }

  lemma TimeoutKeepsInv(c: Client, timedOut: bool)
    requires Inv(c)
    ensures Inv(SetTimedOut(c, timedOut))
  {
  }

  /** Entries about the answer window. */
  lemma CallBackEventKeepsCore(era: bool, dial: Dial, callBack: CallBack, data: map<int, Info>, log: seq<Event>, e: Event)
    requires Core(era, dial, callBack, data, log)
    requires e.T9Running? || e.T9Over? || e.AnswerWindowOver? || (e.AutoAnswered? && callBack.t9Active && !callBack.windowOver)
    ensures Core(era, dial, CallBack(e.T9Running? || (!e.T9Over? && callBack.t9Active), e.AnswerWindowOver? || callBack.windowOver),
                 data, log + [e])
  {
    LogSnoc(era, log, e);
    DialSnoc(log, e);
    forall slot: int ensures SlotOk(data, log + [e], slot) {
      NeutralKeepsSlot(data, data, log, e, slot);
    }
  }

  /** Entries about one slot, with the matching change of its map entry. */
  lemma SlotEventKeepsCore(era: bool, dial: Dial, callBack: CallBack, data: map<int, Info>, log: seq<Event>, e: Event, data': map<int, Info>, slot: int)
    requires Core(era, dial, callBack, data, log)
    requires e == ScanFailed(slot) || e == Erased(slot) || (e.MsdReport? && e.slot == slot)
    requires data' == (match e
                       case ScanFailed(_) => data[slot := (if slot in data then data[slot] else DEFAULT_INFO).(scanFailed := true)]
                       case MsdReport(_, status) => data[slot := (if slot in data then data[slot] else DEFAULT_INFO).(msd := status)]
                       case _ => data - {slot})
    ensures Core(era, dial, callBack, data', log + [e])
  {
    LogSnoc(era, log, e);
    DialSnoc(log, e);
    forall s: int ensures SlotOk(data', log + [e], s) {
      assert SlotOk(data, log, s);
      if s == slot {
        SlotSnoc(log, e, s);
      } else {
        NeutralKeepsSlot(data, data', log, e, s);
      }
    }
  }

  lemma StartKeepsCore(era: bool, dial: Dial, callBack: CallBack, data: map<int, Info>, log: seq<Event>, slot: int, params: Params)
    requires Core(era, dial, callBack, data, log)
    ensures Core(era, if era && params.Standard? then FreshDial(dial) else dial,
                 if era && params.Standard? then CallBack(false, false) else callBack,
                 data[slot := Info(params, false, false, MsdFailure)], log + [Started(slot, params)])
  {
    var e, data' := Started(slot, params), data[slot := Info(params, false, false, MsdFailure)];
    LogSnoc(era, log, e);
    DialSnoc(log, e);
    forall s: int ensures SlotOk(data', log + [e], s) {
      assert SlotOk(data, log, s);
      if s == slot {
        SlotSnoc(log, e, s);
      } else {
        NeutralKeepsSlot(data, data', log, e, s);
      }
    }
  }

  /** A restart that is refused, or one that is sent and starts the call anew. */
  lemma RestartKeepsCore(era: bool, dial: Dial, callBack: CallBack, data: map<int, Info>, log: seq<Event>, slot: int, ok: bool)
    requires Core(era, dial, callBack, data, log) && slot in data && Restarts(data[slot])
    ensures var params := data[slot].params;
            var log' := log + [Restart(slot, params, ok)];
            && (!ok ==> Core(era, dial, callBack, data, log'))
            && (ok ==> Core(era, if era && params.Standard? then FreshDial(dial) else dial,
                            if era && params.Standard? then CallBack(false, false) else callBack,
                            data[slot := Info(params, false, false, MsdFailure)], log' + [Started(slot, params)]))
  {
    var params := data[slot].params;
    var e, e' := Restart(slot, params, ok), Started(slot, params);
    var log' := log + [e];
    assert SlotOk(data, log, slot);
    LogSnoc(era, log, e);
    DialSnoc(log, e);
    if !ok {
      forall s: int ensures SlotOk(data, log', s) {
        NeutralKeepsSlot(data, data, log, e, s);
      }
    } else {
      LogSnoc(era, log', e');
      DialSnoc(log', e');
      var data' := data[slot := Info(params, false, false, MsdFailure)];
      forall s: int ensures SlotOk(data', log' + [e'], s) {
        assert SlotOk(data, log, s);
        if s == slot {
          SlotSnoc(log, e, s);
          SlotSnoc(log', e', s);
        } else {
          NeutralKeepsSlot(data, data, log, e, s);
          NeutralKeepsSlot(data, data', log', e', s);
        }
      }
    }
  }

  /** The lowest failed slot of the log is that of the map. */
  lemma LowestIsFirst(data: map<int, Info>, log: seq<Event>, slot: int)
    requires SlotsOk(data, log)
    ensures LowestFailed(log, slot) <==> slot == FailedSlot(data) != INVALID_SLOT_ID
  {
    forall s: int ensures FailedSince(log, s) <==> s in data && data[s].scanFailed {
      assert SlotOk(data, log, s);
    }
    var failed := set s | s in data && data[s].scanFailed;
    hide FailedSince;
    if failed == {} {
      assert slot !in failed;
    } else {
      assert Least(failed) in failed && FailedSince(log, Least(failed));
      assert slot in failed <==> FailedSince(log, slot);
      assert forall s: int :: FailedSince(log, s) ==> s in failed;
    }
  }

  /** An answer that names another slot than the first failed one triggers the switch there. */
  lemma TriggerKeepsCore(era: bool, dial: Dial, callBack: CallBack, data: map<int, Info>, log: seq<Event>, highSlot: int, slot: int)
    requires Core(era, dial, callBack, data, log)
    requires slot in data && data[slot].scanFailed && highSlot != slot && slot == FailedSlot(data) != INVALID_SLOT_ID
    ensures Core(era, dial, callBack, data[slot := data[slot].(trigger := true)], log + [HighCapability(highSlot)])
  {
    var e, data' := HighCapability(highSlot), data[slot := data[slot].(trigger := true)];
    LogSnoc(era, log, e);
    DialSnoc(log, e);
    forall s: int ensures SlotOk(data', log + [e], s) {
      assert SlotOk(data, log, s);
      LowestIsFirst(data, log, s);
      if s == slot {
        SlotSnoc(log, e, s);
      } else {
        NeutralKeepsSlot(data, data', log, e, s);
      }
    }
  }

  /** Any other answer triggers nothing. */
  lemma AnswerKeepsCore(era: bool, dial: Dial, callBack: CallBack, data: map<int, Info>, log: seq<Event>, highSlot: int)
    requires Core(era, dial, callBack, data, log)
    requires FailedSlot(data) == INVALID_SLOT_ID || FailedSlot(data) == highSlot
    ensures Core(era, dial, callBack, data, log + [HighCapability(highSlot)])
  {
    var e := HighCapability(highSlot);
    LogSnoc(era, log, e);
    DialSnoc(log, e);
    forall s: int ensures SlotOk(data, log + [e], s) {
      LowestIsFirst(data, log, s);
      NeutralKeepsSlot(data, data, log, e, s);
    }
  }

  // ---- Every step keeps the invariant ----

  lemma EmitKeepsInv(c: Client, e: Event)
    requires Inv(c) && Neutral(e)
    ensures Inv(Emit(c, e)) && Inv(Tell(c, e))
  {
    hide Core;
    NeutralKeepsCore(c.era, c.dial, c.callBack, c.data, c.log, e);
  }

  lemma HangUpKeepsInv(c: Client, phone: int, index: int, live: seq<Call>)
    requires Inv(c)
    ensures Inv(HangUp(c, phone, index, live))
  {
    hide Core;
    var found := exists i :: 0 <= i < |live| && Matches(live[i], phone, index);
    DialEventKeepsCore(c.era, c.dial, c.callBack, c.data, c.log, Hangup(phone, index, found));
  }

  lemma EraseKeepsInv(c: Client, slot: int)
    requires Inv(c)
    ensures Inv(Erase(c, slot))
  {
    hide Core;
    SlotEventKeepsCore(c.era, c.dial, c.callBack, c.data, c.log, Erased(slot), c.data - {slot}, slot);
  }

  lemma SwitchKeepsInv(c: Client, slot: int, sent: bool)
    requires Inv(c)
    ensures Inv(SetHighCapability(c, slot, sent))
  {
    hide Core;
    EmitKeepsInv(c, SwitchAsked(slot));
    EraseKeepsInv(Emit(c, SwitchAsked(slot)), slot);
  }

  lemma StartKeepsInv(c: Client, phone: int, params: Params, sent: bool, listener: bool)
    requires Inv(c)
    ensures Inv(StartECall(c, phone, params, sent, listener))
  {
    hide Core;
    StartKeepsCore(c.era, c.dial, c.callBack, c.data, c.log, phone, params);
  }

  lemma EndedKeepsInv(c: Client, call: Call)
    requires Inv(c)
    ensures Inv(OnEnded(c, call))
  {
    hide Core;
    EmitKeepsInv(c, OnDisconnect);
    var c' := TrackedEnded(c);
    DialEventKeepsCore(c'.era, c'.dial, c'.callBack, c'.data, c'.log, CacheCleared);
  }

  lemma CallInfoKeepsInv(c: Client, call: Call, live: seq<Call>)
    requires Inv(c)
    ensures Inv(OnCallInfoChange(c, call, live))
  {
    hide Core, OnEnded;
    match call.state
    case Dialing =>
      EmitKeepsInv(c, OnConnect(call.phone));
      HangUpKeepsInv(Track(c, call), call.phone, call.index, live);
    case Active => DialEventKeepsCore(c.era, c.dial, c.callBack, c.data, c.log, DialStopped);
    case Ended => EndedKeepsInv(c, call);
    case _ =>
  }

  lemma AutoHangUpKeepsInv(c: Client, phone: int, live: seq<Call>)
    requires Inv(c)
    ensures Inv(AutoHangUp(c, phone, live))
  {
    hide Core;
    if !c.dial.stopped && c.dial.timedOut && c.calls.eCall.Some? {
      DialEventKeepsCore(c.era, c.dial, c.callBack, c.data, c.log, AutoHangup(phone));
      var marked := Emit(c, AutoHangup(phone)).(dial := c.dial.(clearECall := true));
      HangUpKeepsInv(marked, phone, c.calls.eCall.value.index, live);
      TimeoutKeepsInv(HangUp(marked, phone, c.calls.eCall.value.index, live), false);
    }
    TimeoutKeepsInv(c, false);
  }

  lemma HighCapabilityKeepsInv(c: Client, highSlot: int, ok: bool, live: seq<Call>, switchSent: bool)
    requires Inv(c)
    ensures Inv(OnHighCapability(c, highSlot, ok, live, switchSent))
  {
    hide Core;
    var slot := FailedSlot(c.data);
    var told := Emit(c, HighCapability(highSlot));
    if !ok {
      if c.calls.inProgress && c.calls.eCall.Some? {
        EraseKeepsInv(c, c.calls.eCall.value.phone);
      }
    } else if slot == INVALID_SLOT_ID || highSlot == slot {
      AnswerKeepsCore(c.era, c.dial, c.callBack, c.data, c.log, highSlot);
      EraseKeepsInv(told, slot);
    } else {
      assert slot in c.data && c.data[slot].scanFailed;
      TriggerKeepsCore(c.era, c.dial, c.callBack, c.data, c.log, highSlot, slot);
      var c' := Trigger(c, slot, highSlot);
      SwitchKeepsInv(c', slot, switchSent);
      if c.calls.inProgress && c.calls.eCall.Some? {
        HangUpKeepsInv(c', c.calls.eCall.value.phone, c.calls.eCall.value.index, live);
      }
    }
  }

  lemma {:induction false} RestartAllKeepsInv(c: Client, slots: set<int>, sentOn: set<int>)
    requires Inv(c) && slots <= c.data.Keys
    ensures Inv(RestartAll(c, slots, sentOn))
    decreases |slots|
  {
    hide Core;
    if slots == {} {
    } else {
      var slot := Least(slots);
      if Restarts(c.data[slot]) {
        RestartKeepsCore(c.era, c.dial, c.callBack, c.data, c.log, slot, slot in sentOn);
      }
      RestartAllKeepsInv(RestartOne(c, slot, sentOn), slots - {slot}, sentOn);
    }
  }

  lemma SlotStepKeepsInv(c: Client, slot: int, status: MsdStatus, requestSent: bool)
    requires Inv(c)
    ensures Inv(OnMsdStatus(c, slot, status)) && Inv(OnScanFail(c, slot, requestSent))
  {
    hide Core;
    var msd := OnMsdStatus(c, slot, status);
    SlotEventKeepsCore(c.era, c.dial, c.callBack, c.data, c.log, MsdReport(slot, status), msd.data, slot);
    var failed := Emit(c.(data := c.data[slot := Entry(c, slot).(scanFailed := true)]), ScanFailed(slot));
    SlotEventKeepsCore(c.era, c.dial, c.callBack, c.data, c.log, ScanFailed(slot), failed.data, slot);
    EraseKeepsInv(failed, slot);
  }

  lemma CallBackKeepsInv(c: Client, phone: int, live: seq<Call>, ok: bool, t9: T9Event)
    requires Inv(c)
    ensures Inv(OnIncomingCall(c, phone, live, ok)) && Inv(OnT9(c, t9)) && Inv(AnswerWindowElapses(c))
  {
    hide Core, FirstAnswerable;
    CallBackEventKeepsCore(c.era, c.dial, c.callBack, c.data, c.log, T9Running);
    CallBackEventKeepsCore(c.era, c.dial, c.callBack, c.data, c.log, T9Over);
    CallBackEventKeepsCore(c.era, c.dial, c.callBack, c.data, c.log, AnswerWindowOver);
    if c.callBack.t9Active && !c.callBack.windowOver {
      CallBackEventKeepsCore(c.era, c.dial, c.callBack, c.data, c.log, AutoAnswered(phone));
    }
  }

  lemma RedialKeepsInv(c: Client, will: bool, reason: Reason)
    requires Inv(c)
    ensures Inv(OnECallRedial(c, will, reason))
  {
    hide Core;
    DialEventKeepsCore(c.era, c.dial, c.callBack, c.data, c.log, RedialReport(will));
    var c' := Emit(c, RedialReport(will)).(dial := c.dial.(willRedial := will));
    DialEventKeepsCore(c'.era, c'.dial, c'.callBack, c'.data, c'.log, DialStopped);
  }

  lemma StepKeepsInv(c: Client, step: Step)
    requires Inv(c)
    ensures Inv(Apply(c, step))
  {
    hide Core, StartECall, OnECallRedial, SetTimedOut, OnIncomingCall, OnT9, AnswerWindowElapses, OnCallInfoChange, AutoHangUp, HangUp, OnMsdStatus, OnScanFail, OnHighCapability, RestartAll, Erase;
    match step
    case Start(phone, params, sent, listener) => StartKeepsInv(c, phone, params, sent, listener);
    case MakeResponse(ok, call) => EmitKeepsInv(c, OnDisconnect);
    case CallInfo(call, live) => CallInfoKeepsInv(c, call, live);
    case Redial(will, reason) => RedialKeepsInv(c, will, reason);
    case TimerBegins => TimeoutKeepsInv(c, false);
    case TimerRunsOut => TimeoutKeepsInv(c, true);
    case TimerDone(phone, live) => AutoHangUpKeepsInv(c, phone, live);
    case UserHangup(phone, index, live) => HangUpKeepsInv(c, phone, index, live);
    case AnswerRefused => EmitKeepsInv(c, OnDisconnect);
    case IncomingCall(phone, live, ok) => CallBackKeepsInv(c, phone, live, ok, T9Unchanged);
    case HlapTimer(t9) => CallBackKeepsInv(c, 0, [], true, t9);
    case AnswerTimerRunsOut => CallBackKeepsInv(c, 0, [], true, T9Unchanged);
    case MsdStatusReport(slot, status) => SlotStepKeepsInv(c, slot, status, true);
    case ScanFail(slot, requestSent) => SlotStepKeepsInv(c, slot, MsdSuccess, requestSent);
    case HighCapabilityAnswer(highSlot, ok, live, switchSent) => HighCapabilityKeepsInv(c, highSlot, ok, live, switchSent);
    case HandlerInfo(call, switchSent) => SwitchKeepsInv(c, call.phone, switchSent);
    case SwitchDone(ok, sentOn) => RestartAllKeepsInv(c, c.data.Keys, sentOn);
    case _ =>
  }

  lemma {:induction false} RunKeepsInv(era: bool, steps: seq<Step>)
    ensures Inv(Run(Initial(era), steps)) && Run(Initial(era), steps).era == era
  {
    if steps == [] {
      assert forall slot: int :: SlotOk(map[], [], slot);
    } else {
      var front := steps[..|steps| - 1];
      RunKeepsInv(era, front);
      StepKeepsInv(Run(Initial(era), front), steps[|steps| - 1]);
      StepKeepsMode(Run(Initial(era), front), steps[|steps| - 1]);
    }
  }

  // ---- Reachable states ----

  /** The state is the end of a run. */
  ghost predicate Reachable(c: Client) {
    exists steps :: Run(Initial(c.era), steps) == c
  }

  lemma StartReachable(era: bool)
    ensures Reachable(Initial(era))
  {
    assert Run(Initial(era), []) == Initial(era);
  }

  lemma RunSnoc(c: Client, steps: seq<Step>, step: Step)
    ensures Run(c, steps + [step]) == Apply(Run(c, steps), step)
  {
    assert (steps + [step])[..|steps|] == steps;
  }

  lemma StepReaches(c: Client, step: Step)
    requires Reachable(c)
    ensures Reachable(Apply(c, step))
  {
    var steps :| Run(Initial(c.era), steps) == c;
    RunSnoc(Initial(c.era), steps, step);
    StepKeepsMode(c, step);
  }

  lemma {:induction false} RunReaches(c: Client, steps: seq<Step>)
    requires Reachable(c)
    ensures Reachable(Run(c, steps)) && Run(c, steps).era == c.era
  {
    if steps == [] {
    } else {
      RunReaches(c, steps[..|steps| - 1]);
      StepReaches(Run(c, steps[..|steps| - 1]), steps[|steps| - 1]);
      StepKeepsMode(Run(c, steps[..|steps| - 1]), steps[|steps| - 1]);
    }
  }

  lemma ReachableInv(c: Client)
    requires Reachable(c)
    ensures Inv(c)
  {
    var steps :| Run(Initial(c.era), steps) == c;
    RunKeepsInv(c.era, steps);
  }

  lemma {:induction false} RestartAllKeepsMode(c: Client, slots: set<int>, sentOn: set<int>)
    requires slots <= c.data.Keys
    ensures RestartAll(c, slots, sentOn).era == c.era
    decreases |slots|
  {
    if slots == {} {
    } else {
      RestartAllKeepsMode(RestartOne(c, Least(slots), sentOn), slots - {Least(slots)}, sentOn);
    }
  }

  lemma StepKeepsMode(c: Client, step: Step)
    ensures Apply(c, step).era == c.era
  {
    if step.SwitchDone? {
      RestartAllKeepsMode(c, c.data.Keys, step.sentOn);
    }
  }

  // ---- Hanging up by itself ----

  predicate IsStandardStart(e: Event) {
    e.Started? && e.params.Standard?
  }

  lemma {:induction false} StartAfterStop(log: seq<Event>, i: nat)
    requires i < |log| && log[i].DialStopped? && !StoppedSinceStart(log)
    ensures exists j :: i < j < |log| && IsStandardStart(log[j])
  {
    if IsStandardStart(Last(log)) {
    } else {
      StartAfterStop(Front(log), i);
      var j :| i < j < |Front(log)| && IsStandardStart(Front(log)[j]);
      assert log[j] == Front(log)[j];
    }
  }

  /**
   In ERA-GLONASS mode the client hangs up by itself only if no active call, exhausted redial or
   connected call was reported since the last standard start.
   */
  lemma AutoHangupOnlyUnstopped(c: Client, k: nat, i: nat)
    requires Reachable(c) && c.era && i < k < |c.log| && c.log[k].AutoHangup? && c.log[i].DialStopped?
    ensures exists j :: i < j < k && IsStandardStart(c.log[j])
  {
    ReachableInv(c);
    hide Reachable;
    assert EventOk(true, c.log[..k], c.log[k]);
    StartAfterStop(c.log[..k], i);
    var j :| i < j < |c.log[..k]| && IsStandardStart(c.log[..k][j]);
    assert c.log[j] == c.log[..k][j];
  }

  // ---- Answering by itself ----

  lemma {:induction false} T9Found(log: seq<Event>) returns (i: nat)
    requires T9Since(log)
    ensures i < |log| && log[i].T9Running?
    ensures forall j :: i < j < |log| ==> !log[j].T9Over? && !IsStandardStart(log[j])
  {
    if Last(log).T9Running? {
      i := |log| - 1;
    } else {
      i := T9Found(Front(log));
    }
  }

  lemma {:induction false} WindowStaysOver(log: seq<Event>, i: nat)
    requires i < |log| && log[i].AnswerWindowOver?
    requires forall j :: i < j < |log| ==> !IsStandardStart(log[j])
    ensures WindowOverSince(log)
  {
    if i == |log| - 1 {
    } else {
      WindowStaysOver(Front(log), i);
    }
  }

  /** An incoming call is answered automatically exactly if T9 runs and the answer window has not ended since the last standard start. */
  lemma CallBackAnsweredExactly(c: Client, phone: int, live: seq<Call>, ok: bool)
    requires Reachable(c) && c.era
    ensures OnIncomingCall(c, phone, live, ok).log
         == c.log + if T9Since(c.log) && !WindowOverSince(c.log) then [AutoAnswered(phone)] else []
  {
    ReachableInv(c);
  }

  /** A run in which T9 is active and a call back is not answered, because the answer window ended first. */
  lemma CallBackUnanswered(phone: int, live: seq<Call>, ok: bool)
    ensures var c := Run(Initial(true), [HlapTimer(T9Started), AnswerTimerRunsOut, IncomingCall(phone, live, ok)]);
            c.callBack.t9Active && c.log == [T9Running, AnswerWindowOver]
  {
    RunOfThree(Initial(true), HlapTimer(T9Started), AnswerTimerRunsOut, IncomingCall(phone, live, ok));
  }

  /**
   A call back is answered automatically only while T9 runs: it was reported running after the last
   standard start, is not over, and the answer window has not ended since that start.
   */
  lemma AutoAnswerOnlyInWindow(c: Client, k: nat)
    requires Reachable(c) && c.era && k < |c.log| && c.log[k].AutoAnswered?
    ensures exists i :: 0 <= i < k && c.log[i].T9Running?
              && forall j :: i < j < k ==> !c.log[j].T9Over? && !IsStandardStart(c.log[j])
    ensures forall i :: 0 <= i < k && c.log[i].AnswerWindowOver? ==> exists j :: i < j < k && IsStandardStart(c.log[j])
  {
    ReachableInv(c);
    hide Reachable;
    var before := c.log[..k];
    assert EventOk(true, before, c.log[k]);
    assert forall j :: 0 <= j < k ==> before[j] == c.log[j];
    var i := T9Found(before);
    forall i | 0 <= i < k && c.log[i].AnswerWindowOver? ensures exists j :: i < j < k && IsStandardStart(c.log[j]) {
      if forall j :: i < j < k ==> !IsStandardStart(c.log[j]) {
        WindowStaysOver(before, i);
      }
    }
  }

  // ---- Redialled calls after the dial duration ----

  /** A hangup that found no call. */
  predicate Fruitless(e: Event) {
    e.Hangup? && !e.found
  }

  /** What ends the resolve to hang up on the next redial. */
  predicate Unresolves(log: seq<Event>, j: nat)
    requires j < |log|
  {
    IsStandardStart(log[j]) || (Fruitless(log[j]) && !RedialSince(log[..j]))
  }

  /** The hangup at i found no call while a redial was announced, and nothing ended the resolve since. */
  ghost predicate ResolvedAt(log: seq<Event>, i: nat) {
    i < |log| && Fruitless(log[i]) && RedialSince(log[..i]) && forall j :: i < j < |log| ==> !Unresolves(log, j)
  }

  lemma ResolvedOneMore(log: seq<Event>, i: nat)
    requires i < |log|
    ensures ResolvedAt(log, i) <==> if i == |log| - 1 then Fruitless(Last(log)) && RedialSince(Front(log))
                                    else ResolvedAt(Front(log), i) && !Unresolves(log, |log| - 1)
  {
    hide RedialSince;
    var front, n := Front(log), |log| - 1;
    assert log[..n] == front;
    forall j | 0 <= j < n ensures front[..j] == log[..j] && (Unresolves(front, j) <==> Unresolves(log, j)) {
      assert front[..j] == log[..j];
    }
    if i < n {
      assert front[..i] == log[..i];
      assert ResolvedAt(log, i) ==> !Unresolves(log, n);
    }
  }

  lemma {:induction false} ResolvedExactly(log: seq<Event>)
    ensures ResolvedSince(log) <==> exists i: nat :: ResolvedAt(log, i)
  {
    if log == [] {
    } else {
      ResolvedExactly(Front(log));
      assert log[..|log| - 1] == Front(log);
      hide ResolvedAt, RedialSince;
      forall i: nat | i < |log|
        ensures ResolvedAt(log, i) <==> if i == |log| - 1 then Fruitless(Last(log)) && RedialSince(Front(log))
                                        else ResolvedAt(Front(log), i) && !Unresolves(log, |log| - 1)
      {
        ResolvedOneMore(log, i);
      }
      ResolvedIsIn(log);
      ResolvedIsIn(Front(log));
      assert ResolvedAt(log, |log| - 1) <==> Fruitless(Last(log)) && RedialSince(Front(log));
    }
  }

  lemma ResolvedIsIn(log: seq<Event>)
    ensures forall i: nat :: ResolvedAt(log, i) ==> i < |log|
  {
  }

  /**
   In ERA-GLONASS mode an emergency call that starts dialling is hung up if and only if some hangup
   found no call while a redial was announced, with neither a standard start nor a hangup that found
   no call and no announced redial since. Otherwise it is told to the listener if none was tracked.
   */
  lemma HungUpOnDiallingExactly(c: Client, call: Call, live: seq<Call>)
    requires Reachable(c) && c.era && call.emergency && call.state == Dialing
    ensures var found := exists i :: 0 <= i < |live| && Matches(live[i], call.phone, call.index);
            OnCallInfoChange(c, call, live).log
              == c.log + if exists i: nat :: ResolvedAt(c.log, i) then [Hangup(call.phone, call.index, found)]
                         else if c.calls.eCall.None? && c.calls.listening then [OnConnect(call.phone)] else []
  {
    ReachableInv(c);
    ResolvedExactly(c.log);
    hide Reachable, ResolvedAt;
  }

  lemma {:induction false} RestartAllGrows(c: Client, slots: set<int>, sentOn: set<int>)
    requires slots <= c.data.Keys
    ensures c.log <= RestartAll(c, slots, sentOn).log
    decreases |slots|
  {
    if slots == {} {
    } else {
      RestartAllGrows(RestartOne(c, Least(slots), sentOn), slots - {Least(slots)}, sentOn);
    }
  }

  lemma StepGrows(c: Client, step: Step)
    ensures c.log <= Apply(c, step).log
  {
    if step.SwitchDone? {
      RestartAllGrows(c, c.data.Keys, step.sentOn);
    }
  }

  lemma {:induction false} RunGrows(c: Client, steps: seq<Step>)
    ensures c.log <= Run(c, steps).log
  {
    if steps == [] {
    } else {
      RunGrows(c, steps[..|steps| - 1]);
      StepGrows(Run(c, steps[..|steps| - 1]), steps[|steps| - 1]);
    }
  }

  /**
   The dial duration is over, the eCall is cached, a redial is announced and the call is not among
   the live ones. From then on, until a standard start or a hangup that finds neither a call nor an
   announced redial, every emergency call that starts dialling is hung up and never announced.
   */
  lemma DialDurationGuarantee(c: Client, phone: int, live: seq<Call>, steps: seq<Step>, call: Call, live': seq<Call>)
    requires Reachable(c)
    requires c.era && c.dial.timedOut && !c.dial.stopped && c.dial.willRedial && c.calls.eCall.Some?
    requires forall i :: 0 <= i < |live| ==> !Matches(live[i], phone, c.calls.eCall.value.index)
    requires var c', log := AutoHangUp(c, phone, live), Run(AutoHangUp(c, phone, live), steps).log;
             forall j :: |c'.log| <= j < |log| ==> !Unresolves(log, j)
    requires call.emergency && call.state == Dialing
    ensures var c' := Run(AutoHangUp(c, phone, live), steps);
            var found := exists i :: 0 <= i < |live'| && Matches(live'[i], call.phone, call.index);
            OnCallInfoChange(c', call, live').log == c'.log + [Hangup(call.phone, call.index, found)]
  {
    ResolvedByTimer(c, phone, live);
    var c' := AutoHangUp(c, phone, live);
    StepReaches(c, TimerDone(phone, live));
    RunReaches(c', steps);
    RunGrows(c', steps);
    var log := Run(c', steps).log;
    assert log[..|c'.log| - 1] == Front(c'.log);
    assert ResolvedAt(log, |c'.log| - 1);
    HungUpOnDiallingExactly(Run(c', steps), call, live');
  }

  /** The timer's hangup finds no call while a redial is announced. */
  lemma ResolvedByTimer(c: Client, phone: int, live: seq<Call>)
    requires Reachable(c)
    requires c.era && c.dial.timedOut && !c.dial.stopped && c.dial.willRedial && c.calls.eCall.Some?
    requires forall i :: 0 <= i < |live| ==> !Matches(live[i], phone, c.calls.eCall.value.index)
    ensures var log := AutoHangUp(c, phone, live).log;
            log != [] && Fruitless(Last(log)) && RedialSince(Front(log)) && AutoHangUp(c, phone, live).era
  {
    ReachableInv(c);
    var log := AutoHangUp(c, phone, live).log;
    assert Front(log) == c.log + [AutoHangup(phone)];
    DialSnoc(c.log, AutoHangup(phone));
  }

  /**
   When the tracked call ends in ERA-GLONASS mode, the cache survives exactly if a redial is
   announced and the client has not hung up by itself since the cache was last cleared; a new start
   does not make it forget that hangup.
   */
  lemma CacheKeptExactly(c: Client, call: Call, live: seq<Call>)
    requires Reachable(c) && c.era && call.state == Ended && Tracked(c, call) && (call.emergency || c.calls.incoming)
    ensures OnCallInfoChange(c, call, live).calls.eCall ==
              if RedialSince(c.log) && !HungUpSinceCleared(c.log) then c.calls.eCall else None
  {
    ReachableInv(c);
  }

  /**
   A run in which a new start pays for an old hangup: the first call was hung up by the timer while
   the modem had it no more, the second is redialled within its duration, and its end clears the cache.
   */
  lemma StartInheritsHangup(params: Params) returns (steps: seq<Step>)
    requires params.Standard?
    ensures var c, second := Run(Initial(true), steps), Call(1, 2, Dialing, true);
            && steps != [] && Last(steps) == MakeResponse(true, second) && c.calls.eCall == Some(second)
            && c.log != [] && IsStandardStart(Last(c.log)) && !c.dial.timedOut
            && (var redialled := Apply(c, Redial(true, OtherReason));
                redialled.dial.willRedial && OnCallInfoChange(redialled, second.(state := Ended), []).calls.eCall == None)
  {
    var first := Call(1, 1, Active, true);
    var c0, start := Initial(true), Start(1, params, true, true);
    steps := [];
    RunSnoc(c0, steps, start);
    steps := steps + [start];
    RunSnoc(c0, steps, MakeResponse(true, first));
    steps := steps + [MakeResponse(true, first)];
    var c2 := Run(c0, steps);
    assert c2.era && c2.calls.eCall == Some(first) && !c2.dial.stopped;
    RunSnoc(c0, steps, TimerRunsOut);
    steps := steps + [TimerRunsOut];
    RunSnoc(c0, steps, TimerDone(1, []));
    steps := steps + [TimerDone(1, [])];
    var c4 := Run(c0, steps);
    assert c4.era && c4.dial.clearECall && c4.calls.eCall == Some(first);
    RunSnoc(c0, steps, start);
    steps := steps + [start];
    RunSnoc(c0, steps, MakeResponse(true, Call(1, 2, Dialing, true)));
    steps := steps + [MakeResponse(true, Call(1, 2, Dialing, true))];
  }

  // ---- Automatic restarts ----

  lemma {:induction false} LastStartAt(log: seq<Event>, slot: int, i: nat)
    requires i < |log| && log[i].Started? && log[i].slot == slot
    requires forall j :: i < j < |log| ==> !Resets(log[j], slot)
    ensures LastStart(log, slot) == Some(log[i].params)
  {
    if i == |log| - 1 {
    } else {
      LastStartAt(Front(log), slot, i);
    }
  }

  lemma {:induction false} FailureFound(log: seq<Event>, slot: int) returns (a: nat)
    requires FailedSince(log, slot)
    ensures a < |log| && log[a] == ScanFailed(slot) && forall j :: a <= j < |log| ==> !Resets(log[j], slot)
  {
    if Last(log) == ScanFailed(slot) {
      a := |log| - 1;
    } else {
      a := FailureFound(Front(log), slot);
    }
  }

  lemma {:induction false} AnswerFound(log: seq<Event>, slot: int) returns (a: nat, b: nat)
    requires TriggeredSince(log, slot)
    ensures a < b < |log| && log[a] == ScanFailed(slot) && log[b].HighCapability? && log[b].slot != slot
    ensures LowestFailed(log[..b], slot)
    ensures forall j :: a <= j < |log| ==> !Resets(log[j], slot)
  {
    if TriggeredSince(Front(log), slot) {
      a, b := AnswerFound(Front(log), slot);
      assert log[..b] == Front(log)[..b];
    } else {
      a := FailureFound(Front(log), slot);
      b := |log| - 1;
      assert log[..b] == Front(log);
    }
  }

  lemma {:induction false} ReportFound(log: seq<Event>, slot: int) returns (d: nat)
    requires MsdOkSince(log, slot)
    ensures d < |log| && log[d] == MsdReport(slot, MsdSuccess)
    ensures forall j :: d <= j < |log| ==> !Resets(log[j], slot)
    ensures forall j :: d < j < |log| ==> !(log[j].MsdReport? && log[j].slot == slot)
  {
    if Last(log).MsdReport? && Last(log).slot == slot {
      d := |log| - 1;
    } else {
      d := ReportFound(Front(log), slot);
    }
  }

  /** What a restart looks like: the parameters come from the start or are the default ones, and the switch was triggered. */
  lemma RestartExactly(c: Client, k: nat)
    requires Reachable(c) && k < |c.log| && c.log[k].Restart?
    ensures var before, slot := c.log[..k], c.log[k].slot;
            && c.log[k].params == StartParams(before, slot)
            && TriggeredSince(before, slot)
            && (MsdOkSince(before, slot) <==> LastStart(before, slot).Some? || Reported(before, slot))
  {
    ReachableInv(c);
    assert EventOk(c.era, c.log[..k], c.log[k]);
  }

  /** The slot's switch was triggered, and its MSD was reported successfully or neither start nor report came. */
  ghost predicate Ready(log: seq<Event>, slot: int) {
    TriggeredSince(log, slot) && (MsdOkSince(log, slot) || (LastStart(log, slot).None? && !Reported(log, slot)))
  }

  /** The entries of a log from n on. */
  ghost predicate LoggedSince(log: seq<Event>, n: nat, e: Event) {
    exists k :: n <= k < |log| && log[k] == e
  }

  lemma {:induction false} RestartAllExactly(c: Client, slots: set<int>, sentOn: set<int>, e: Event)
    requires slots <= c.data.Keys && e.Restart?
    ensures LoggedSince(RestartAll(c, slots, sentOn).log, |c.log|, e) <==>
            e.slot in slots && Restarts(c.data[e.slot]) && e.params == c.data[e.slot].params && e.ok == (e.slot in sentOn)
    decreases |slots|
  {
    if slots == {} {
    } else {
      var slot := Least(slots);
      var c' := RestartOne(c, slot, sentOn);
      var log := RestartAll(c, slots, sentOn).log;
      RestartAllExactly(c', slots - {slot}, sentOn, e);
      RestartAllGrows(c', slots - {slot}, sentOn);
      RestartOneLogs(c, slot, sentOn, e);
      assert LoggedSince(log, |c.log|, e) <==> LoggedSince(c'.log, |c.log|, e) || LoggedSince(log, |c'.log|, e) by {
        assert c.log <= c'.log <= log;
      }
    }
  }

  lemma RestartOneLogs(c: Client, slot: int, sentOn: set<int>, e: Event)
    requires slot in c.data && e.Restart?
    ensures c.log <= RestartOne(c, slot, sentOn).log
    ensures LoggedSince(RestartOne(c, slot, sentOn).log, |c.log|, e) <==>
            Restarts(c.data[slot]) && e == Restart(slot, c.data[slot].params, slot in sentOn)
    ensures forall s :: s in c.data && s != slot ==> RestartOne(c, slot, sentOn).data[s] == c.data[s]
  {
    var log := RestartOne(c, slot, sentOn).log;
    if Restarts(c.data[slot]) {
      assert log[|c.log|] == Restart(slot, c.data[slot].params, slot in sentOn);
    }
  }

  /** A successful switch restarts exactly the slots that are ready, each with the parameters of its start or the default ones. */
  lemma SwitchRestartsExactly(c: Client, sentOn: set<int>, e: Event)
    requires Reachable(c) && e.Restart?
    ensures LoggedSince(Apply(c, SwitchDone(true, sentOn)).log, |c.log|, e) <==>
            Ready(c.log, e.slot) && e.params == StartParams(c.log, e.slot) && e.ok == (e.slot in sentOn)
  {
    ReachableInv(c);
    RestartAllExactly(c, c.data.Keys, sentOn, e);
    assert SlotOk(c.data, c.log, e.slot);
  }

  /**
   A restart on a slot whose entry was made by the start at i, none later: it reuses that start's
   parameters, and between the two come a scan failure there, then an answer naming another slot
   while no lower slot had failed, and an MSD success report that is the latest report.
   */
  lemma ScanFailHistory(c: Client, i: nat, k: nat)
    requires Reachable(c) && i < k < |c.log| && c.log[k].Restart? && c.log[i].Started? && c.log[i].slot == c.log[k].slot
    requires forall j :: i < j < k ==> !Resets(c.log[j], c.log[k].slot)
    ensures var log, slot := c.log, c.log[k].slot;
            && log[k].params == log[i].params
            && (exists a, b :: i < a < b < k && log[a] == ScanFailed(slot) && log[b].HighCapability? && log[b].slot != slot
                  && LowestFailed(log[..b], slot))
            && (exists d :: i < d < k && log[d] == MsdReport(slot, MsdSuccess)
                  && forall j :: d < j < k ==> !(log[j].MsdReport? && log[j].slot == slot))
  {
    var log, slot, before := c.log, c.log[k].slot, c.log[..k];
    RestartExactly(c, k);
    hide Reachable, LowestFailed;
    LastStartAt(before, slot, i);
    var a, b := AnswerFound(before, slot);
    var d := ReportFound(before, slot);
    assert Resets(before[i], slot);
    assert before[..b] == log[..b];
    assert forall j :: 0 <= j < k ==> log[j] == before[j];
  }

  /** Each scan failure is good for at most one successful restart, in every run. */
  lemma OneRestartPerScanFailure(c: Client, slot: int)
    requires Reachable(c)
    ensures GoodRestarts(c.log, slot) <= Scans(c.log, slot)
  {
    ReachableInv(c);
    assert SlotOk(c.data, c.log, slot);
  }

  lemma OnlyRestart(c: Client, slot: int, sentOn: set<int>)
    requires c.data.Keys == {slot} && Restarts(c.data[slot]) && slot in sentOn
    ensures RestartAll(c, c.data.Keys, sentOn).log
         == c.log + [Restart(slot, c.data[slot].params, true), Started(slot, c.data[slot].params)]
  {
    assert Least({slot}) == slot && {slot} - {slot} == {};
    assert RestartAll(c, {slot}, sentOn) == RestartOne(c, slot, sentOn);
  }

  lemma FailedAndAnswered(era: bool, slot: int, high: int)
    requires slot != INVALID_SLOT_ID && high != slot
    ensures var c := OnHighCapability(OnScanFail(Initial(era), slot, true), high, true, [], true);
            && c.data == map[slot := DEFAULT_INFO.(scanFailed := true, trigger := true)]
            && c.log == [ScanFailed(slot), HighCapability(high), SwitchAsked(slot)]
  {
    OnlyFailed(OnScanFail(Initial(era), slot, true).data, slot);
  }

  /**
   Without a start the entry is made by the scan failure itself and counts as successfully reported:
   a failure and an answer are enough for a restart, with default parameters and no MSD report at all.
   */
  lemma RestartWithoutReport(era: bool, slot: int, high: int)
    requires slot != INVALID_SLOT_ID && high != slot
    ensures Run(Initial(era), [ScanFail(slot, true), HighCapabilityAnswer(high, true, [], true), SwitchDone(true, {slot})]).log
         == [ScanFailed(slot), HighCapability(high), SwitchAsked(slot),
             Restart(slot, DEFAULT_INFO.params, true), Started(slot, DEFAULT_INFO.params)]
  {
    hide OnHighCapability, OnScanFail, RestartAll, Run, Initial;
    RunOfThree(Initial(era), ScanFail(slot, true), HighCapabilityAnswer(high, true, [], true), SwitchDone(true, {slot}));
    FailedAndAnswered(era, slot, high);
    OnlyRestart(OnHighCapability(OnScanFail(Initial(era), slot, true), high, true, [], true), slot, {slot});
  }

  lemma RunOfThree(c: Client, s1: Step, s2: Step, s3: Step)
    ensures Run(c, [s1, s2, s3]) == Apply(Apply(Apply(c, s1), s2), s3)
  {
    hide Apply;
    assert [s1, s2, s3] == [] + [s1] + [s2] + [s3];
    RunSnoc(c, [], s1);
    RunSnoc(c, [] + [s1], s2);
    RunSnoc(c, [] + [s1] + [s2], s3);
  }

  lemma OnlyFailed(data: map<int, Info>, slot: int)
    requires data.Keys == {slot} && data[slot].scanFailed
    ensures FailedSlot(data) == slot
  {
    assert (set s | s in data && data[s].scanFailed) == {slot};
  }
}
