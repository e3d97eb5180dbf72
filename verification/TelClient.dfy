/**
 The eCall client object, with the scan-fail handler that works on its call data map. Each method
 is one step of the model.
 */
module TelClient {
  import opened Common
  import opened ECallModel
  import opened ECallProofs

  class TelClient {
    const isEraGlonassEnabled: bool
    var eCall: Option<Call>
    var eCallInProgress: bool
    var isPrivateEcallTriggered: bool
    var isIncomingCallInProgress: bool
    var isDialDurationTimeOut: bool
    var stopDialTimer: bool
    var willECallRedial: bool
    var disconnectECallInNextAttempt: bool
    var clearECall: bool
    var isT9TimerActive: bool
    var isAutoAnswerDurationTimeOut: bool
    var hasCallListener: bool
    var eCallDataMap: map<int, Info>
    ghost var log: seq<Event>

    ghost function View(): Client
      reads this
    {
      Client(isEraGlonassEnabled,
             Calls(eCall, eCallInProgress, isPrivateEcallTriggered, isIncomingCallInProgress, hasCallListener),
             Dial(isDialDurationTimeOut, stopDialTimer, willECallRedial, disconnectECallInNextAttempt, clearECall),
             CallBack(isT9TimerActive, isAutoAnswerDurationTimeOut),
             eCallDataMap, log)
    }

    /** The object's state is the end of a run of the model, so what is proved of every run holds of it. */
    ghost predicate Valid()
      reads this
    {
      Reachable(View())
    }

    constructor (era: bool)
      ensures Valid() && View() == Initial(era)
    {
      isEraGlonassEnabled := era;
      eCall, eCallInProgress, isPrivateEcallTriggered, isIncomingCallInProgress := None, false, false, false;
      isDialDurationTimeOut, stopDialTimer, willECallRedial := false, false, false;
      disconnectECallInNextAttempt, clearECall, hasCallListener := false, false, false;
      isT9TimerActive, isAutoAnswerDurationTimeOut := false, false;
      eCallDataMap, log := map[], [];
      new;
      StartReachable(era);
    }

    method SetECallProgressState(state: bool)
      modifies this`eCallInProgress, this`isPrivateEcallTriggered
      ensures View() == old(View()).(calls := Progress(old(View()).calls, state))
    {
      if !state {
        isPrivateEcallTriggered := false;
      }
      eCallInProgress := state;
    }

    /** Calls the listener, if there is one. */
    method NotifyListener(e: Event)
      modifies this`log
      ensures View() == Tell(old(View()), e)
    {
      if hasCallListener {
        log := log + [e];
      }
    }

    // ---- Starting ----

    method ResetTimers()
      modifies this`isDialDurationTimeOut, this`stopDialTimer, this`willECallRedial
      modifies this`disconnectECallInNextAttempt, this`isT9TimerActive, this`isAutoAnswerDurationTimeOut
      ensures View() == old(View()).(dial := FreshDial(old(View()).dial), callBack := CallBack(false, false))
    {
      isDialDurationTimeOut := false;
      stopDialTimer := false;
      willECallRedial := false;
      disconnectECallInNextAttempt := false;
      isT9TimerActive := false;
      isAutoAnswerDurationTimeOut := false;
    }

    /** A sent start caches its parameters and, for a standard eCall in ERA-GLONASS mode, resets the flags. */
    method RecordStart(phoneId: int, params: Params)
      modifies this`eCallDataMap, this`isDialDurationTimeOut, this`stopDialTimer, this`willECallRedial
      modifies this`disconnectECallInNextAttempt, this`isT9TimerActive, this`isAutoAnswerDurationTimeOut, this`log
      ensures View() == ECallModel.StartECall(old(View()), phoneId, params, true, hasCallListener).(calls := old(View()).calls)
    {
      eCallDataMap := eCallDataMap[phoneId := Info(params, false, false, MsdFailure)];
      if isEraGlonassEnabled && params.Standard? {
        ResetTimers();
      }
      log := log + [Started(phoneId, params)];
    }

    /** Standard and custom-number starts; `sent` is the status of the request to make the call. */
    method StartECall(phoneId: int, params: Params, sent: bool, listener: bool) returns (ok: bool)
      modifies this
      ensures old(Valid()) ==> Valid()
      ensures View() == ECallModel.StartECall(old(View()), phoneId, params, sent, listener) && ok == sent
    {
      hide Reachable;
      if Valid() {
        StepReaches(View(), Start(phoneId, params, sent, listener));
      }
      eCallInProgress := true;
      isPrivateEcallTriggered := false;
      if !sent {
        eCallInProgress := false;
        return false;
      }
      RecordStart(phoneId, params);
      hasCallListener := listener;
      return true;
    }

    method StartSelfTestOrIms(ims: bool, sent: bool) returns (ok: bool)
      requires Valid()
      modifies this`eCallInProgress, this`isPrivateEcallTriggered, this`hasCallListener
      ensures Valid()
      ensures View() == StartOther(old(View()), ims, sent) && ok == sent
    {
      hide Reachable;
      StepReaches(View(), Step.StartSelfTestOrIms(ims, sent));
      eCallInProgress := true;
      if ims {
        isPrivateEcallTriggered := true;
      }
      if !sent {
        SetECallProgressState(false);
        return false;
      }
      hasCallListener := true;
      return true;
    }

    method OnMakeCallResponse(ok: bool, call: Call)
      requires Valid()
      modifies this
      ensures Valid()
      ensures View() == MakeCallResponse(old(View()), ok, call)
    {
      hide Reachable;
      StepReaches(View(), MakeResponse(ok, call));
      if ok {
        eCall := Some(call);
      } else {
        NotifyListener(OnDisconnect);
        SetECallProgressState(false);
      }
    }

    // ---- Hanging up and answering ----

    /** `accepted` is the status of the request to hang up the call that is found. */
    method Hangup(phoneId: int, callIndex: int, callList: seq<Call>, accepted: bool) returns (ok: bool)
      modifies this`disconnectECallInNextAttempt, this`log
      ensures old(Valid()) ==> Valid()
      ensures View() == HangUp(old(View()), phoneId, callIndex, callList)
      ensures ok <==> accepted && exists i :: 0 <= i < |callList| && Matches(callList[i], phoneId, callIndex)
    {
      hide Reachable;
      if Valid() {
        StepReaches(View(), UserHangup(phoneId, callIndex, callList));
      }
      var found, i := false, 0;
      while i < |callList| && !found
        invariant 0 <= i <= |callList|
        invariant !found ==> forall j :: 0 <= j < i ==> !Matches(callList[j], phoneId, callIndex)
        invariant found ==> exists j :: 0 <= j < |callList| && Matches(callList[j], phoneId, callIndex)
      {
        if phoneId == callList[i].phone {
          if callList[i].state != Ended && (callIndex == -1 || callIndex == callList[i].index) {
            assert Matches(callList[i], phoneId, callIndex);
            found := true;
          }
        }
        i := i + 1;
      }
      log := log + [Event.Hangup(phoneId, callIndex, found)];
      if found {
        return accepted;
      }
      if isEraGlonassEnabled {
        if willECallRedial {
          disconnectECallInNextAttempt := true;
        } else {
          disconnectECallInNextAttempt := false;
        }
      }
      return false;
    }

    /** The search loop of `Answer`. */
    method FindAnswerable(phoneId: int, callList: seq<Call>) returns (spCall: Option<Call>)
      ensures spCall == FirstAnswerable(callList, phoneId)
    {
      spCall := None;
      var i := 0;
      while i < |callList| && spCall.None?
        invariant 0 <= i <= |callList|
        invariant FirstAnswerable(callList, phoneId) == if spCall.Some? then spCall else FirstAnswerable(callList[i..], phoneId)
      {
        if (callList[i].state == Incoming || callList[i].state == Waiting) && phoneId == callList[i].phone {
          spCall := Some(callList[i]);
        }
        assert callList[i..][1..] == callList[i + 1..];
        i := i + 1;
      }
    }

    method Answer(phoneId: int, callList: seq<Call>, accepted: bool) returns (ok: bool)
      modifies this
      ensures old(Valid()) ==> Valid()
      ensures View() == AnswerCall(old(View()), phoneId, callList, accepted)
      ensures ok == (accepted && FirstAnswerable(callList, phoneId).Some?)
    {
      hide Reachable, FirstAnswerable;
      if Valid() {
        StepReaches(View(), Step.Answer(phoneId, callList, accepted));
      }
      var spCall := FindAnswerable(phoneId, callList);
      if spCall.None? {
        return false;
      }
      eCall := spCall;
      isIncomingCallInProgress := true;
      SetECallProgressState(true);
      if !accepted {
        isIncomingCallInProgress := false;
        SetECallProgressState(false);
        eCall := None;
        return false;
      }
      hasCallListener := true;
      return true;
    }

    method IncomingCall(phoneId: int, callList: seq<Call>, accepted: bool)
      requires Valid()
      modifies this
      ensures Valid()
      ensures View() == OnIncomingCall(old(View()), phoneId, callList, accepted)
    {
      hide Reachable;
      StepReaches(View(), Step.IncomingCall(phoneId, callList, accepted));
      if isEraGlonassEnabled {
        if !isAutoAnswerDurationTimeOut && isT9TimerActive {
          log := log + [AutoAnswered(phoneId)];
          var _ := Answer(phoneId, callList, accepted);
        }
      }
    }

    method HlapTimerEvent(t9: T9Event)
      requires Valid()
      modifies this`isT9TimerActive, this`log
      ensures Valid()
      ensures View() == OnT9(old(View()), t9)
    {
      hide Reachable;
      StepReaches(View(), HlapTimer(t9));
      if isEraGlonassEnabled {
        if t9 == T9Started {
          isT9TimerActive := true;
          log := log + [T9Running];
        } else if t9 == T9StoppedOrExpired {
          isT9TimerActive := false;
          log := log + [T9Over];
        }
      }
    }

    /** The auto-answer task wakes up at the end of its window. */
    method AnswerTimerWakes()
      requires Valid()
      modifies this`isAutoAnswerDurationTimeOut, this`log
      ensures Valid()
      ensures View() == AnswerWindowElapses(old(View()))
    {
      hide Reachable;
      StepReaches(View(), AnswerTimerRunsOut);
      if isT9TimerActive {
        isAutoAnswerDurationTimeOut := true;
        log := log + [AnswerWindowOver];
      }
    }

    method OnAnswerRefused()
      requires Valid()
      modifies this
      ensures Valid()
      ensures View() == AnswerFailed(old(View()))
    {
      hide Reachable;
      StepReaches(View(), AnswerRefused);
      NotifyListener(OnDisconnect);
      hasCallListener := false;
      SetECallProgressState(false);
      eCall := None;
    }

    // ---- Callbacks ----

    method OnDialingCall(call: Call, callList: seq<Call>)
      modifies this
      ensures View() == OnDialing(old(View()), call, callList)
    {
      if call.emergency {
        if eCall.None? {
          eCall := Some(call);
          if isEraGlonassEnabled && disconnectECallInNextAttempt {
            var _ := Hangup(call.phone, call.index, callList, true);
          } else {
            SetECallProgressState(true);
            NotifyListener(OnConnect(call.phone));
          }
        } else if isEraGlonassEnabled && disconnectECallInNextAttempt {
          var _ := Hangup(call.phone, call.index, callList, true);
        }
      } else {
        SetECallProgressState(false);
        NotifyListener(OnConnect(call.phone));
      }
    }

    method StopDialTimer()
      modifies this`stopDialTimer, this`log
      ensures View() == StopDial(old(View()))
    {
      stopDialTimer := true;
      log := log + [DialStopped];
    }

    method OnEndedCall(call: Call)
      modifies this
      ensures View() == OnEnded(old(View()), call)
    {
      if call.emergency || isIncomingCallInProgress {
        if eCall.Some? {
          if eCall.value.index == call.index && eCall.value.phone == call.phone {
            NotifyListener(OnDisconnect);
            SetECallProgressState(false);
            isIncomingCallInProgress := false;
            if isEraGlonassEnabled {
              if !willECallRedial || clearECall {
                eCall := None;
                clearECall := false;
                log := log + [CacheCleared];
              }
            }
          }
        }
      } else {
        NotifyListener(OnDisconnect);
      }
    }

    method CallInfoChange(call: Call, callList: seq<Call>)
      requires Valid()
      modifies this
      ensures Valid()
      ensures View() == OnCallInfoChange(old(View()), call, callList)
    {
      hide Reachable;
      StepReaches(View(), CallInfo(call, callList));
      if call.state == Dialing {
        OnDialingCall(call, callList);
      }
      if isEraGlonassEnabled {
        if call.state == Active {
          StopDialTimer();
        }
      }
      if call.state == Ended {
        OnEndedCall(call);
      }
    }

    method RedialAnnounced(will: bool, reason: Reason)
      requires Valid()
      modifies this
      ensures Valid()
      ensures View() == OnECallRedial(old(View()), will, reason)
    {
      hide Reachable;
      StepReaches(View(), Redial(will, reason));
      if isEraGlonassEnabled {
        willECallRedial := will;
        log := log + [RedialReport(will)];
        if !will && (reason == MaxRedialAttempted || reason == CallConnected) {
          StopDialTimer();
        }
      }
    }

    /** The timer task begins: it clears the expiry flag. */
    method DialTimerBegins()
      requires Valid()
      modifies this`isDialDurationTimeOut
      ensures Valid()
      ensures View() == SetTimedOut(old(View()), false)
    {
      hide Reachable;
      StepReaches(View(), TimerBegins);
      isDialDurationTimeOut := false;
    }

    /** The waiting task wakes up because it was stopped or because its time is up. */
    method DialTimerWakes(timeIsUp: bool)
      requires Valid()
      modifies this`isDialDurationTimeOut
      ensures Valid()
      ensures View() == if timeIsUp && !stopDialTimer then SetTimedOut(old(View()), true) else old(View())
    {
      hide Reachable;
      StepReaches(View(), TimerRunsOut);
      if stopDialTimer {
      } else if timeIsUp {
        isDialDurationTimeOut := true;
      }
    }

    method AutoHangup(phoneId: int, callList: seq<Call>)
      requires Valid()
      modifies this
      ensures Valid()
      ensures View() == AutoHangUp(old(View()), phoneId, callList)
    {
      hide Reachable;
      StepReaches(View(), TimerDone(phoneId, callList));
      if stopDialTimer {
      } else if isDialDurationTimeOut {
        if eCall.Some? {
          log := log + [Event.AutoHangup(phoneId)];
          var _ := Hangup(phoneId, eCall.value.index, callList, true);
          clearECall := true;
        }
        isDialDurationTimeOut := false;
      }
    }

    // ---- The scan-fail handler ----

    method MsdTransmissionStatus(phoneId: int, status: MsdStatus)
      requires Valid()
      modifies this`eCallDataMap, this`log
      ensures Valid()
      ensures View() == OnMsdStatus(old(View()), phoneId, status)
    {
      hide Reachable;
      StepReaches(View(), MsdStatusReport(phoneId, status));
      var info := if phoneId in eCallDataMap then eCallDataMap[phoneId] else DEFAULT_INFO;
      eCallDataMap := eCallDataMap[phoneId := info.(msd := status)];
      log := log + [MsdReport(phoneId, status)];
    }

    method EraseData(phoneId: int)
      modifies this`eCallDataMap, this`log
      ensures View() == Erase(old(View()), phoneId)
    {
      eCallDataMap := eCallDataMap - {phoneId};
      log := log + [Erased(phoneId)];
    }

    method OnEmergencyNetworkScanFail(phoneId: int, requestSent: bool)
      requires Valid()
      modifies this`eCallDataMap, this`log
      ensures Valid()
      ensures View() == OnScanFail(old(View()), phoneId, requestSent)
    {
      hide Reachable;
      StepReaches(View(), ScanFail(phoneId, requestSent));
      var info := if phoneId in eCallDataMap then eCallDataMap[phoneId] else DEFAULT_INFO;
      eCallDataMap := eCallDataMap[phoneId := info.(scanFailed := true)];
      log := log + [ScanFailed(phoneId)];
      if !requestSent {
        EraseData(phoneId);
      }
    }

    method RequestSwitch(phoneId: int, sent: bool)
      modifies this`eCallDataMap, this`log
      ensures View() == SetHighCapability(old(View()), phoneId, sent)
    {
      log := log + [SwitchAsked(phoneId)];
      if !sent {
        EraseData(phoneId);
      }
    }

    /** The map is searched in key order for the first slot with a failed scan. */
    method FindFailedSlot() returns (slot: int)
      ensures slot == FailedSlot(eCallDataMap)
    {
      slot := INVALID_SLOT_ID;
      var rest := eCallDataMap.Keys;
      while rest != {}
        invariant rest <= eCallDataMap.Keys
        invariant forall k :: k in eCallDataMap && k !in rest ==> !eCallDataMap[k].scanFailed
        decreases |rest|
      {
        assert Least(rest) in rest;
        var k :| k in rest && forall j :: j in rest ==> k <= j;
        if eCallDataMap[k].scanFailed {
          slot := k;
          ghost var failed := set s | s in eCallDataMap && eCallDataMap[s].scanFailed;
          assert k in failed;
          return;
        }
        rest := rest - {k};
      }
      assert forall k :: k in eCallDataMap ==> k !in rest;
      NoMemberMeansEmpty(set s | s in eCallDataMap && eCallDataMap[s].scanFailed);
    }

    method RequestHighCapabilityResponse(highCapSlotId: int, ok: bool, callList: seq<Call>, switchSent: bool)
      requires Valid()
      modifies this
      ensures Valid()
      ensures View() == OnHighCapability(old(View()), highCapSlotId, ok, callList, switchSent)
    {
      hide Reachable;
      StepReaches(View(), HighCapabilityAnswer(highCapSlotId, ok, callList, switchSent));
      if !ok {
        if eCallInProgress && eCall.Some? {
          EraseData(eCall.value.phone);
        }
        return;
      }
      var slot := FindFailedSlot();
      log := log + [HighCapability(highCapSlotId)];
      if slot != INVALID_SLOT_ID {
        if highCapSlotId != slot {
          eCallDataMap := eCallDataMap[slot := eCallDataMap[slot].(trigger := true)];
          if eCallInProgress {
            if eCall.Some? {
              var _ := Hangup(eCall.value.phone, eCall.value.index, callList, true);
            }
          } else {
            RequestSwitch(slot, switchSent);
          }
        } else {
          EraseData(slot);
        }
      }
    }

    method HandlerCallInfoChange(call: Call, switchSent: bool)
      requires Valid()
      modifies this`eCallDataMap, this`log
      ensures Valid()
      ensures View() == HandlerCallInfo(old(View()), call, switchSent)
    {
      hide Reachable;
      StepReaches(View(), HandlerInfo(call, switchSent));
      if call.state == Ended {
        if !eCallInProgress {
          if call.phone in eCallDataMap {
            if eCallDataMap[call.phone].trigger {
              RequestSwitch(call.phone, switchSent);
            }
          }
        }
      }
    }

    method RestartSlot(slot: int, sentOn: set<int>)
      requires slot in eCallDataMap
      modifies this
      ensures View() == RestartOne(old(View()), slot, sentOn)
    {
      var info := eCallDataMap[slot];
      if info.trigger && info.msd == MsdSuccess {
        log := log + [Restart(slot, info.params, slot in sentOn)];
        var _ := StartECall(slot, info.params, slot in sentOn, false);
      }
    }

    /** After the switch, every slot that asked for it and reported its MSD is called again, in key order. */
    method SetHighCapabilityResponse(ok: bool, sentOn: set<int>)
      requires Valid()
      modifies this
      ensures Valid()
      ensures View() == if ok then RestartAll(old(View()), old(eCallDataMap).Keys, sentOn) else old(View())
    {
      hide Reachable;
      StepReaches(View(), SwitchDone(ok, sentOn));
      hide RestartOne;
      if !ok {
        return;
      }
      var rest := eCallDataMap.Keys;
      while rest != {}
        invariant rest <= eCallDataMap.Keys
        invariant RestartAll(old(View()), old(eCallDataMap).Keys, sentOn) == RestartAll(View(), rest, sentOn)
        decreases |rest|
      {
        assert Least(rest) in rest;
        var slot :| slot in rest && forall j :: j in rest ==> slot <= j;
        assert slot == Least(rest);
        assert RestartAll(View(), rest, sentOn) == RestartAll(RestartOne(View(), slot, sentOn), rest - {slot}, sentOn);
        RestartSlot(slot, sentOn);
        rest := rest - {slot};
      }
    }
  }
}
