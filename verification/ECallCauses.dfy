/**
 Why each entry of the log is made and what changes the tracked call, told by what came in: the
 calls, reports and answers of the step, and the state before it. With the laws on the log this
 says what the client does over every run in terms of its callbacks.
 */
module ECallCauses {
  import opened Common
  import opened ECallModel
  import opened ECallProofs

  // ---- What a step brings ----

  /** An active call, or a report that the modem redials no more, for one of two reasons. */
  predicate StopsTimer(step: Step) {
    match step
    case CallInfo(call, _) => call.state == Active
    case Redial(will, reason) => !will && reason != OtherReason
    case _ => false
  }

  /** The dial duration is over and nothing stopped the timer, with a call to hang up. */
  predicate HangsUpByItself(c: Client, step: Step) {
    step.TimerDone? && !c.dial.stopped && c.dial.timedOut && c.calls.eCall.Some?
  }

  /** The redial of an emergency call that is to be hung up. */
  predicate HangsUpRedial(c: Client, step: Step) {
    && step.CallInfo? && step.call.state == Dialing && step.call.emergency
    && c.era && c.dial.disconnectNext
  }

  /** An emergency call that dials while none is tracked, and is not to be hung up. */
  predicate DialsAnew(c: Client, step: Step) {
    && step.CallInfo? && step.call.state == Dialing && step.call.emergency
    && c.calls.eCall.None? && !(c.era && c.dial.disconnectNext)
  }

  predicate DialsOther(step: Step) {
    step.CallInfo? && step.call.state == Dialing && !step.call.emergency
  }

  /** The end of the tracked call, as an emergency call or an answered one. */
  predicate EndsTracked(c: Client, step: Step) {
    && step.CallInfo? && step.call.state == Ended && (step.call.emergency || c.calls.incoming)
    && match c.calls.eCall
       case None => false
       case Some(x) => x.phone == step.call.phone && x.index == step.call.index
  }

  predicate EndsOther(c: Client, step: Step) {
    step.CallInfo? && step.call.state == Ended && !step.call.emergency && !c.calls.incoming
  }

  /** An answer names another slot than the first failed one, which is `slot`. */
  ghost predicate Triggers(c: Client, step: Step, slot: int) {
    step.HighCapabilityAnswer? && step.ok && step.highSlot != slot && LowestFailed(c.log, slot)
  }

  /** The switch to a slot is asked for once its eCall is over: at the answer, or at the end of the call. */
  ghost predicate Switches(c: Client, step: Step, slot: int) {
    && !c.calls.inProgress
    && (Triggers(c, step, slot)
        || (step.HandlerInfo? && step.call.state == Ended && step.call.phone == slot && TriggeredSince(c.log, slot)))
  }

  ghost predicate SwitchRefused(c: Client, step: Step, slot: int) {
    Switches(c, step, slot) && !step.switchSent
  }

  /** Is a call that has not ended among the live ones, on the phone and, unless that is -1, with the index? */
  predicate IsLive(live: seq<Call>, phone: int, index: int) {
    exists i :: 0 <= i < |live| && live[i].state != Ended && live[i].phone == phone && (index == -1 || live[i].index == index)
  }

  /** Who asks for a hangup: the user, the dial timer, a redial, or a switch that the eCall is in the way of. */
  ghost predicate AsksHangup(c: Client, step: Step, phone: int, index: int) {
    match step
    case UserHangup(p, i, _) => p == phone && i == index
    case TimerDone(p, _) => HangsUpByItself(c, step) && p == phone && c.calls.eCall.value.index == index
    case CallInfo(call, _) => HangsUpRedial(c, step) && call.phone == phone && call.index == index
    case HighCapabilityAnswer(_, _, _, _) =>
      && (exists slot :: Triggers(c, step, slot)) && c.calls.inProgress && c.calls.eCall.Some?
      && c.calls.eCall.value.phone == phone && c.calls.eCall.value.index == index
    case _ => false
  }

  function LiveCalls(step: Step): seq<Call> {
    match step
    case UserHangup(_, _, live) => live
    case TimerDone(_, live) => live
    case CallInfo(_, live) => live
    case HighCapabilityAnswer(_, _, live, _) => live
    case _ => []
  }

  // ---- The cause of each entry ----

  ghost predicate Causes(c: Client, step: Step, e: Event) {
    match e
    case Started(slot, params) =>
      || (step.Start? && step.sent && step.phone == slot && step.params == params)
      || (step.SwitchDone? && step.ok && slot in step.sentOn && Ready(c.log, slot) && params == StartParams(c.log, slot))
    case Restart(slot, params, ok) =>
      step.SwitchDone? && step.ok && Ready(c.log, slot) && params == StartParams(c.log, slot) && ok == (slot in step.sentOn)
    case DialStopped => c.era && StopsTimer(step)
    case RedialReport(will) => c.era && step.Redial? && step.will == will
    case AutoHangup(slot) => HangsUpByItself(c, step) && step.phone == slot
    case Hangup(slot, index, found) => AsksHangup(c, step, slot, index) && found == IsLive(LiveCalls(step), slot, index)
    case OnConnect(slot) => c.calls.listening && (DialsAnew(c, step) || DialsOther(step)) && step.call.phone == slot
    case OnDisconnect =>
      c.calls.listening && (EndsTracked(c, step) || EndsOther(c, step) || step.AnswerRefused? || (step.MakeResponse? && !step.ok))
    case CacheCleared => c.era && EndsTracked(c, step) && (!RedialSince(c.log) || HungUpSinceCleared(c.log))
    case ScanFailed(slot) => step.ScanFail? && step.slot == slot
    case HighCapability(slot) => step.HighCapabilityAnswer? && step.ok && step.highSlot == slot
    case MsdReport(slot, status) => step == MsdStatusReport(slot, status)
    case Erased(slot) =>
      || (step.ScanFail? && !step.requestSent && step.slot == slot)
      || SwitchRefused(c, step, slot)
      || (step.HighCapabilityAnswer? && step.ok && step.highSlot == slot && LowestFailed(c.log, slot))
      || (step.HighCapabilityAnswer? && !step.ok && c.calls.inProgress && c.calls.eCall.Some? && c.calls.eCall.value.phone == slot)
    case SwitchAsked(slot) => Switches(c, step, slot)
    case T9Running => c.era && step == HlapTimer(T9Started)
    case T9Over => c.era && step == HlapTimer(T9StoppedOrExpired)
    case AnswerWindowOver => step.AnswerTimerRunsOut? && c.callBack.t9Active
    case AutoAnswered(slot) => c.era && step.IncomingCall? && step.phone == slot && T9Since(c.log) && !WindowOverSince(c.log)
  }

  lemma {:induction false} RestartAllLogs(c: Client, slots: set<int>, sentOn: set<int>, e: Event)
    requires slots <= c.data.Keys && !e.Restart?
    ensures LoggedSince(RestartAll(c, slots, sentOn).log, |c.log|, e) <==>
            e.Started? && e.slot in slots && Restarts(c.data[e.slot]) && e.params == c.data[e.slot].params && e.slot in sentOn
    decreases |slots|
  {
    if slots == {} {
    } else {
      var slot := Least(slots);
      var c' := RestartOne(c, slot, sentOn);
      var log := RestartAll(c, slots, sentOn).log;
      RestartAllLogs(c', slots - {slot}, sentOn, e);
      RestartAllGrows(c', slots - {slot}, sentOn);
      RestartOneStarts(c, slot, sentOn, e);
      assert LoggedSince(log, |c.log|, e) <==> LoggedSince(c'.log, |c.log|, e) || LoggedSince(log, |c'.log|, e) by {
        assert c.log <= c'.log <= log;
      }
    }
  }

  lemma RestartOneStarts(c: Client, slot: int, sentOn: set<int>, e: Event)
    requires slot in c.data && !e.Restart?
    ensures c.log <= RestartOne(c, slot, sentOn).log
    ensures LoggedSince(RestartOne(c, slot, sentOn).log, |c.log|, e) <==>
            Restarts(c.data[slot]) && slot in sentOn && e == Started(slot, c.data[slot].params)
    ensures forall s :: s in c.data && s != slot ==> RestartOne(c, slot, sentOn).data[s] == c.data[s]
  {
    var log := RestartOne(c, slot, sentOn).log;
    if Restarts(c.data[slot]) && slot in sentOn {
      assert log[|c.log| + 1] == Started(slot, c.data[slot].params);
    }
  }

  lemma SwitchDoneCauses(c: Client, sentOn: set<int>, e: Event)
    requires Reachable(c)
    ensures LoggedSince(Apply(c, SwitchDone(true, sentOn)).log, |c.log|, e) <==> Causes(c, SwitchDone(true, sentOn), e)
  {
    if e.Restart? {
      SwitchRestartsExactly(c, sentOn, e);
    } else {
      ReachableInv(c);
      hide Reachable;
      RestartAllLogs(c, c.data.Keys, sentOn, e);
      if e.Started? {
        assert SlotOk(c.data, c.log, e.slot);
      }
    }
  }

  /** The log after a hangup request. */
  lemma HangUpLogs(c: Client, phone: int, index: int, live: seq<Call>)
    ensures HangUp(c, phone, index, live).log == c.log + [Hangup(phone, index, IsLive(live, phone, index))]
  {
    assert (exists i :: 0 <= i < |live| && Matches(live[i], phone, index)) <==> IsLive(live, phone, index);
  }

  lemma LoggedIsIn(log: seq<Event>, more: seq<Event>, e: Event)
    ensures LoggedSince(log + more, |log|, e) <==> e in more
  {
    if e in more {
      var k :| 0 <= k < |more| && more[k] == e;
      assert (log + more)[|log| + k] == e;
    }
  }

  /** What telling the listener adds to the log. */
  function Told(c: Client, e: Event): seq<Event> {
    if c.calls.listening then [e] else []
  }

  lemma DialingCauses(c: Client, call: Call, live: seq<Call>, e: Event)
    requires call.state == Dialing
    ensures LoggedSince(OnDialing(c, call, live).log, |c.log|, e) <==> Causes(c, CallInfo(call, live), e)
  {
    HangUpLogs(Track(c, call), call.phone, call.index, live);
    hide HangUp, IsLive, LoggedSince, LowestFailed, TriggeredSince, RedialSince, HungUpSinceCleared, T9Since, WindowOverSince, StartParams, Ready;
    var more :=
      if !call.emergency then Told(c, OnConnect(call.phone))
      else if c.era && c.dial.disconnectNext then [Hangup(call.phone, call.index, IsLive(live, call.phone, call.index))]
      else if c.calls.eCall.None? then Told(c, OnConnect(call.phone)) else [];
    assert OnDialing(c, call, live).log == c.log + more;
    LoggedIsIn(c.log, more, e);
  }

  /** What the end of a call adds to the log. */
  function EndLog(c: Client, step: Step): seq<Event>
    requires step.CallInfo?
  {
    (if EndsOther(c, step) || EndsTracked(c, step) then Told(c, OnDisconnect) else [])
    + (if c.era && EndsTracked(c, step) && (!RedialSince(c.log) || HungUpSinceCleared(c.log)) then [CacheCleared] else [])
  }

  lemma EndedLogs(c: Client, call: Call, live: seq<Call>)
    requires Inv(c) && call.state == Ended
    ensures OnEnded(c, call).log == c.log + EndLog(c, CallInfo(call, live))
  {
    hide LogOk, SlotsOk, CallBackOk, RedialSince, HungUpSinceCleared;
  }

  lemma EndedCauses(c: Client, call: Call, live: seq<Call>, e: Event)
    requires Inv(c) && call.state == Ended
    ensures LoggedSince(OnEnded(c, call).log, |c.log|, e) <==> Causes(c, CallInfo(call, live), e)
  {
    EndedLogs(c, call, live);
    LoggedIsIn(c.log, EndLog(c, CallInfo(call, live)), e);
    hide Inv, OnEnded, LoggedSince, IsLive, LowestFailed, TriggeredSince, RedialSince, HungUpSinceCleared, T9Since, WindowOverSince, StartParams, Ready;
  }

  lemma CallInfoCauses(c: Client, call: Call, live: seq<Call>, e: Event)
    requires Inv(c)
    ensures LoggedSince(Apply(c, CallInfo(call, live)).log, |c.log|, e) <==> Causes(c, CallInfo(call, live), e)
  {
    hide LoggedSince, Inv, LowestFailed, TriggeredSince, IsLive, RedialSince, HungUpSinceCleared, T9Since, WindowOverSince, StartParams, Ready, OnDialing, OnEnded;
    match call.state
    case Dialing => DialingCauses(c, call, live, e);
    case Ended => EndedCauses(c, call, live, e);
    case _ =>
      var more := if c.era && call.state == Active then [DialStopped] else [];
      assert Apply(c, CallInfo(call, live)).log == c.log + more;
      LoggedIsIn(c.log, more, e);
  }

  lemma TimerCauses(c: Client, phone: int, live: seq<Call>, e: Event)
    ensures LoggedSince(AutoHangUp(c, phone, live).log, |c.log|, e) <==> Causes(c, TimerDone(phone, live), e)
  {
    var step, more := TimerDone(phone, live), [];
    if HangsUpByItself(c, step) {
      var index := c.calls.eCall.value.index;
      HangUpLogs(Emit(c, AutoHangup(phone)), phone, index, live);
      more := [AutoHangup(phone), Hangup(phone, index, IsLive(live, phone, index))];
    }
    hide HangUp, IsLive, LoggedSince;
    assert AutoHangUp(c, phone, live).log == c.log + more;
    LoggedIsIn(c.log, more, e);
  }

  /** The first failed slot of the map, if there is one, is the lowest failed one of the log. */
  lemma FirstFailed(c: Client, slot: int)
    requires Inv(c)
    ensures LowestFailed(c.log, slot) <==> slot == FailedSlot(c.data) != INVALID_SLOT_ID
  {
    LowestIsFirst(c.data, c.log, slot);
  }

  /** What an answer about the high capability adds to the log, given the first failed slot. */
  function Answered(c: Client, step: Step, first: int): seq<Event>
    requires step.HighCapabilityAnswer?
  {
    if !step.ok then
      if c.calls.inProgress && c.calls.eCall.Some? then [Erased(c.calls.eCall.value.phone)] else []
    else if first == INVALID_SLOT_ID then [HighCapability(step.highSlot)]
    else if first == step.highSlot then [HighCapability(first), Erased(first)]
    else if !c.calls.inProgress then
      [HighCapability(step.highSlot), SwitchAsked(first)] + if step.switchSent then [] else [Erased(first)]
    else if c.calls.eCall.None? then [HighCapability(step.highSlot)]
    else
      var x := c.calls.eCall.value;
      [HighCapability(step.highSlot), Hangup(x.phone, x.index, IsLive(step.live, x.phone, x.index))]
  }

  lemma AnswerLogs(c: Client, step: Step)
    requires step.HighCapabilityAnswer?
    ensures Apply(c, step).log == c.log + Answered(c, step, FailedSlot(c.data))
  {
    var first := FailedSlot(c.data);
    if step.ok && first != INVALID_SLOT_ID && first != step.highSlot && c.calls.eCall.Some? {
      var x := c.calls.eCall.value;
      HangUpLogs(Trigger(c, first, step.highSlot), x.phone, x.index, step.live);
    }
    hide HangUp, IsLive;
  }

  lemma AnswerCauses(c: Client, step: Step, e: Event)
    requires Inv(c) && step.HighCapabilityAnswer?
    ensures e in Answered(c, step, FailedSlot(c.data)) <==> Causes(c, step, e)
  {
    var first := FailedSlot(c.data);
    forall slot: int ensures LowestFailed(c.log, slot) <==> slot == first != INVALID_SLOT_ID {
      FirstFailed(c, slot);
    }
    hide LowestFailed, Inv, FailedSlot, IsLive, Ready, TriggeredSince;
    assert step.ok && first != INVALID_SLOT_ID && first != step.highSlot ==> Triggers(c, step, first);
  }

  /** What the end of a call that a switch waits for adds to the log. */
  ghost function Handled(c: Client, call: Call, switchSent: bool): seq<Event> {
    if call.state != Ended || c.calls.inProgress || !TriggeredSince(c.log, call.phone) then []
    else [SwitchAsked(call.phone)] + if switchSent then [] else [Erased(call.phone)]
  }

  lemma HandlerLogs(c: Client, call: Call, switchSent: bool)
    requires Inv(c)
    ensures HandlerCallInfo(c, call, switchSent).log == c.log + Handled(c, call, switchSent)
  {
    assert SlotOk(c.data, c.log, call.phone);
    hide Inv, TriggeredSince;
  }

  lemma HandlerCauses(c: Client, call: Call, switchSent: bool, e: Event)
    ensures e in Handled(c, call, switchSent) <==> Causes(c, HandlerInfo(call, switchSent), e)
  {
    hide TriggeredSince, LowestFailed, IsLive, RedialSince, HungUpSinceCleared, T9Since, WindowOverSince, StartParams, Ready;
  }

  /** What the remaining steps add to the log. */
  function Plain(c: Client, step: Step): seq<Event> {
    match step
    case Start(phone, params, sent, _) => if sent then [Started(phone, params)] else []
    case MakeResponse(ok, _) => if ok then [] else Told(c, OnDisconnect)
    case Redial(will, _) =>
      if !c.era then [] else [RedialReport(will)] + if StopsTimer(step) then [DialStopped] else []
    case UserHangup(phone, index, live) => [Hangup(phone, index, IsLive(live, phone, index))]
    case AnswerRefused => Told(c, OnDisconnect)
    case IncomingCall(phone, _, _) => if c.era && T9Since(c.log) && !WindowOverSince(c.log) then [AutoAnswered(phone)] else []
    case HlapTimer(t9) =>
      if !c.era || t9 == T9Unchanged then [] else if t9 == T9Started then [T9Running] else [T9Over]
    case AnswerTimerRunsOut => if c.callBack.t9Active then [AnswerWindowOver] else []
    case MsdStatusReport(slot, status) => [MsdReport(slot, status)]
    case ScanFail(slot, requestSent) => [ScanFailed(slot)] + if requestSent then [] else [Erased(slot)]
    case _ => []
  }

  predicate IsPlain(step: Step) {
    !step.CallInfo? && !step.TimerDone? && !step.HighCapabilityAnswer? && !step.HandlerInfo? && !(step.SwitchDone? && step.ok)
  }

  lemma PlainLogs(c: Client, step: Step)
    requires Inv(c) && IsPlain(step)
    ensures Apply(c, step).log == c.log + Plain(c, step)
  {
    if step.UserHangup? {
      HangUpLogs(c, step.phone, step.index, step.live);
    }
    hide HangUp, IsLive, LogOk, SlotsOk, DialOk, FirstAnswerable, T9Since, WindowOverSince;
  }

  lemma PlainCauses(c: Client, step: Step, e: Event)
    requires IsPlain(step)
    ensures e in Plain(c, step) <==> Causes(c, step, e)
  {
    hide IsLive, LowestFailed, TriggeredSince, Ready, T9Since, WindowOverSince;
  }

  /** In every run each step makes exactly the entries that it has a cause for. */
  lemma LoggedForACause(c: Client, step: Step, e: Event)
    requires Reachable(c)
    ensures LoggedSince(Apply(c, step).log, |c.log|, e) <==> Causes(c, step, e)
  {
    ReachableInv(c);
    hide Causes, LoggedSince, Inv;
    match step
    case CallInfo(call, live) => CallInfoCauses(c, call, live, e);
    case TimerDone(phone, live) => TimerCauses(c, phone, live, e);
    case HighCapabilityAnswer(_, _, _, _) =>
      AnswerLogs(c, step);
      AnswerCauses(c, step, e);
      LoggedIsIn(c.log, Answered(c, step, FailedSlot(c.data)), e);
    case HandlerInfo(call, switchSent) =>
      HandlerLogs(c, call, switchSent);
      HandlerCauses(c, call, switchSent, e);
      LoggedIsIn(c.log, Handled(c, call, switchSent), e);
    case SwitchDone(ok, sentOn) =>
      if ok {
        SwitchDoneCauses(c, sentOn, e);
      } else {
        PlainCauses(c, step, e);
        LoggedIsIn(c.log, [], e);
      }
    case _ =>
      PlainLogs(c, step);
      PlainCauses(c, step, e);
      LoggedIsIn(c.log, Plain(c, step), e);
  }

  /**
   After an active call, or a report that the modem redials no more, the client never hangs up by
   itself until a standard start.
   */
  lemma NoAutoHangupAfterStop(c: Client, step: Step, steps: seq<Step>, k: nat)
    requires Reachable(c) && c.era && StopsTimer(step)
    requires var log := Run(Apply(c, step), steps).log; |c.log| <= k < |log| && log[k].AutoHangup?
    ensures var log := Run(Apply(c, step), steps).log; exists j :: |c.log| <= j < k && IsStandardStart(log[j])
  {
    var c' := Apply(c, step);
    var log := Run(c', steps).log;
    LoggedForACause(c, step, DialStopped);
    LoggedForACause(c, step, log[k]);
    StepReaches(c, step);
    StepKeepsMode(c, step);
    RunReaches(c', steps);
    RunGrows(c', steps);
    hide Apply, Run, Reachable;
    var i :| |c.log| <= i < |c'.log| && c'.log[i] == DialStopped;
    assert log[i] == DialStopped;
    assert k >= |c'.log|;
    AutoHangupOnlyUnstopped(Run(c', steps), k, i);
  }

  // ---- The tracked call and what the application was told ----

  /** A ringing or waiting call on the phone. */
  predicate IsUp(call: Call, phone: int) {
    call.phone == phone && (call.state == Incoming || call.state == Waiting)
  }

  /** The first call in the list that can be answered. */
  ghost predicate FirstUp(live: seq<Call>, phone: int, x: Call) {
    exists i :: 0 <= i < |live| && live[i] == x && IsUp(x, phone) && forall j :: 0 <= j < i ==> !IsUp(live[j], phone)
  }

  lemma {:induction false} FirstUpIs(live: seq<Call>, phone: int)
    ensures match FirstAnswerable(live, phone)
            case None => forall i :: 0 <= i < |live| ==> !IsUp(live[i], phone)
            case Some(x) => exists i :: 0 <= i < |live| && live[i] == x && IsUp(x, phone)
                                        && forall j :: 0 <= j < i ==> !IsUp(live[j], phone)
  {
    if live == [] {
    } else if Answerable(live[0], phone) {
      assert live[0] == FirstAnswerable(live, phone).value;
    } else {
      var rest := live[1..];
      FirstUpIs(rest, phone);
      if FirstAnswerable(rest, phone).Some? {
        var x := FirstAnswerable(rest, phone).value;
        var i :| 0 <= i < |rest| && rest[i] == x && IsUp(x, phone) && forall j :: 0 <= j < i ==> !IsUp(rest[j], phone);
        forall j | 0 <= j < i + 1 ensures !IsUp(live[j], phone) {
          assert j > 0 ==> live[j] == rest[j - 1];
        }
        assert live[i + 1] == x;
      } else {
        assert forall i :: 1 <= i < |live| ==> live[i] == rest[i - 1];
      }
    }
  }

  lemma FirstUpExactly(live: seq<Call>, phone: int, x: Call)
    ensures FirstAnswerable(live, phone) == Some(x) <==> FirstUp(live, phone, x)
  {
    FirstUpIs(live, phone);
  }

  /** A call that is answered by the user or, in the answer window, by the client itself. */
  ghost predicate Answers(c: Client, step: Step, x: Call) {
    match step
    case Answer(phone, live, _) => FirstUp(live, phone, x)
    case IncomingCall(phone, live, _) => c.era && T9Since(c.log) && !WindowOverSince(c.log) && FirstUp(live, phone, x)
    case _ => false
  }

  ghost predicate AnswersSome(c: Client, step: Step) {
    exists x :: Answers(c, step, x)
  }

  ghost predicate Accepts(c: Client, step: Step) {
    AnswersSome(c, step) && step.ok
  }

  ghost predicate Declines(c: Client, step: Step) {
    AnswersSome(c, step) && !step.ok
  }

  /** The call becomes the tracked one. */
  ghost predicate Caches(c: Client, step: Step, x: Call) {
    || (step.MakeResponse? && step.ok && step.call == x)
    || (step.CallInfo? && step.call == x && x.state == Dialing && x.emergency && c.calls.eCall.None?)
    || (Answers(c, step, x) && step.ok)
  }

  ghost predicate Uncaches(c: Client, step: Step) {
    step.AnswerRefused? || Declines(c, step) || Causes(c, step, CacheCleared)
  }

  /** A slot that the step restarts. */
  ghost predicate RestartedBy(c: Client, step: Step, slot: int) {
    step.SwitchDone? && step.ok && Ready(c.log, slot)
  }

  /** The last restart of a switch, in key order, decides whether a call is in progress. */
  ghost predicate LastRestart(c: Client, step: Step, slot: int) {
    RestartedBy(c, step, slot) && forall s: int :: RestartedBy(c, step, s) ==> s <= slot
  }

  ghost predicate BeginsProgress(c: Client, step: Step) {
    || ((step.Start? || step.StartSelfTestOrIms?) && step.sent)
    || DialsAnew(c, step) || Accepts(c, step)
    || exists slot :: LastRestart(c, step, slot) && slot in step.sentOn
  }

  ghost predicate EndsProgress(c: Client, step: Step) {
    || ((step.Start? || step.StartSelfTestOrIms?) && !step.sent)
    || (step.MakeResponse? && !step.ok) || DialsOther(step) || EndsTracked(c, step) || step.AnswerRefused? || Declines(c, step)
    || exists slot :: LastRestart(c, step, slot) && slot !in step.sentOn
  }

  ghost predicate BeginsListening(c: Client, step: Step) {
    (step.Start? && step.sent && step.listener) || (step.StartSelfTestOrIms? && step.sent) || Accepts(c, step)
  }

  ghost predicate EndsListening(c: Client, step: Step) {
    || (step.Start? && step.sent && !step.listener) || step.AnswerRefused?
    || exists slot :: RestartedBy(c, step, slot) && slot in step.sentOn
  }

  /** A standard start, or a restart with standard parameters. */
  ghost predicate StartsStandard(c: Client, step: Step) {
    exists slot, params :: Causes(c, step, Started(slot, params)) && params.Standard?
  }

  ghost predicate EndsExpiry(c: Client, step: Step) {
    step.TimerBegins? || (step.TimerDone? && !c.dial.stopped) || (c.era && StartsStandard(c, step))
  }

  ghost predicate EndsPrivate(c: Client, step: Step) {
    step.Start? || EndsProgress(c, step) || exists slot :: RestartedBy(c, step, slot)
  }

  /** The slots, of some, that a switch restarts. */
  ghost predicate Due(c: Client, slots: set<int>, slot: int) {
    slot in slots && slot in c.data && Restarts(c.data[slot])
  }

  ghost predicate LastDue(c: Client, slots: set<int>, slot: int) {
    Due(c, slots, slot) && forall s :: Due(c, slots, s) ==> s <= slot
  }

  ghost predicate AnyDue(c: Client, slots: set<int>) {
    exists slot :: Due(c, slots, slot)
  }

  ghost predicate AnySent(c: Client, slots: set<int>, sentOn: set<int>) {
    exists slot :: Due(c, slots, slot) && slot in sentOn
  }

  ghost predicate StandardSent(c: Client, slots: set<int>, sentOn: set<int>) {
    exists slot :: Due(c, slots, slot) && slot in sentOn && c.data[slot].params.Standard?
  }

  ghost predicate LastSent(c: Client, slots: set<int>, sentOn: set<int>) {
    exists slot :: LastDue(c, slots, slot) && slot in sentOn
  }

  /** What restarts do to the flags. */
  ghost predicate Restarted(c: Client, slots: set<int>, sentOn: set<int>, c': Client) {
    && c'.era == c.era && c'.calls.eCall == c.calls.eCall && c'.calls.incoming == c.calls.incoming
    && (c'.calls.inProgress <==> if AnyDue(c, slots) then LastSent(c, slots, sentOn) else c.calls.inProgress)
    && (c'.calls.isPrivate <==> c.calls.isPrivate && !AnyDue(c, slots))
    && (c'.calls.listening <==> c.calls.listening && !AnySent(c, slots, sentOn))
    && (c'.dial.timedOut <==> c.dial.timedOut && !(c.era && StandardSent(c, slots, sentOn)))
  }

  /** One restart, of the first slot. */
  ghost predicate FirstRestarted(c: Client, slot: int, sentOn: set<int>, c': Client)
    requires slot in c.data
  {
    var due := Restarts(c.data[slot]);
    && c'.era == c.era && c'.calls.eCall == c.calls.eCall && c'.calls.incoming == c.calls.incoming
    && c'.calls.inProgress == (if due then slot in sentOn else c.calls.inProgress)
    && c'.calls.isPrivate == (c.calls.isPrivate && !due)
    && c'.calls.listening == (c.calls.listening && !(due && slot in sentOn))
    && c'.dial.timedOut == (c.dial.timedOut && !(c.era && due && slot in sentOn && c.data[slot].params.Standard?))
  }

  lemma RestartOneFlags(c: Client, slot: int, sentOn: set<int>)
    requires slot in c.data
    ensures FirstRestarted(c, slot, sentOn, RestartOne(c, slot, sentOn))
    ensures forall s :: s in c.data && s != slot ==> RestartOne(c, slot, sentOn).data[s] == c.data[s]
  {
  }

  lemma DueAfterFirst(c: Client, c': Client, slots: set<int>, sentOn: set<int>, first: int)
    requires slots <= c.data.Keys && c'.data.Keys == c.data.Keys && first in slots && forall s :: s in slots ==> first <= s
    requires forall s :: s in c.data && s != first ==> c'.data[s] == c.data[s]
    ensures var rest, due := slots - {first}, Restarts(c.data[first]);
            && (AnyDue(c, slots) <==> due || AnyDue(c', rest))
            && (AnySent(c, slots, sentOn) <==> (due && first in sentOn) || AnySent(c', rest, sentOn))
            && (StandardSent(c, slots, sentOn)
                <==> (due && first in sentOn && c.data[first].params.Standard?) || StandardSent(c', rest, sentOn))
            && (LastSent(c, slots, sentOn) <==> if AnyDue(c', rest) then LastSent(c', rest, sentOn) else due && first in sentOn)
  {
    var rest := slots - {first};
    forall s ensures Due(c, slots, s) <==> if s == first then Restarts(c.data[first]) else Due(c', rest, s) {
    }
    forall s ensures Due(c', rest, s) ==> s != first && c'.data[s] == c.data[s] {
    }
    LastAfterFirst(c, c', slots, first);
    hide Restarts, Due, LastDue;
    assert Due(c, slots, first) <==> Restarts(c.data[first]);
  }

  lemma LastAfterFirst(c: Client, c': Client, slots: set<int>, first: int)
    requires slots <= c.data.Keys && c'.data.Keys == c.data.Keys && first in slots && forall s :: s in slots ==> first <= s
    requires forall s :: s in c.data && s != first ==> c'.data[s] == c.data[s]
    ensures var rest := slots - {first};
            if AnyDue(c', rest) then forall s :: LastDue(c, slots, s) <==> LastDue(c', rest, s)
            else forall s :: LastDue(c, slots, s) <==> s == first && Restarts(c.data[first])
  {
    var rest := slots - {first};
    hide Restarts;
    forall s ensures Due(c', rest, s) <==> Due(c, slots, s) && s != first {
    }
    if AnyDue(c', rest) {
      var s :| Due(c', rest, s);
      assert Due(c, slots, s) && first < s;
    }
  }

  lemma {:induction false} RestartAllFlags(c: Client, slots: set<int>, sentOn: set<int>)
    requires slots <= c.data.Keys
    ensures Restarted(c, slots, sentOn, RestartAll(c, slots, sentOn))
    decreases |slots|
  {
    if slots == {} {
    } else {
      var first := Least(slots);
      var c', rest := RestartOne(c, first, sentOn), slots - {first};
      RestartOneFlags(c, first, sentOn);
      RestartAllFlags(c', rest, sentOn);
      DueAfterFirst(c, c', slots, sentOn, first);
      hide RestartOne, Least, AnyDue, AnySent, LastSent, StandardSent, Restarts;
    }
  }

  /** After a step a call is the tracked one iff the step makes it so, or it was and the step neither drops nor replaces it. */
  ghost predicate CacheFollows(c: Client, step: Step, c': Client) {
    forall x :: c'.calls.eCall == Some(x)
                <==> Caches(c, step, x) || (c.calls.eCall == Some(x) && !Uncaches(c, step) && !exists y :: Caches(c, step, y))
  }

  ghost predicate FlagsFollow(c: Client, step: Step, c': Client) {
    && (c'.calls.inProgress <==> BeginsProgress(c, step) || (c.calls.inProgress && !EndsProgress(c, step)))
    && (c'.calls.listening <==> BeginsListening(c, step) || (c.calls.listening && !EndsListening(c, step)))
    && (c'.calls.incoming <==> Accepts(c, step) || (c.calls.incoming && !Declines(c, step) && !EndsTracked(c, step)))
    && (c'.calls.isPrivate <==>
          (step.StartSelfTestOrIms? && step.ims && step.sent) || (c.calls.isPrivate && !EndsPrivate(c, step)))
    && (c'.dial.timedOut <==> (step.TimerRunsOut? && !c.dial.stopped) || (c.dial.timedOut && !EndsExpiry(c, step)))
  }

  lemma DueIsReady(c: Client, sentOn: set<int>)
    requires Inv(c)
    ensures var step, slots := SwitchDone(true, sentOn), c.data.Keys;
            && (AnyDue(c, slots) <==> exists s :: RestartedBy(c, step, s))
            && (AnySent(c, slots, sentOn) <==> exists s :: RestartedBy(c, step, s) && s in sentOn)
            && (LastSent(c, slots, sentOn) <==> exists s :: LastRestart(c, step, s) && s in sentOn)
            && (exists s :: LastRestart(c, step, s)) == AnyDue(c, slots)
  {
    var step, slots := SwitchDone(true, sentOn), c.data.Keys;
    forall s: int ensures Due(c, slots, s) <==> RestartedBy(c, step, s) {
      assert SlotOk(c.data, c.log, s);
    }
    hide Due, RestartedBy, Inv;
    assert forall s: int :: LastDue(c, slots, s) <==> LastRestart(c, step, s);
    if AnyDue(c, slots) {
      var due := set s | s in slots && Due(c, slots, s);
      assert forall s :: Due(c, slots, s) ==> s in due by {
        assert forall s :: Due(c, slots, s) ==> s in slots by { DueIsIn(c, slots); }
      }
      var s := Greatest(due);
      assert LastDue(c, slots, s);
    }
  }

  lemma DueIsIn(c: Client, slots: set<int>)
    ensures forall s :: Due(c, slots, s) ==> s in slots
  {
  }

  lemma Greatest(s: set<int>) returns (m: int)
    requires s != {}
    ensures m in s && forall x :: x in s ==> x <= m
  {
    NonEmptyHasMember(s);
    var x :| x in s;
    if s == {x} {
      m := x;
    } else {
      assert s == {x} + (s - {x});
      var n := Greatest(s - {x});
      m := if n >= x then n else x;
    }
  }

  lemma SwitchFlags(c: Client, sentOn: set<int>)
    requires Inv(c)
    ensures var step := SwitchDone(true, sentOn); CacheFollows(c, step, Apply(c, step)) && FlagsFollow(c, step, Apply(c, step))
  {
    RestartAllFlags(c, c.data.Keys, sentOn);
    DueIsReady(c, sentOn);
    SwitchStandard(c, sentOn);
    hide RestartedBy, LastRestart, Inv, RestartAll, AnyDue, AnySent, LastSent, StandardSent, StartsStandard;
  }

  lemma SwitchStandard(c: Client, sentOn: set<int>)
    requires Inv(c)
    ensures StartsStandard(c, SwitchDone(true, sentOn)) <==> StandardSent(c, c.data.Keys, sentOn)
  {
    var step := SwitchDone(true, sentOn);
    forall s: int, params
      ensures Causes(c, step, Started(s, params)) <==> Due(c, c.data.Keys, s) && s in sentOn && params == c.data[s].params
    {
      assert SlotOk(c.data, c.log, s);
    }
    hide Causes, Inv;
    if StandardSent(c, c.data.Keys, sentOn) {
      var s :| Due(c, c.data.Keys, s) && s in sentOn && c.data[s].params.Standard?;
      assert Causes(c, step, Started(s, c.data[s].params));
    }
  }

  /** A step that restarts nothing and answers nothing. */
  lemma Quiet(c: Client, step: Step)
    requires !(step.SwitchDone? && step.ok) && !step.Answer? && !step.IncomingCall?
    ensures !AnswersSome(c, step) && (forall x :: !Answers(c, step, x))
    ensures forall s :: !RestartedBy(c, step, s) && !LastRestart(c, step, s)
  {
  }

  lemma AnswerFollows(c: Client, step: Step)
    requires Inv(c) && (step.Answer? || step.IncomingCall?)
    ensures CacheFollows(c, step, Apply(c, step)) && FlagsFollow(c, step, Apply(c, step))
  {
    forall x ensures FirstAnswerable(step.live, step.phone) == Some(x) <==> FirstUp(step.live, step.phone, x) {
      FirstUpExactly(step.live, step.phone, x);
    }
    hide FirstAnswerable, FirstUp, LogOk, SlotsOk, DialOk, T9Since, WindowOverSince;
    assert forall s :: !RestartedBy(c, step, s) && !LastRestart(c, step, s);
    assert !StartsStandard(c, step);
    var up := FirstAnswerable(step.live, step.phone);
    var taken := up.Some? && (step.Answer? || (c.era && T9Since(c.log) && !WindowOverSince(c.log)));
    assert forall x :: Answers(c, step, x) <==> taken && up == Some(x);
    assert taken ==> Answers(c, step, up.value);
    assert AnswersSome(c, step) <==> taken;
    hide Answers, AnswersSome;
    assert taken && step.ok ==> Caches(c, step, up.value);
  }

  lemma CallInfoStartsNothing(c: Client, call: Call, live: seq<Call>)
    ensures var step := CallInfo(call, live);
            && !StartsStandard(c, step)
            && (forall x :: Caches(c, step, x) <==> x == call && call.state == Dialing && call.emergency && c.calls.eCall.None?)
            && ((exists y :: Caches(c, step, y)) <==> call.state == Dialing && call.emergency && c.calls.eCall.None?)
  {
    var step := CallInfo(call, live);
    Quiet(c, step);
    hide Ready, RedialSince, HungUpSinceCleared, Answers;
    assert Caches(c, step, call) <==> call.state == Dialing && call.emergency && c.calls.eCall.None?;
  }

  lemma EndedFollows(c: Client, call: Call, live: seq<Call>)
    requires Inv(c) && call.state == Ended
    ensures var step := CallInfo(call, live); CacheFollows(c, step, OnEnded(c, call)) && FlagsFollow(c, step, OnEnded(c, call))
  {
    CallInfoStartsNothing(c, call, live);
    Quiet(c, CallInfo(call, live));
    hide LogOk, SlotsOk, CallBackOk, RedialSince, HungUpSinceCleared, StartsStandard, Caches, AnswersSome, RestartedBy, LastRestart;
  }

  lemma CallInfoFollows(c: Client, call: Call, live: seq<Call>)
    requires Inv(c)
    ensures var step := CallInfo(call, live); CacheFollows(c, step, Apply(c, step)) && FlagsFollow(c, step, Apply(c, step))
  {
    if call.state == Ended {
      EndedFollows(c, call, live);
    } else {
      CallInfoStartsNothing(c, call, live);
      Quiet(c, CallInfo(call, live));
      hide Inv, StartsStandard, Caches, AnswersSome, RestartedBy, LastRestart, OnEnded;
    }
  }

  lemma StartFollows(c: Client, step: Step)
    requires step.Start?
    ensures CacheFollows(c, step, Apply(c, step)) && FlagsFollow(c, step, Apply(c, step))
  {
    Quiet(c, step);
    hide Answers, AnswersSome, RestartedBy, LastRestart;
    assert step.sent ==> Causes(c, step, Started(step.phone, step.params));
    assert StartsStandard(c, step) <==> step.sent && step.params.Standard?;
  }

  /** A report or request that says nothing about the tracked call. */
  predicate IsAside(step: Step) {
    || step.UserHangup? || step.HighCapabilityAnswer? || step.HandlerInfo? || step.ScanFail? || step.MsdStatusReport?
    || step.Redial? || step.HlapTimer? || step.AnswerTimerRunsOut? || (step.SwitchDone? && !step.ok)
  }

  lemma AsideKeepsCalls(c: Client, step: Step)
    requires IsAside(step)
    ensures Apply(c, step).calls == c.calls && Apply(c, step).dial.timedOut == c.dial.timedOut
  {
    hide FailedSlot;
  }

  lemma AsideStartsNothing(c: Client, step: Step)
    requires IsAside(step)
    ensures !StartsStandard(c, step) && !Causes(c, step, CacheCleared)
  {
    hide Ready, RedialSince, HungUpSinceCleared;
  }

  lemma AsideFollows(c: Client, step: Step, c': Client)
    requires IsAside(step) && c'.calls == c.calls && c'.dial.timedOut == c.dial.timedOut
    ensures CacheFollows(c, step, c') && FlagsFollow(c, step, c')
  {
    AsideStartsNothing(c, step);
    Quiet(c, step);
    hide Causes, StartsStandard, Answers, AnswersSome, RestartedBy, LastRestart;
  }

  lemma OthersFollow(c: Client, step: Step)
    requires !IsAside(step) && !step.SwitchDone? && !step.Answer? && !step.IncomingCall? && !step.CallInfo? && !step.Start?
    ensures CacheFollows(c, step, Apply(c, step)) && FlagsFollow(c, step, Apply(c, step))
  {
    Quiet(c, step);
    hide Answers, AnswersSome, RestartedBy, LastRestart, Ready;
    assert !StartsStandard(c, step);
    if step.MakeResponse? && step.ok {
      assert Caches(c, step, step.call);
    }
  }

  /** In every run the tracked call and the flags follow what comes in. */
  lemma StateFollows(c: Client, step: Step)
    requires Reachable(c)
    ensures CacheFollows(c, step, Apply(c, step)) && FlagsFollow(c, step, Apply(c, step))
  {
    ReachableInv(c);
    hide Reachable;
    match step
    case SwitchDone(ok, sentOn) =>
      if ok {
        SwitchFlags(c, sentOn);
      } else {
        AsideFollows(c, step, Apply(c, step));
      }
    case Answer(phone, live, ok) => AnswerFollows(c, step);
    case IncomingCall(phone, live, ok) => AnswerFollows(c, step);
    case CallInfo(call, live) => CallInfoFollows(c, call, live);
    case Start(_, _, _, _) => StartFollows(c, step);
    case _ =>
      if IsAside(step) {
        AsideKeepsCalls(c, step);
        AsideFollows(c, step, Apply(c, step));
      } else {
        OthersFollow(c, step);
      }
  }
}
