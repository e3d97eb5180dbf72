/**
 The eCall client and its scan-fail handler as one state machine, one step per callback or user
 request. The client's log records what it was told and what it did, in order; the properties are
 statements about the log.
 */
module ECallModel {
  import opened Common

  datatype CallState = Dialing | Active | Ended | Incoming | Waiting | OtherState

  datatype Call = Call(phone: int, index: int, state: CallState, emergency: bool)

  /** What a start is asked for: a standard eCall with a variant, or one to a dialled number. */
  datatype Params =
    | Standard(transmitMsd: bool, msdData: int, msdPdu: seq<int>, category: int, variant: int)
    | Custom(transmitMsd: bool, msdData: int, msdPdu: seq<int>, category: int, dialNumber: string)

  datatype MsdStatus = MsdSuccess | MsdFailure | MsdOther(code: int)

  datatype Info = Info(params: Params, scanFailed: bool, trigger: bool, msd: MsdStatus)

  /** An entry that the map creates by itself is all zeros, and zero is the success status. */
  const DEFAULT_INFO := Info(Standard(false, 0, [], 0, 0), false, false, MsdSuccess)

  const INVALID_SLOT_ID := -1

  datatype T9Event = T9Started | T9StoppedOrExpired | T9Unchanged

  datatype Reason = MaxRedialAttempted | CallConnected | OtherReason

  datatype Event =
    | Started(slot: int, params: Params)
    | Restart(slot: int, params: Params, ok: bool)
    | DialStopped
    | RedialReport(will: bool)
    | AutoHangup(slot: int)
    | Hangup(slot: int, index: int, found: bool)
    | OnConnect(slot: int)
    | OnDisconnect
    | CacheCleared
    | ScanFailed(slot: int)
    | HighCapability(slot: int)
    | MsdReport(slot: int, status: MsdStatus)
    | Erased(slot: int)
    | SwitchAsked(slot: int)
    | T9Running
    | T9Over
    | AnswerWindowOver
    | AutoAnswered(slot: int)

  /** The call that is tracked, and what the application was told. */
  datatype Calls = Calls(eCall: Option<Call>, inProgress: bool, isPrivate: bool, incoming: bool, listening: bool)

  /** The dial-duration timer and the redial flags of an ERA-GLONASS eCall. */
  datatype Dial = Dial(timedOut: bool, stopped: bool, willRedial: bool, disconnectNext: bool, clearECall: bool)

  /** Whether a call back from the PSAP is answered automatically: T9 runs and its window is not over. */
  datatype CallBack = CallBack(t9Active: bool, windowOver: bool)

  datatype Client = Client(era: bool, calls: Calls, dial: Dial, callBack: CallBack, data: map<int, Info>, log: seq<Event>)

  function Initial(era: bool): Client {
    Client(era, Calls(None, false, false, false, false), Dial(false, false, false, false, false), CallBack(false, false), map[], [])
  }

  function Emit(c: Client, e: Event): Client {
    c.(log := c.log + [e])
  }

  function Tell(c: Client, e: Event): Client {
    if c.calls.listening then Emit(c, e) else c
  }

  /** Ending the progress state also ends a private eCall. */
  function Progress(calls: Calls, state: bool): Calls {
    calls.(inProgress := state, isPrivate := calls.isPrivate && state)
  }

  // ---- Starting, answering, hanging up ----

  /** A standard eCall begins with a fresh timer and no redial; whether to clear the cache is kept. */
  function FreshDial(dial: Dial): Dial {
    Dial(false, false, false, false, dial.clearECall)
  }

  /** A standard or custom-number start whose request was sent or refused. */
  function StartECall(c: Client, phone: int, params: Params, sent: bool, listener: bool): Client {
    if !sent then c.(calls := c.calls.(inProgress := false, isPrivate := false))
    else Client(c.era,
                c.calls.(inProgress := true, isPrivate := false, listening := listener),
                if c.era && params.Standard? then FreshDial(c.dial) else c.dial,
                if c.era && params.Standard? then CallBack(false, false) else c.callBack,
                c.data[phone := Info(params, false, false, MsdFailure)],
                c.log + [Started(phone, params)])
  }

  /** Self-test and IMS starts keep no data for a restart. */
  function StartOther(c: Client, ims: bool, sent: bool): Client {
    if sent then c.(calls := c.calls.(inProgress := true, isPrivate := c.calls.isPrivate || ims, listening := true))
    else c.(calls := Progress(c.calls, false))
  }

  predicate Matches(call: Call, phone: int, index: int) {
    call.phone == phone && call.state != Ended && (index == -1 || call.index == index)
  }

  function HangUp(c: Client, phone: int, index: int, live: seq<Call>): Client {
    var found := exists i :: 0 <= i < |live| && Matches(live[i], phone, index);
    var dial := if !found && c.era then c.dial.(disconnectNext := c.dial.willRedial) else c.dial;
    c.(dial := dial, log := c.log + [Hangup(phone, index, found)])
  }

  predicate Answerable(call: Call, phone: int) {
    (call.state == Incoming || call.state == Waiting) && call.phone == phone
  }

  /** The first call in the list that can be answered. */
  function FirstAnswerable(live: seq<Call>, phone: int): Option<Call> {
    if live == [] then None
    else if Answerable(live[0], phone) then Some(live[0])
    else FirstAnswerable(live[1..], phone)
  }

  function AnswerCall(c: Client, phone: int, live: seq<Call>, ok: bool): Client {
    match FirstAnswerable(live, phone)
    case None => c
    case Some(call) =>
      if ok then c.(calls := c.calls.(eCall := Some(call), incoming := true, listening := true, inProgress := true))
      else c.(calls := c.calls.(eCall := None, incoming := false, inProgress := false, isPrivate := false))
  }

  /** An incoming call in ERA-GLONASS mode is answered while T9 runs and the answer window is open. */
  function OnIncomingCall(c: Client, phone: int, live: seq<Call>, ok: bool): Client {
    if c.era && !c.callBack.windowOver && c.callBack.t9Active
    then AnswerCall(Emit(c, AutoAnswered(phone)), phone, live, ok)
    else c
  }

  function OnT9(c: Client, event: T9Event): Client {
    if !c.era || event == T9Unchanged then c
    else if event == T9Started then c.(callBack := c.callBack.(t9Active := true), log := c.log + [T9Running])
    else c.(callBack := c.callBack.(t9Active := false), log := c.log + [T9Over])
  }

  /** The answer window ends by time only while T9 is still running. */
  function AnswerWindowElapses(c: Client): Client {
    if !c.callBack.t9Active then c
    else c.(callBack := c.callBack.(windowOver := true), log := c.log + [AnswerWindowOver])
  }

  function AnswerFailed(c: Client): Client {
    Tell(c, OnDisconnect).(calls := c.calls.(eCall := None, inProgress := false, isPrivate := false, listening := false))
  }

  function MakeCallResponse(c: Client, ok: bool, call: Call): Client {
    if ok then c.(calls := c.calls.(eCall := Some(call)))
    else Tell(c, OnDisconnect).(calls := Progress(c.calls, false))
  }

  // ---- Call state changes ----

  /** An emergency call that is not tracked yet becomes the tracked one. */
  function Track(c: Client, call: Call): Client {
    if c.calls.eCall.None? then c.(calls := c.calls.(eCall := Some(call))) else c
  }

  function OnDialing(c: Client, call: Call, live: seq<Call>): Client {
    if !call.emergency then Tell(c, OnConnect(call.phone)).(calls := Progress(c.calls, false))
    else if c.era && c.dial.disconnectNext then HangUp(Track(c, call), call.phone, call.index, live)
    else if c.calls.eCall.None? then Tell(c, OnConnect(call.phone)).(calls := Progress(Track(c, call).calls, true))
    else c
  }

  function StopDial(c: Client): Client {
    c.(dial := c.dial.(stopped := true), log := c.log + [DialStopped])
  }

  predicate Tracked(c: Client, call: Call) {
    c.calls.eCall.Some? && c.calls.eCall.value.index == call.index && c.calls.eCall.value.phone == call.phone
  }

  function TrackedEnded(c: Client): Client {
    Tell(c, OnDisconnect).(calls := Progress(c.calls, false).(incoming := false))
  }

  function ClearCache(c: Client): Client {
    c.(calls := c.calls.(eCall := None), dial := c.dial.(clearECall := false), log := c.log + [CacheCleared])
  }

  function OnEnded(c: Client, call: Call): Client {
    if !call.emergency && !c.calls.incoming then Tell(c, OnDisconnect)
    else if !Tracked(c, call) then c
    else if c.era && (!c.dial.willRedial || c.dial.clearECall) then ClearCache(TrackedEnded(c))
    else TrackedEnded(c)
  }

  function OnCallInfoChange(c: Client, call: Call, live: seq<Call>): Client {
    match call.state
    case Dialing => OnDialing(c, call, live)
    case Active => if c.era then StopDial(c) else c
    case Ended => OnEnded(c, call)
    case _ => c
  }

  function OnECallRedial(c: Client, will: bool, reason: Reason): Client {
    if !c.era then c
    else
      var told := Emit(c.(dial := c.dial.(willRedial := will)), RedialReport(will));
      if !will && (reason == MaxRedialAttempted || reason == CallConnected) then StopDial(told) else told
  }

  // ---- The dial-duration timer ----

  function SetTimedOut(c: Client, timedOut: bool): Client {
    c.(dial := c.dial.(timedOut := timedOut))
  }

  function AutoHangUp(c: Client, phone: int, live: seq<Call>): Client {
    if c.dial.stopped || !c.dial.timedOut then c
    else if c.calls.eCall.None? then SetTimedOut(c, false)
    else
      var hung := HangUp(Emit(c, AutoHangup(phone)), phone, c.calls.eCall.value.index, live);
      hung.(dial := hung.dial.(clearECall := true, timedOut := false))
  }

  // ---- Scan failures ----

  function Entry(c: Client, slot: int): Info {
    if slot in c.data then c.data[slot] else DEFAULT_INFO
  }

  function Erase(c: Client, slot: int): Client {
    Emit(c.(data := c.data - {slot}), Erased(slot))
  }

  function OnMsdStatus(c: Client, slot: int, status: MsdStatus): Client {
    Emit(c.(data := c.data[slot := Entry(c, slot).(msd := status)]), MsdReport(slot, status))
  }

  function OnScanFail(c: Client, slot: int, requestSent: bool): Client {
    var c := Emit(c.(data := c.data[slot := Entry(c, slot).(scanFailed := true)]), ScanFailed(slot));
    if requestSent then c else Erase(c, slot)
  }

  function SetHighCapability(c: Client, slot: int, sent: bool): Client {
    var asked := Emit(c, SwitchAsked(slot));
    if sent then asked else Erase(asked, slot)
  }

  lemma NoMemberMeansEmpty(s: set<int>)
    requires forall x :: x !in s
    ensures s == {}
  {
    var empty: set<int> := {};
    assert forall x :: x in s <==> x in empty;
  }

  lemma NonEmptyHasMember(s: set<int>)
    requires s != {}
    ensures exists x :: x in s
  {
    if !exists x :: x in s {
      NoMemberMeansEmpty(s);
    }
  }

  ghost function Least(s: set<int>): (m: int)
    requires s != {}
    ensures m in s && forall x :: x in s ==> m <= x
  {
    NonEmptyHasMember(s);
    var x :| x in s;
    if s == {x} then x
    else
      assert s == {x} + (s - {x});
      var m := Least(s - {x});
      if x <= m then x else m
  }

  /** The first slot, in key order, with a failed scan. */
  ghost function FailedSlot(data: map<int, Info>): int {
    var failed := set slot | slot in data && data[slot].scanFailed;
    if failed == {} then INVALID_SLOT_ID else Least(failed)
  }

  function Trigger(c: Client, slot: int, highSlot: int): Client
    requires slot in c.data
  {
    c.(data := c.data[slot := c.data[slot].(trigger := true)], log := c.log + [HighCapability(highSlot)])
  }

  /** Hang up first if the eCall is still up, otherwise ask for the switch at once. */
  function SwitchOver(c: Client, slot: int, live: seq<Call>, switchSent: bool): Client {
    if !c.calls.inProgress then SetHighCapability(c, slot, switchSent)
    else if c.calls.eCall.Some? then HangUp(c, c.calls.eCall.value.phone, c.calls.eCall.value.index, live)
    else c
  }

  ghost function OnHighCapability(c: Client, highSlot: int, ok: bool, live: seq<Call>, switchSent: bool): Client {
    if !ok then
      if c.calls.inProgress && c.calls.eCall.Some? then Erase(c, c.calls.eCall.value.phone) else c
    else
      var slot := FailedSlot(c.data);
      if slot == INVALID_SLOT_ID then Emit(c, HighCapability(highSlot))
      else if highSlot == slot then Erase(Emit(c, HighCapability(highSlot)), slot)
      else SwitchOver(Trigger(c, slot, highSlot), slot, live, switchSent)
  }

  function HandlerCallInfo(c: Client, call: Call, switchSent: bool): Client {
    if call.state == Ended && !c.calls.inProgress && call.phone in c.data && c.data[call.phone].trigger
    then SetHighCapability(c, call.phone, switchSent)
    else c
  }

  predicate Restarts(info: Info) {
    info.trigger && info.msd == MsdSuccess
  }

  /** `sentOn`: the slots on which the request to make the call is sent successfully. */
  function RestartOne(c: Client, slot: int, sentOn: set<int>): (r: Client)
    requires slot in c.data
    ensures r.data.Keys == c.data.Keys
  {
    var info := c.data[slot];
    if Restarts(info)
    then StartECall(Emit(c, Restart(slot, info.params, slot in sentOn)), slot, info.params, slot in sentOn, false)
    else c
  }

  ghost function RestartAll(c: Client, slots: set<int>, sentOn: set<int>): Client
    requires slots <= c.data.Keys
    decreases |slots|
  {
    if slots == {} then c
    else
      var slot := Least(slots);
      RestartAll(RestartOne(c, slot, sentOn), slots - {slot}, sentOn)
  }

  // ---- Steps ----

  datatype Step =
    | Start(phone: int, params: Params, sent: bool, listener: bool)
    | StartSelfTestOrIms(ims: bool, sent: bool)
    | MakeResponse(ok: bool, call: Call)
    | CallInfo(call: Call, live: seq<Call>)
    | Redial(will: bool, reason: Reason)
    | TimerBegins
    | TimerRunsOut
    | TimerDone(phone: int, live: seq<Call>)
    | UserHangup(phone: int, index: int, live: seq<Call>)
    | Answer(phone: int, live: seq<Call>, ok: bool)
    | AnswerRefused
    | IncomingCall(phone: int, live: seq<Call>, ok: bool)
    | HlapTimer(t9: T9Event)
    | AnswerTimerRunsOut
    | MsdStatusReport(slot: int, status: MsdStatus)
    | ScanFail(slot: int, requestSent: bool)
    | HighCapabilityAnswer(highSlot: int, ok: bool, live: seq<Call>, switchSent: bool)
    | HandlerInfo(call: Call, switchSent: bool)
    | SwitchDone(ok: bool, sentOn: set<int>)

  ghost function Apply(c: Client, step: Step): Client {
    match step
    case Start(phone, params, sent, listener) => StartECall(c, phone, params, sent, listener)
    case StartSelfTestOrIms(ims, sent) => StartOther(c, ims, sent)
    case MakeResponse(ok, call) => MakeCallResponse(c, ok, call)
    case CallInfo(call, live) => OnCallInfoChange(c, call, live)
    case Redial(will, reason) => OnECallRedial(c, will, reason)
    case TimerBegins => SetTimedOut(c, false)
    case TimerRunsOut => if c.dial.stopped then c else SetTimedOut(c, true)
    case TimerDone(phone, live) => AutoHangUp(c, phone, live)
    case UserHangup(phone, index, live) => HangUp(c, phone, index, live)
    case Answer(phone, live, ok) => AnswerCall(c, phone, live, ok)
    case AnswerRefused => AnswerFailed(c)
    case IncomingCall(phone, live, ok) => OnIncomingCall(c, phone, live, ok)
    case HlapTimer(t9) => OnT9(c, t9)
    case AnswerTimerRunsOut => AnswerWindowElapses(c)
    case MsdStatusReport(slot, status) => OnMsdStatus(c, slot, status)
    case ScanFail(slot, requestSent) => OnScanFail(c, slot, requestSent)
    case HighCapabilityAnswer(highSlot, ok, live, switchSent) => OnHighCapability(c, highSlot, ok, live, switchSent)
    case HandlerInfo(call, switchSent) => HandlerCallInfo(c, call, switchSent)
    case SwitchDone(ok, sentOn) => if ok then RestartAll(c, c.data.Keys, sentOn) else c
  }

  ghost function Run(c: Client, steps: seq<Step>): Client {
    if steps == [] then c else Apply(Run(c, steps[..|steps| - 1]), steps[|steps| - 1])
  }
}
