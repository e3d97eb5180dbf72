/**
 The power event queue as a state machine: one step per push and per callback of the
 TCU-activity manager. `Apply` says what a step does to the queue, to the statuses, to the
 command sent to the manager and to the wake lock; the histories record what was pushed,
 accepted, commanded and settled. Class EventManager is proved to take exactly these steps.
 */
module PowerEventModel {

  import opened Common

  datatype TcuActivityState = Unknown | Suspend | Resume | Shutdown

  datatype TriggerType = NaoIp | Sms | Gpio | Can | AnyTrigger

  datatype EventStatus =
    | Initialized | InQueue | InProgress
    | RejectedInvalidMachineName | RejectedOverridden
    | Failed | FailedTimeout | Succeed

  /** The unchanging part of an event. */
  datatype EventInfo = EventInfo(id: nat, state: TcuActivityState, machine: string, trigger: TriggerType)

  /** A command sent to the TCU-activity manager whose completion has not come yet. */
  datatype Command = Command(event: EventInfo, awaitingAck: bool)

  /** How an event left the queue, and under which trigger type its listeners were called. */
  datatype Outcome = Rejected | Processed(success: bool)
  datatype Settlement = Settlement(event: EventInfo, status: EventStatus, outcome: Outcome, route: TriggerType)

  datatype Scheduler = Scheduler(
    queue: seq<EventInfo>,
    status: map<EventInfo, EventStatus>,
    inFlight: seq<Command>,
    wakeLock: bool,
    pushed: seq<EventInfo>,
    accepted: seq<EventInfo>,
    issued: seq<TcuActivityState>,
    settled: seq<Settlement>)

  const ALL_MACHINES := "ALL_MACHINES"

  const EMPTY := Scheduler([], map[], [], false, [], [], [], [])

  /** What the slaves answered: all acknowledged, timed out, or anything else. */
  datatype AckReport = AckSuccess | AckExpired | AckOther

  datatype Step =
    | Push(event: EventInfo, machines: Option<seq<string>>, serviceUp: bool)
    | CommandFailed(index: nat)
    | CommandOk(index: nat)
    | SlaveAck(index: nat, report: AckReport)

  predicate Terminal(status: EventStatus) {
    !(status.Initialized? || status.InQueue? || status.InProgress?)
  }

  // ---- Queue operations ----

  /** Length of the longest prefix of events that ask for `state`. */
  function Block(q: seq<EventInfo>, state: TcuActivityState): (n: nat)
    ensures n <= |q|
    ensures forall i :: 0 <= i < n ==> q[i].state == state
    ensures n < |q| ==> q[n].state != state
  {
    if q == [] || q[0].state != state then 0 else 1 + Block(q[1..], state)
  }

  /** The events asking for one of two states, in order. */
  function Kept(q: seq<EventInfo>, a: TcuActivityState, b: TcuActivityState): seq<EventInfo> {
    if q == [] then []
    else if Last(q).state == a || Last(q).state == b then Kept(q[..|q| - 1], a, b) + [Last(q)]
    else Kept(q[..|q| - 1], a, b)
  }

  /** The events asking for neither, in order. */
  function Dropped(q: seq<EventInfo>, a: TcuActivityState, b: TcuActivityState): seq<EventInfo> {
    if q == [] then []
    else if Last(q).state == a || Last(q).state == b then Dropped(q[..|q| - 1], a, b)
    else Dropped(q[..|q| - 1], a, b) + [Last(q)]
  }

  function MarkAll(m: map<EventInfo, EventStatus>, events: seq<EventInfo>, status: EventStatus): map<EventInfo, EventStatus> {
    m + (map e | e in events :: status)
  }

  /** Settlements of events that share a status, an outcome and a notification route. */
  function SettleAs(events: seq<EventInfo>, status: EventStatus, outcome: Outcome, route: TriggerType): seq<Settlement> {
    seq(|events|, i requires 0 <= i < |events| => Settlement(events[i], status, outcome, route))
  }

  /** Settlements of rejected events, each routed by its own trigger type. */
  function RejectAll(events: seq<EventInfo>, status: EventStatus): seq<Settlement> {
    seq(|events|, i requires 0 <= i < |events| => Settlement(events[i], status, Rejected, events[i].trigger))
  }

  // ---- Steps ----

  function Reject(s: Scheduler, e: EventInfo, status: EventStatus): Scheduler {
    s.(status := s.status[e := status], settled := s.settled + RejectAll([e], status))
  }

  function Issue(s: Scheduler): Scheduler
    requires s.queue != []
  {
    s.(inFlight := s.inFlight + [Command(s.queue[0], false)], issued := s.issued + [s.queue[0].state])
  }

  function Enqueue(s: Scheduler, e: EventInfo): Scheduler
    requires s.queue != []
  {
    var dropped := Dropped(s.queue, e.state, s.queue[0].state);
    s.(queue := Kept(s.queue, e.state, s.queue[0].state) + [e],
       status := MarkAll(s.status, dropped, RejectedOverridden)[e := InQueue],
       settled := s.settled + RejectAll(dropped, RejectedOverridden),
       accepted := s.accepted + [e])
  }

  predicate MachineKnown(machine: string, machines: Option<seq<string>>) {
    machines.Some? ==> machine in machines.value || machine == ALL_MACHINES
  }

  function Admitted(s: Scheduler, e: EventInfo): Scheduler {
    s.(pushed := s.pushed + [e], status := s.status[e := Initialized])
  }

  function Decide(s: Scheduler, e: EventInfo, machines: Option<seq<string>>, serviceUp: bool): Scheduler {
    if !MachineKnown(e.machine, machines) then Reject(s, e, RejectedInvalidMachineName)
    else if s.queue != [] then Enqueue(s, e)
    else if !serviceUp then Reject(s, e, Failed)
    else Issue(s.(wakeLock := true, queue := [e], accepted := s.accepted + [e]))
  }

  function ApplyPush(s: Scheduler, e: EventInfo, machines: Option<seq<string>>, serviceUp: bool): Scheduler {
    Decide(Admitted(s, e), e, machines, serviceUp)
  }

  /** Settles the head block: processed successfully, or overridden if the newest event differs. */
  function SettleHead(s: Scheduler, status: EventStatus): Scheduler
    requires s.queue != []
  {
    var head := s.queue[0];
    var n := Block(s.queue, head.state);
    var overridden := Last(s.queue).state != head.state;
    var verdict := if overridden then RejectedOverridden else status;
    s.(queue := s.queue[n..],
       status := MarkAll(s.status, s.queue[..n], verdict),
       settled := s.settled + SettleAs(s.queue[..n], verdict, Processed(!overridden), head.trigger))
  }

  function StartNext(s: Scheduler): Scheduler {
    if s.queue != [] then Issue(s) else s.(wakeLock := false)
  }

  /** The common end of every completion: settle the head block, start the next one. */
  function ProcessHead(s: Scheduler, status: EventStatus): Scheduler {
    if s.queue == [] then s else StartNext(SettleHead(s, status))
  }

  function Retire(s: Scheduler, index: nat): Scheduler
    requires index < |s.inFlight|
  {
    s.(inFlight := s.inFlight[..index] + s.inFlight[index + 1..])
  }

  function ReportStatus(report: AckReport): EventStatus {
    match report
    case AckSuccess => Succeed
    case AckExpired => FailedTimeout
    case AckOther => Failed
  }

  /** Each command is answered once, and acknowledged once if it was a successful non-RESUME one. */
  predicate Enabled(s: Scheduler, step: Step) {
    match step
    case Push(e, _, _) => e !in s.pushed
    case CommandFailed(i) => i < |s.inFlight| && !s.inFlight[i].awaitingAck
    case CommandOk(i) => i < |s.inFlight| && !s.inFlight[i].awaitingAck
    case SlaveAck(i, _) => i < |s.inFlight| && s.inFlight[i].awaitingAck
  }

  function Apply(s: Scheduler, step: Step): Scheduler
    requires Enabled(s, step)
  {
    match step
    case Push(e, machines, serviceUp) => ApplyPush(s, e, machines, serviceUp)
    case CommandFailed(i) => ProcessHead(Retire(s, i), Failed)
    case CommandOk(i) =>
      var e := s.inFlight[i].event;
      if e.state.Resume? then ProcessHead(Retire(s, i), Succeed).(wakeLock := false)
      else s.(inFlight := s.inFlight[i := Command(e, true)], status := s.status[e := InProgress])
    case SlaveAck(i, report) => ProcessHead(Retire(s, i), ReportStatus(report))
  }

  /** From `s` the step leads to `s'`. */
  predicate Takes(s: Scheduler, step: Step, s': Scheduler) {
    Enabled(s, step) && s' == Apply(s, step)
  }

  /** A step that ends the command in flight. */
  predicate IsCompletion(s: Scheduler, step: Step)
    requires Enabled(s, step)
  {
    match step
    case Push(_, _, _) => false
    case CommandOk(i) => s.inFlight[i].event.state.Resume?
    case _ => true
  }

  /** A run: the states passed through, from the empty queue, and the steps between them. */
  ghost predicate IsRun(states: seq<Scheduler>, steps: seq<Step>) {
    && |states| == |steps| + 1
    && states[0] == EMPTY
    && forall i :: 0 <= i < |steps| ==> Enabled(states[i], steps[i]) && states[i + 1] == Apply(states[i], steps[i])
  }
}
