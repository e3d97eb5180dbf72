/**
 What every run of the power event queue keeps: the shape of the queue, one command in flight,
 conservation of events, the last request winning, a drain in at most two completions, and
 exactly when the wake lock is lost.
 */
module PowerEventProofs {
  import opened Common
  import opened PowerEventModel

  // ---- The shape of the queue ----

  /** A block of one state, then at most one block of one other state. */
  ghost predicate Shape(q: seq<EventInfo>) {
    q != [] ==> forall i :: Block(q, q[0].state) <= i < |q| ==> q[i].state == Last(q).state
  }

  lemma KeptLast(p: seq<EventInfo>, e: EventInfo, a: TcuActivityState, b: TcuActivityState)
    ensures var keep := e.state == a || e.state == b;
            && Kept(p + [e], a, b) == (if keep then Kept(p, a, b) + [e] else Kept(p, a, b))
            && Dropped(p + [e], a, b) == (if keep then Dropped(p, a, b) else Dropped(p, a, b) + [e])
  {
    assert (p + [e])[..|p|] == p;
  }

  lemma {:induction false} AllKept(q: seq<EventInfo>, a: TcuActivityState, b: TcuActivityState)
    requires forall i :: 0 <= i < |q| ==> q[i].state == a || q[i].state == b
    ensures Kept(q, a, b) == q && Dropped(q, a, b) == []
  {
    if q == [] {
    } else {
      AllKept(q[..|q| - 1], a, b);
      assert q == q[..|q| - 1] + [Last(q)];
    }
  }

  lemma SnocAfter(p: seq<EventInfo>, tail: seq<EventInfo>)
    requires tail != []
    ensures p + tail == (p + tail[..|tail| - 1]) + [Last(tail)]
  {
  }

  lemma {:induction false} TailDropped(p: seq<EventInfo>, tail: seq<EventInfo>, a: TcuActivityState, b: TcuActivityState)
    requires forall i :: 0 <= i < |tail| ==> tail[i].state != a && tail[i].state != b
    ensures Kept(p + tail, a, b) == Kept(p, a, b) && Dropped(p + tail, a, b) == Dropped(p, a, b) + tail
  {
    if tail == [] {
      assert p + tail == p;
    } else {
      hide Kept, Dropped;
      var front, e := tail[..|tail| - 1], Last(tail);
      TailDropped(p, front, a, b);
      KeptLast(p + front, e, a, b);
      SnocAfter(p, tail);
      SnocAfter(Dropped(p, a, b), tail);
    }
  }

  lemma KeptSplit(q: seq<EventInfo>, n: nat, a: TcuActivityState, b: TcuActivityState)
    requires n <= |q|
    requires forall i :: 0 <= i < n ==> q[i].state == a || q[i].state == b
    requires forall i :: n <= i < |q| ==> q[i].state != a && q[i].state != b
    ensures Kept(q, a, b) == q[..n]
    ensures Dropped(q, a, b) == q[n..]
  {
    hide Kept, Dropped;
    AllKept(q[..n], a, b);
    TailDropped(q[..n], q[n..], a, b);
    assert q == q[..n] + q[n..];
  }

  /** The override loop takes out the whole trailing block or nothing; the head always stays. */
  lemma OverrideKeepsHeadBlock(q: seq<EventInfo>, newState: TcuActivityState)
    requires q != [] && Shape(q)
    ensures var n := if newState == Last(q).state then |q| else Block(q, q[0].state);
            && 1 <= n
            && Kept(q, newState, q[0].state) == q[..n]
            && Dropped(q, newState, q[0].state) == q[n..]
  {
    var head := q[0].state;
    var n := if newState == Last(q).state then |q| else Block(q, head);
    assert forall i :: n <= i < |q| ==> q[i].state == Last(q).state;
    assert n < |q| ==> q[n].state != head;
    KeptSplit(q, n, newState, head);
  }

  lemma {:induction false} BlockOfPrefix(q: seq<EventInfo>, state: TcuActivityState, n: nat)
    requires n <= |q|
    requires forall i :: 0 <= i < n ==> q[i].state == state
    requires n < |q| ==> q[n].state != state
    ensures Block(q, state) == n
  {
  }

  /** Two stretches of equal state make a good shape. */
  lemma TwoStretches(q: seq<EventInfo>, k: nat)
    requires 1 <= k <= |q|
    requires forall i :: 0 <= i < k ==> q[i].state == q[0].state
    requires forall i :: k <= i < |q| ==> q[i].state == Last(q).state
    ensures Shape(q)
  {
    hide Block;
    assert Block(q, q[0].state) >= k;
  }

  lemma AppendKeepsShape(q: seq<EventInfo>, n: nat, e: EventInfo)
    requires q != [] && Shape(q)
    requires n == if e.state == Last(q).state then |q| else Block(q, q[0].state)
    ensures Shape(q[..n] + [e])
  {
    hide Block;
    var k := Block(q, q[0].state);
    var r := q[..n] + [e];
    assert 1 <= k <= n;
    assert r[0] == q[0] && Last(r) == e;
    assert forall i :: 0 <= i < k ==> r[i] == q[i];
    assert forall i :: k <= i < n ==> r[i] == q[i];
    TwoStretches(r, k);
  }

  lemma TailKeepsShape(q: seq<EventInfo>)
    requires q != [] && Shape(q)
    ensures var r := q[Block(q, q[0].state)..];
            r != [] ==> Last(r) == Last(q) && Block(r, r[0].state) == |r|
  {
    var r := q[Block(q, q[0].state)..];
    if r != [] {
      BlockOfPrefix(r, r[0].state, |r|);
    }
  }

  // ---- The control invariant ----

  ghost predicate ControlInv(s: Scheduler) {
    && Shape(s.queue)
    && (s.queue == [] ==> s.inFlight == [] && !s.wakeLock)
    && (s.queue == [] && s.accepted != [] ==> s.issued != [] && Last(s.issued) == Last(s.accepted).state)
    && (s.queue != [] ==>
          && |s.inFlight| == 1 && s.inFlight[0].event == s.queue[0]
          && s.issued != [] && Last(s.issued) == s.queue[0].state
          && s.accepted != [] && Last(s.accepted) == Last(s.queue))
  }

  lemma ProcessKeepsControl(s: Scheduler, index: nat, status: EventStatus)
    requires ControlInv(s) && index < |s.inFlight|
    ensures ControlInv(ProcessHead(Retire(s, index), status))
  {
    assert Retire(s, index).inFlight == [];
    TailKeepsShape(s.queue);
  }

  lemma EnqueueKeepsControl(s: Scheduler, e: EventInfo)
    requires ControlInv(s) && s.queue != []
    ensures ControlInv(Enqueue(s, e))
  {
    OverrideKeepsHeadBlock(s.queue, e.state);
    var n := if e.state == Last(s.queue).state then |s.queue| else Block(s.queue, s.queue[0].state);
    AppendKeepsShape(s.queue, n, e);
  }

  lemma PushKeepsControl(s: Scheduler, e: EventInfo, machines: Option<seq<string>>, serviceUp: bool)
    requires ControlInv(s)
    ensures ControlInv(ApplyPush(s, e, machines, serviceUp))
  {
    if s.queue != [] {
      EnqueueKeepsControl(s.(pushed := s.pushed + [e], status := s.status[e := Initialized]), e);
    }
  }

  lemma StepKeepsControl(s: Scheduler, step: Step)
    requires ControlInv(s) && Enabled(s, step)
    ensures ControlInv(Apply(s, step))
  {
    match step
    case Push(e, machines, serviceUp) => PushKeepsControl(s, e, machines, serviceUp);
    case CommandFailed(i) => ProcessKeepsControl(s, i, Failed);
    case CommandOk(i) => if s.inFlight[i].event.state.Resume? { ProcessKeepsControl(s, i, Succeed); }
    case SlaveAck(i, report) => ProcessKeepsControl(s, i, ReportStatus(report));
  }

  // ---- The ledger: every pushed event is queued or settled, once ----

  ghost function Events(t: seq<Settlement>): seq<EventInfo> {
    seq(|t|, i requires 0 <= i < |t| => t[i].event)
  }

  type Statuses = map<EventInfo, EventStatus>

  /** Every pushed event is queued or settled, once. */
  ghost predicate Counts(pushed: seq<EventInfo>, queue: seq<EventInfo>, settled: seq<Settlement>) {
    && multiset(pushed) == multiset(queue) + multiset(Events(settled))
    && (forall e :: multiset(pushed)[e] <= 1)
  }

  /** Queued events are unsettled by their status, settled ones keep the status they were settled with. */
  ghost predicate Marks(queue: seq<EventInfo>, settled: seq<Settlement>, status: Statuses) {
    && (forall e :: e in queue ==> e in status && !Terminal(status[e]))
    && (forall i :: 0 <= i < |settled| ==> Agrees(status, settled[i]))
  }

  ghost predicate Books(pushed: seq<EventInfo>, queue: seq<EventInfo>, settled: seq<Settlement>, status: Statuses) {
    Counts(pushed, queue, settled) && Marks(queue, settled, status)
  }

  /** The event still has the terminal status it was settled with. */
  ghost predicate Agrees(status: Statuses, t: Settlement) {
    t.event in status && status[t.event] == t.status && Terminal(t.status)
  }

  ghost predicate Ledger(s: Scheduler) {
    Books(s.pushed, s.queue, s.settled, s.status)
  }

  lemma QueuedIsNotSettled(pushed: seq<EventInfo>, queue: seq<EventInfo>, settled: seq<Settlement>, status: Statuses)
    requires Books(pushed, queue, settled, status)
    ensures forall i :: 0 <= i < |settled| ==> settled[i].event !in queue && settled[i].event in pushed
    ensures forall e :: e in queue ==> e in pushed
  {
    forall i | 0 <= i < |settled|
      ensures settled[i].event !in queue && settled[i].event in pushed
    {
      var e := settled[i].event;
      assert e == Events(settled)[i];
      assert multiset(queue)[e] + multiset(Events(settled))[e] == multiset(pushed)[e];
    }
    forall e | e in queue ensures e in pushed {
      assert e in multiset(pushed);
    }
  }

  lemma SettlingKeepsCounts(pushed: seq<EventInfo>, queue: seq<EventInfo>, settled: seq<Settlement>,
                            rest: seq<EventInfo>, gone: seq<EventInfo>, t: seq<Settlement>)
    requires Counts(pushed, queue, settled)
    requires multiset(queue) == multiset(rest) + multiset(gone)
    requires |t| == |gone| && forall i :: 0 <= i < |t| ==> t[i].event == gone[i]
    ensures Counts(pushed, rest, settled + t)
    ensures forall e :: e in gone ==> e in queue && e !in rest
    ensures forall e :: e in rest ==> e in queue
  {
    assert Events(t) == gone;
    assert Events(settled + t) == Events(settled) + Events(t);
    forall e | e in gone ensures e in queue && e !in rest {
      assert e in multiset(gone);
      assert multiset(queue)[e] <= multiset(pushed)[e];
    }
    forall e | e in rest ensures e in queue {
      assert e in multiset(rest) && multiset(rest)[e] <= multiset(queue)[e];
    }
  }

  /** Settling the part `gone` of the queue, `rest` staying, keeps the books. */
  lemma SettlingKeepsBooks(pushed: seq<EventInfo>, queue: seq<EventInfo>, settled: seq<Settlement>, status: Statuses,
                           rest: seq<EventInfo>, gone: seq<EventInfo>, t: seq<Settlement>, verdict: EventStatus)
    requires Books(pushed, queue, settled, status) && Terminal(verdict)
    requires multiset(queue) == multiset(rest) + multiset(gone)
    requires |t| == |gone| && forall i :: 0 <= i < |t| ==> t[i].event == gone[i] && t[i].status == verdict
    ensures Books(pushed, rest, settled + t, MarkAll(status, gone, verdict))
  {
    QueuedIsNotSettled(pushed, queue, settled, status);
    SettlingKeepsCounts(pushed, queue, settled, rest, gone, t);
    hide Counts;
  }

  /** A new event joins the queue with a status that is not terminal. */
  lemma JoiningKeepsBooks(pushed: seq<EventInfo>, queue: seq<EventInfo>, settled: seq<Settlement>, status: Statuses,
                          e: EventInfo, mark: EventStatus)
    requires Books(pushed, queue, settled, status)
    requires e !in pushed && !Terminal(mark)
    ensures Books(pushed + [e], queue + [e], settled, status[e := mark])
  {
    QueuedIsNotSettled(pushed, queue, settled, status);
    assert e !in multiset(pushed);
  }

  lemma RejectedPushKeepsBooks(pushed: seq<EventInfo>, queue: seq<EventInfo>, settled: seq<Settlement>, status: Statuses,
                               e: EventInfo, verdict: EventStatus)
    requires Books(pushed, queue, settled, status)
    requires e !in pushed && Terminal(verdict)
    ensures Books(pushed + [e], queue, settled + RejectAll([e], verdict), status[e := Initialized][e := verdict])
  {
    JoiningKeepsBooks(pushed, queue, settled, status, e, Initialized);
    SettlingKeepsBooks(pushed + [e], queue + [e], settled, status[e := Initialized],
                       queue, [e], RejectAll([e], verdict), verdict);
    assert MarkAll(status[e := Initialized], [e], verdict) == status[e := Initialized][e := verdict];
  }

  lemma EnqueueKeepsBooks(pushed: seq<EventInfo>, queue: seq<EventInfo>, settled: seq<Settlement>, status: Statuses,
                          n: nat, e: EventInfo)
    requires Books(pushed, queue, settled, status)
    requires n <= |queue| && e !in pushed
    ensures Books(pushed + [e], queue[..n] + [e], settled + RejectAll(queue[n..], RejectedOverridden),
                  MarkAll(status[e := Initialized], queue[n..], RejectedOverridden)[e := InQueue])
  {
    assert queue == queue[..n] + queue[n..];
    var t := RejectAll(queue[n..], RejectedOverridden);
    SettlingKeepsBooks(pushed, queue, settled, status, queue[..n], queue[n..], t, RejectedOverridden);
    hide Books, MarkAll;
    JoiningKeepsBooks(pushed, queue[..n], settled + t, MarkAll(status, queue[n..], RejectedOverridden), e, InQueue);
    JoinedMark(status, queue[n..], e);
  }

  lemma JoinedMark(status: Statuses, gone: seq<EventInfo>, e: EventInfo)
    ensures MarkAll(status, gone, RejectedOverridden)[e := InQueue]
         == MarkAll(status[e := Initialized], gone, RejectedOverridden)[e := InQueue]
  {
  }

  lemma PushKeepsLedger(s: Scheduler, e: EventInfo, machines: Option<seq<string>>, serviceUp: bool)
    requires Ledger(s) && Shape(s.queue) && e !in s.pushed
    ensures Ledger(ApplyPush(s, e, machines, serviceUp))
  {
    hide Books;
    if !MachineKnown(e.machine, machines) {
      RejectedPushKeepsBooks(s.pushed, s.queue, s.settled, s.status, e, RejectedInvalidMachineName);
    } else if s.queue != [] {
      OverrideKeepsHeadBlock(s.queue, e.state);
      var n := if e.state == Last(s.queue).state then |s.queue| else Block(s.queue, s.queue[0].state);
      EnqueueKeepsBooks(s.pushed, s.queue, s.settled, s.status, n, e);
    } else if !serviceUp {
      RejectedPushKeepsBooks(s.pushed, s.queue, s.settled, s.status, e, Failed);
    } else {
      JoiningKeepsBooks(s.pushed, s.queue, s.settled, s.status, e, Initialized);
      assert s.queue + [e] == [e];
    }
  }

  lemma ProcessKeepsLedger(s: Scheduler, status: EventStatus)
    requires Ledger(s) && Terminal(status)
    ensures Ledger(ProcessHead(s, status))
  {
    hide Books;
    if s.queue != [] {
      var n := Block(s.queue, s.queue[0].state);
      var gone := s.queue[..n];
      assert s.queue == gone + s.queue[n..];
      var overridden := Last(s.queue).state != s.queue[0].state;
      var verdict := if overridden then RejectedOverridden else status;
      SettlingKeepsBooks(s.pushed, s.queue, s.settled, s.status, s.queue[n..], gone,
                         SettleAs(gone, verdict, Processed(!overridden), s.queue[0].trigger), verdict);
    }
  }

  /** Only the event in flight is marked in progress, and it is still queued. */
  lemma ProgressKeepsBooks(pushed: seq<EventInfo>, queue: seq<EventInfo>, settled: seq<Settlement>, status: Statuses)
    requires Books(pushed, queue, settled, status) && queue != []
    ensures Books(pushed, queue, settled, status[queue[0] := InProgress])
  {
    QueuedIsNotSettled(pushed, queue, settled, status);
  }

  lemma StepKeepsLedger(s: Scheduler, step: Step)
    requires Ledger(s) && ControlInv(s) && Enabled(s, step)
    ensures Ledger(Apply(s, step))
  {
    hide Books;
    match step
    case Push(e, machines, serviceUp) => PushKeepsLedger(s, e, machines, serviceUp);
    case CommandFailed(i) => ProcessKeepsLedger(Retire(s, i), Failed);
    case CommandOk(i) =>
      if s.inFlight[i].event.state.Resume? {
        ProcessKeepsLedger(Retire(s, i), Succeed);
      } else {
        ProgressKeepsBooks(s.pushed, s.queue, s.settled, s.status);
      }
    case SlaveAck(i, report) => ProcessKeepsLedger(Retire(s, i), ReportStatus(report));
  }

  // ---- Runs ----

  lemma {:induction false} RunKeepsInvariants(states: seq<Scheduler>, steps: seq<Step>, n: nat)
    requires IsRun(states, steps) && n < |states|
    ensures ControlInv(states[n]) && Ledger(states[n])
  {
    if n == 0 {
    } else {
      RunKeepsInvariants(states, steps, n - 1);
      StepKeepsControl(states[n - 1], steps[n - 1]);
      StepKeepsLedger(states[n - 1], steps[n - 1]);
    }
  }

  ghost predicate TwoBlocks(q: seq<EventInfo>, k: nat) {
    && 1 <= k <= |q|
    && (forall i :: 0 <= i < k ==> q[i].state == q[0].state)
    && (forall i :: k <= i < |q| ==> q[i].state == Last(q).state != q[0].state)
  }

  /** The queue is empty, or k >= 1 events of one state followed by events of one other state. */
  lemma QueueShape(states: seq<Scheduler>, steps: seq<Step>, n: nat)
    requires IsRun(states, steps) && n < |states|
    ensures states[n].queue == [] || exists k: nat :: TwoBlocks(states[n].queue, k)
  {
    RunKeepsInvariants(states, steps, n);
    var q := states[n].queue;
    if q != [] {
      var k := Block(q, q[0].state);
      assert k < |q| ==> q[k].state == Last(q).state;
      assert TwoBlocks(q, k);
    }
  }

  /** A push never takes the event in progress out of the queue, and an accepted one goes last. */
  lemma PushKeepsHead(states: seq<Scheduler>, steps: seq<Step>, n: nat)
    requires IsRun(states, steps) && n < |steps| && steps[n].Push? && states[n].queue != []
    ensures states[n + 1].queue != [] && states[n + 1].queue[0] == states[n].queue[0]
    ensures states[n + 1].inFlight == states[n].inFlight
    ensures MachineKnown(steps[n].event.machine, steps[n].machines) ==> Last(states[n + 1].queue) == steps[n].event
  {
    RunKeepsInvariants(states, steps, n);
    OverrideKeepsHeadBlock(states[n].queue, steps[n].event.state);
  }

  /** The queue is non-empty exactly when one command is outstanding, and it is the head's. */
  lemma OneCommandInFlight(states: seq<Scheduler>, steps: seq<Step>, n: nat)
    requires IsRun(states, steps) && n < |states|
    ensures states[n].queue != [] <==> states[n].inFlight != []
    ensures states[n].inFlight != [] ==> |states[n].inFlight| == 1 && states[n].inFlight[0].event == states[n].queue[0]
  {
    RunKeepsInvariants(states, steps, n);
  }

  ghost predicate DistinctEvents(ts: seq<Settlement>) {
    forall i, j :: 0 <= i < j < |ts| ==> ts[i].event != ts[j].event
  }

  lemma SettledOnce(pushed: seq<EventInfo>, queue: seq<EventInfo>, settled: seq<Settlement>, status: Statuses)
    requires Books(pushed, queue, settled, status)
    ensures DistinctEvents(settled)
  {
    var events := Events(settled);
    forall i, j | 0 <= i < j < |settled| ensures settled[i].event != settled[j].event {
      var e := events[i];
      assert multiset(pushed)[e] <= 1;
      assert events == events[..j] + events[j..];
      assert events[..j][i] == e && events[j..][0] == events[j];
    }
  }

  /** Every pushed event is queued or settled, and settled at most once. */
  lemma Conservation(states: seq<Scheduler>, steps: seq<Step>, n: nat)
    requires IsRun(states, steps) && n < |states|
    ensures multiset(states[n].pushed) == multiset(states[n].queue) + multiset(Events(states[n].settled))
    ensures DistinctEvents(states[n].settled)
    ensures forall i :: 0 <= i < |states[n].settled| ==> states[n].settled[i].event !in states[n].queue
  {
    RunKeepsInvariants(states, steps, n);
    var s := states[n];
    QueuedIsNotSettled(s.pushed, s.queue, s.settled, s.status);
    SettledOnce(s.pushed, s.queue, s.settled, s.status);
  }

  lemma SettledGrows(s: Scheduler, step: Step)
    requires Enabled(s, step)
    ensures s.settled <= Apply(s, step).settled
  {
  }

  /** Settlements are never undone, and a settled event keeps its terminal status for ever. */
  lemma {:induction false} SettledForGood(states: seq<Scheduler>, steps: seq<Step>, n: nat, m: nat)
    requires IsRun(states, steps) && n <= m < |states|
    ensures states[n].settled <= states[m].settled
    ensures forall i :: 0 <= i < |states[n].settled| ==>
              var t := states[n].settled[i];
              Terminal(t.status) && t.event in states[m].status && states[m].status[t.event] == t.status
  {
    hide ApplyPush, ProcessHead, ControlInv;
    RunKeepsInvariants(states, steps, m);
    if n == m {
    } else {
      SettledForGood(states, steps, n, m - 1);
      SettledGrows(states[m - 1], steps[m - 1]);
    }
    forall i | 0 <= i < |states[n].settled|
      ensures Agrees(states[m].status, states[n].settled[i])
    {
      assert states[n].settled[i] == states[m].settled[i];
    }
  }

  /** When the queue has drained, the last state commanded is that of the last accepted push. */
  lemma LastRequestWins(states: seq<Scheduler>, steps: seq<Step>, n: nat)
    requires IsRun(states, steps) && n < |states|
    requires states[n].queue == [] && states[n].accepted != []
    ensures states[n].issued != [] && Last(states[n].issued) == Last(states[n].accepted).state
  {
    RunKeepsInvariants(states, steps, n);
  }

  lemma ProcessReportsSuccessExactly(s: Scheduler, index: nat, status: EventStatus)
    requires ControlInv(s) && index < |s.inFlight|
    ensures s.accepted != []
    ensures var s' := ProcessHead(Retire(s, index), status);
            |s.settled| <= |s'.settled| && forall i :: |s.settled| <= i < |s'.settled| ==>
              s'.settled[i].outcome == Processed(s'.settled[i].event.state == Last(s.accepted).state)
  {
  }

  /** A listener is told `success` exactly for the state that the most recently accepted push asked for. */
  lemma SuccessMeansLatest(states: seq<Scheduler>, steps: seq<Step>, n: nat, i: nat)
    requires IsRun(states, steps) && n < |steps|
    requires |states[n].settled| <= i < |states[n + 1].settled|
    requires states[n + 1].settled[i].outcome.Processed?
    ensures states[n].accepted != []
    ensures states[n + 1].settled[i].outcome.success <==>
            states[n + 1].settled[i].event.state == Last(states[n].accepted).state
  {
    RunKeepsInvariants(states, steps, n);
    match steps[n]
    case Push(_, _, _) =>
    case CommandFailed(c) => ProcessReportsSuccessExactly(states[n], c, Failed);
    case CommandOk(c) => if states[n].inFlight[c].event.state.Resume? { ProcessReportsSuccessExactly(states[n], c, Succeed); }
    case SlaveAck(c, report) => ProcessReportsSuccessExactly(states[n], c, ReportStatus(report));
  }

  /** The status that a completing step reports. */
  function Verdict(step: Step): EventStatus
    requires !step.Push?
  {
    match step
    case CommandFailed(_) => Failed
    case CommandOk(_) => Succeed
    case SlaveAck(_, AckSuccess) => Succeed
    case SlaveAck(_, AckExpired) => FailedTimeout
    case SlaveAck(_, AckOther) => Failed
  }

  lemma ProcessSettlesCommanded(s: Scheduler, index: nat, status: EventStatus)
    requires ControlInv(s) && index < |s.inFlight|
    ensures var s' := ProcessHead(Retire(s, index), status);
            |s.settled| <= |s'.settled| && forall i :: |s.settled| <= i < |s'.settled| ==>
              var t := s'.settled[i];
              && t.event.state == s.inFlight[index].event.state && t.outcome.Processed?
              && t.status == if t.outcome.success then status else RejectedOverridden
  {
  }

  lemma PushSettles(s: Scheduler, e: EventInfo, machines: Option<seq<string>>, serviceUp: bool, i: nat)
    requires Shape(s.queue) && Ledger(s) && e !in s.pushed
    requires |s.settled| <= i < |ApplyPush(s, e, machines, serviceUp).settled|
    ensures var t := ApplyPush(s, e, machines, serviceUp).settled[i];
            && t.outcome.Rejected?
            && (if t.event == e
                then t.status == (if MachineKnown(e.machine, machines) then Failed else RejectedInvalidMachineName)
                     && (t.status == Failed ==> s.queue == [] && !serviceUp)
                else t.event in s.queue && t.status == RejectedOverridden
                     && t.event.state != e.state && t.event.state != s.queue[0].state)
  {
    QueuedIsNotSettled(s.pushed, s.queue, s.settled, s.status);
    if MachineKnown(e.machine, machines) && s.queue != [] {
      hide Books, Kept, Dropped;
      var dropped := Dropped(s.queue, e.state, s.queue[0].state);
      DroppedAreStale(s.queue, e.state);
      assert ApplyPush(s, e, machines, serviceUp).settled[i].event == dropped[i - |s.settled|];
    }
  }

  /** The machine list is there and names neither the event's machine nor is the event for all of them. */
  predicate UnknownMachine(machine: string, machines: Option<seq<string>>) {
    && machines.Some? && machine != "ALL_MACHINES"
    && forall i :: 0 <= i < |machines.value| ==> machines.value[i] != machine
  }

  /**
   A push is accepted if and only if its machine is known and either something is queued already or
   the service is up; otherwise it is settled at once and changes nothing else.
   */
  lemma AcceptedExactly(states: seq<Scheduler>, steps: seq<Step>, n: nat)
    requires IsRun(states, steps) && n < |steps| && steps[n].Push?
    ensures var s, s', step := states[n], states[n + 1], steps[n];
            if !UnknownMachine(step.event.machine, step.machines) && (s.queue != [] || step.serviceUp) then
              && s'.accepted == s.accepted + [step.event] && s'.queue != [] && Last(s'.queue) == step.event
              && (forall i :: |s.settled| <= i < |s'.settled| ==> s'.settled[i].event != step.event)
            else
              && s'.accepted == s.accepted && s'.queue == s.queue && s'.inFlight == s.inFlight && s'.issued == s.issued
              && s'.wakeLock == s.wakeLock
              && |s'.settled| == |s.settled| + 1 && Last(s'.settled).event == step.event && Last(s'.settled).outcome.Rejected?
  {
    RunKeepsInvariants(states, steps, n);
    hide Books, Kept, Dropped, Shape;
    var s, step := states[n], steps[n];
    if MachineKnown(step.event.machine, step.machines) && s.queue != [] {
      NewIsNotDropped(s, step.event);
    }
  }

  lemma NewIsNotDropped(s: Scheduler, e: EventInfo)
    requires Shape(s.queue) && Ledger(s) && e !in s.pushed && s.queue != []
    ensures e !in Dropped(s.queue, e.state, s.queue[0].state)
  {
    DroppedAreStale(s.queue, e.state);
  }

  lemma DroppedAreStale(q: seq<EventInfo>, newState: TcuActivityState)
    requires q != [] && Shape(q)
    ensures forall e :: e in Dropped(q, newState, q[0].state) ==> e in q && e.state != newState && e.state != q[0].state
  {
    OverrideKeepsHeadBlock(q, newState);
    var n := if newState == Last(q).state then |q| else Block(q, q[0].state);
    hide Kept, Dropped, Block;
    forall e | e in q[n..] ensures e in q && e.state != newState && e.state != q[0].state {
      var i :| 0 <= i < |q[n..]| && q[n..][i] == e;
      assert e == q[n + i] && q[n].state != q[0].state;
    }
  }

  /**
   Why an event is settled: a completion settles only events that asked for the commanded state, with
   the reported status or as overridden; a push settles the queued events that ask for neither the
   new state nor the one in progress, or is itself turned down.
   */
  lemma SettledForAReason(states: seq<Scheduler>, steps: seq<Step>, n: nat, i: nat)
    requires IsRun(states, steps) && n < |steps|
    requires |states[n].settled| <= i < |states[n + 1].settled|
    ensures var s, step, t := states[n], steps[n], states[n + 1].settled[i];
            if step.Push? then
              && t.outcome.Rejected?
              && (if t.event == step.event
                  then t.status == (if UnknownMachine(t.event.machine, step.machines) then RejectedInvalidMachineName else Failed)
                       && (t.status == Failed ==> s.queue == [] && !step.serviceUp)
                  else t.event in s.queue && t.status == RejectedOverridden
                       && t.event.state != step.event.state && t.event.state != s.queue[0].state)
            else
              && t.outcome.Processed?
              && t.event.state == s.inFlight[step.index].event.state
              && t.status == if t.outcome.success then Verdict(step) else RejectedOverridden
  {
    RunKeepsInvariants(states, steps, n);
    var s, step := states[n], steps[n];
    match step
    case Push(e, _, _) =>
      PushSettles(s, e, step.machines, step.serviceUp, i);
    case CommandFailed(c) => ProcessSettlesCommanded(s, c, Failed);
    case CommandOk(c) => if s.inFlight[c].event.state.Resume? { ProcessSettlesCommanded(s, c, Succeed); }
    case SlaveAck(c, report) => ProcessSettlesCommanded(s, c, ReportStatus(report));
  }

  // ---- The status of a queued event ----

  /** In progress once its command was answered well, until then as it was when it came. */
  ghost predicate Marked(s: Scheduler, e: EventInfo, alone: bool) {
    && e in s.queue && e in s.status && s.inFlight != []
    && s.status[e] == if e == s.queue[0] && s.inFlight[0].awaitingAck then InProgress else if alone then Initialized else InQueue
  }

  lemma PushMarks(s: Scheduler, e: EventInfo, machines: Option<seq<string>>, serviceUp: bool)
    requires ControlInv(s) && Ledger(s) && e !in s.pushed
    requires e in ApplyPush(s, e, machines, serviceUp).queue
    ensures Marked(ApplyPush(s, e, machines, serviceUp), e, s.queue == [])
  {
    QueuedIsNotSettled(s.pushed, s.queue, s.settled, s.status);
    hide Books, Shape, Dropped;
    if s.queue != [] {
      OverrideKeepsHead(s, e);
      hide Kept;
    }
  }

  lemma OverrideKeepsHead(s: Scheduler, e: EventInfo)
    requires s.queue != [] && Shape(s.queue)
    ensures var kept := Kept(s.queue, e.state, s.queue[0].state); kept != [] && kept[0] == s.queue[0]
  {
    OverrideKeepsHeadBlock(s.queue, e.state);
  }

  lemma PushKeepsMarks(s: Scheduler, e: EventInfo, machines: Option<seq<string>>, serviceUp: bool, x: EventInfo, alone: bool)
    requires ControlInv(s) && Ledger(s) && e !in s.pushed && Marked(s, x, alone)
    requires x in ApplyPush(s, e, machines, serviceUp).queue
    ensures Marked(ApplyPush(s, e, machines, serviceUp), x, alone)
  {
    QueuedIsNotSettled(s.pushed, s.queue, s.settled, s.status);
    OverrideKeepsHead(s, e);
    KeptIsNotDropped(s.queue, e.state, s.queue[0].state, x);
    hide Books, Shape, Dropped, Kept;
  }

  lemma {:induction false} KeptIsNotDropped(q: seq<EventInfo>, a: TcuActivityState, b: TcuActivityState, x: EventInfo)
    ensures x in Kept(q, a, b) ==> x.state == a || x.state == b
    ensures x in Dropped(q, a, b) ==> x.state != a && x.state != b
  {
    if q == [] {
    } else {
      KeptIsNotDropped(q[..|q| - 1], a, b, x);
    }
  }

  lemma CompletionKeepsMarks(s: Scheduler, index: nat, status: EventStatus, x: EventInfo, alone: bool)
    requires ControlInv(s) && Ledger(s) && index < |s.inFlight| && Marked(s, x, alone)
    requires x in ProcessHead(Retire(s, index), status).queue
    ensures Marked(ProcessHead(Retire(s, index), status), x, alone)
  {
    var n := Block(s.queue, s.queue[0].state);
    var rest, gone := s.queue[n..], s.queue[..n];
    assert s.queue == gone + rest;
    SettlingKeepsCounts(s.pushed, s.queue, s.settled, rest, gone, SettleAs(gone, Failed, Rejected, AnyTrigger));
    assert s.queue[0] in gone;
    hide Books, Block;
  }

  lemma StepKeepsMarks(s: Scheduler, step: Step, x: EventInfo, alone: bool)
    requires ControlInv(s) && Ledger(s) && Enabled(s, step) && Marked(s, x, alone) && x in Apply(s, step).queue
    ensures Marked(Apply(s, step), x, alone)
  {
    hide Books, Shape, ApplyPush, ProcessHead;
    match step
    case Push(e, machines, serviceUp) => PushKeepsMarks(s, e, machines, serviceUp, x, alone);
    case CommandFailed(c) => CompletionKeepsMarks(s, c, Failed, x, alone);
    case CommandOk(c) =>
      if s.inFlight[c].event.state.Resume? {
        CompletionKeepsMarks(s, c, Succeed, x, alone);
      }
    case SlaveAck(c, report) => CompletionKeepsMarks(s, c, ReportStatus(report), x, alone);
  }

  /** Was the event pushed onto an empty queue? */
  ghost predicate CameAlone(states: seq<Scheduler>, steps: seq<Step>, n: nat, e: EventInfo)
    requires IsRun(states, steps) && n < |states|
  {
    exists k :: 0 <= k < n && steps[k].Push? && steps[k].event == e && states[k].queue == []
  }

  /**
   A queued event is in progress exactly if it is the head and its command was answered well; else it
   is still initialized if it was pushed onto an empty queue, and waiting if it joined others.
   */
  lemma {:induction false} QueuedStatusExactly(states: seq<Scheduler>, steps: seq<Step>, n: nat, e: EventInfo)
    requires IsRun(states, steps) && n < |states| && e in states[n].queue
    ensures Marked(states[n], e, CameAlone(states, steps, n, e))
  {
    hide Apply, Ledger, ControlInv, Marked;
    if n == 0 {
      assert false;
    } else {
      var s, step := states[n - 1], steps[n - 1];
      RunKeepsInvariants(states, steps, n - 1);
      if e in s.queue {
        QueuedStatusExactly(states, steps, n - 1, e);
        StepKeepsMarks(s, step, e, CameAlone(states, steps, n - 1, e));
        QueuedWasPushed(s, e);
        assert Enabled(s, step);
        assert CameAlone(states, steps, n, e) <==> CameAlone(states, steps, n - 1, e);
      } else {
        NewInQueue(s, step, e);
        PushApplied(s, step);
        PushMarks(s, step.event, step.machines, step.serviceUp);
        NotPushedBefore(states, steps, n - 1, e);
        assert CameAlone(states, steps, n, e) <==> s.queue == [];
      }
    }
  }

  lemma QueuedWasPushed(s: Scheduler, e: EventInfo)
    requires Ledger(s) && e in s.queue
    ensures e in s.pushed
  {
    QueuedIsNotSettled(s.pushed, s.queue, s.settled, s.status);
  }

  lemma PushApplied(s: Scheduler, step: Step)
    requires Enabled(s, step) && step.Push?
    ensures Apply(s, step) == ApplyPush(s, step.event, step.machines, step.serviceUp)
  {
  }

  lemma NewInQueue(s: Scheduler, step: Step, e: EventInfo)
    requires ControlInv(s) && Enabled(s, step) && e in Apply(s, step).queue && e !in s.queue
    ensures step.Push? && step.event == e && e !in s.pushed
  {
    if step.Push? && s.queue != [] {
      KeptIsIn(s.queue, step.event.state, s.queue[0].state, e);
    }
    hide Kept, Dropped, Shape;
  }

  lemma {:induction false} KeptIsIn(q: seq<EventInfo>, a: TcuActivityState, b: TcuActivityState, x: EventInfo)
    ensures x in Kept(q, a, b) ==> x in q
  {
    if q == [] {
    } else {
      KeptIsIn(q[..|q| - 1], a, b, x);
    }
  }

  lemma {:induction false} NotPushedBefore(states: seq<Scheduler>, steps: seq<Step>, n: nat, e: EventInfo)
    requires IsRun(states, steps) && n < |states| && e !in states[n].pushed
    ensures forall k :: 0 <= k < n && steps[k].Push? ==> steps[k].event != e
  {
    hide Apply, Enabled;
    if n == 0 {
    } else {
      PushedStays(states[n - 1], steps[n - 1], e);
      NotPushedBefore(states, steps, n - 1, e);
    }
  }

  lemma PushedStays(s: Scheduler, step: Step, e: EventInfo)
    requires Enabled(s, step)
    ensures e in s.pushed || (step.Push? && step.event == e) ==> e in Apply(s, step).pushed
  {
  }

  // ---- Bounded drain ----

  /** Number of maximal runs of equal state. */
  ghost function Blocks(q: seq<EventInfo>): nat {
    if q == [] then 0
    else if |q| == 1 || q[0].state != q[1].state then 1 + Blocks(q[1..])
    else Blocks(q[1..])
  }

  lemma {:induction false} BlocksAfterHead(q: seq<EventInfo>)
    requires q != []
    ensures Blocks(q) == 1 + Blocks(q[Block(q, q[0].state)..])
  {
    if |q| > 1 && q[0].state == q[1].state {
      BlocksAfterHead(q[1..]);
      var n := Block(q[1..], q[0].state);
      assert q[1..][n..] == q[n + 1..];
    } else {
      assert Block(q, q[0].state) == 1;
    }
  }

  ghost function Completions(states: seq<Scheduler>, steps: seq<Step>, n: nat, m: nat): nat
    requires IsRun(states, steps) && n <= m <= |steps|
  {
    if n == m then 0
    else Completions(states, steps, n, m - 1) + if IsCompletion(states[m - 1], steps[m - 1]) then 1 else 0
  }

  lemma CompletionTakesBlock(s: Scheduler, step: Step)
    requires ControlInv(s) && Enabled(s, step) && !step.Push?
    ensures Blocks(Apply(s, step).queue) + (if IsCompletion(s, step) then 1 else 0) == Blocks(s.queue)
  {
    if IsCompletion(s, step) {
      BlocksAfterHead(s.queue);
    }
  }

  /** Without pushes every completion takes off exactly one block, and nothing else does. */
  lemma {:induction false} CompletionsTakeBlocks(states: seq<Scheduler>, steps: seq<Step>, n: nat, m: nat)
    requires IsRun(states, steps) && n <= m <= |steps|
    requires forall i :: n <= i < m ==> !steps[i].Push?
    ensures Blocks(states[m].queue) + Completions(states, steps, n, m) == Blocks(states[n].queue)
  {
    hide Apply, ControlInv, Ledger, Blocks;
    if n == m {
    } else {
      CompletionsTakeBlocks(states, steps, n, m - 1);
      RunKeepsInvariants(states, steps, m - 1);
      CompletionTakesBlock(states[m - 1], steps[m - 1]);
    }
  }

  /** From any reachable state, two completions empty the queue; one does if head and back agree. */
  lemma BoundedDrain(states: seq<Scheduler>, steps: seq<Step>, n: nat, m: nat)
    requires IsRun(states, steps) && n <= m <= |steps|
    requires forall i :: n <= i < m ==> !steps[i].Push?
    ensures Completions(states, steps, n, m) <= Blocks(states[n].queue) <= 2
    ensures states[m].queue == [] <==> Completions(states, steps, n, m) == Blocks(states[n].queue)
    ensures states[n].queue != [] ==>
              (Blocks(states[n].queue) == 1 <==> states[n].queue[0].state == Last(states[n].queue).state)
  {
    CompletionsTakeBlocks(states, steps, n, m);
    RunKeepsInvariants(states, steps, n);
    var q := states[n].queue;
    if q != [] {
      BlocksAfterHead(q);
      TailKeepsShape(q);
      var r := q[Block(q, q[0].state)..];
      if r != [] {
        BlocksAfterHead(r);
        assert r[|r|..] == [];
      } else {
        assert Last(q).state == q[0].state;
      }
    }
    if states[m].queue != [] {
      BlocksAfterHead(states[m].queue);
    }
  }

  lemma ExtendRun(states: seq<Scheduler>, steps: seq<Step>, step: Step)
    requires IsRun(states, steps) && Enabled(states[|steps|], step)
    ensures IsRun(states + [Apply(states[|steps|], step)], steps + [step])
  {
    hide Apply, Enabled;
  }

  lemma CanComplete(s: Scheduler) returns (step: Step)
    requires ControlInv(s) && s.queue != []
    ensures Enabled(s, step) && IsCompletion(s, step) && Blocks(Apply(s, step).queue) + 1 == Blocks(s.queue)
  {
    step := if s.inFlight[0].awaitingAck then SlaveAck(0, AckSuccess) else CommandFailed(0);
    CompletionTakesBlock(s, step);
  }

  /** The queue never gets stuck: any run can be continued by completions until the queue is empty. */
  lemma {:induction false} AlwaysDrains(states: seq<Scheduler>, steps: seq<Step>)
    returns (states': seq<Scheduler>, steps': seq<Step>)
    requires IsRun(states, steps)
    ensures IsRun(states', steps') && states <= states' && steps <= steps'
    ensures Last(states').queue == [] && |steps'| == |steps| + Blocks(Last(states).queue)
    ensures forall i :: |steps| <= i < |steps'| ==> IsCompletion(states'[i], steps'[i])
    decreases Blocks(Last(states).queue)
  {
    hide Apply, IsCompletion, Enabled, ControlInv, Ledger;
    RunKeepsInvariants(states, steps, |steps|);
    var s := Last(states);
    if s.queue == [] {
      states', steps' := states, steps;
    } else {
      var step := CanComplete(s);
      ExtendRun(states, steps, step);
      hide IsRun, Blocks;
      states', steps' := AlwaysDrains(states + [Apply(s, step)], steps + [step]);
      assert states'[|steps|] == (states + [Apply(s, step)])[|steps|] == s;
      assert steps'[|steps|] == (steps + [step])[|steps|] == step;
    }
  }

  // ---- The wake lock ----

  ghost predicate ResumeCompletion(s: Scheduler, step: Step) {
    Enabled(s, step) && step.CommandOk? && s.inFlight[step.index].event.state.Resume?
  }

  /** Step i was a successful RESUME that left work queued, and the queue has not been empty since. */
  ghost predicate LostAt(states: seq<Scheduler>, steps: seq<Step>, n: nat, i: nat)
    requires IsRun(states, steps) && n < |states|
  {
    i < n && ResumeCompletion(states[i], steps[i]) && forall j :: i < j <= n ==> states[j].queue != []
  }

  lemma {:induction false} WakeLockLostExactly(states: seq<Scheduler>, steps: seq<Step>, n: nat)
    requires IsRun(states, steps) && n < |states|
    ensures states[n].wakeLock ==> states[n].queue != []
    ensures states[n].queue != [] && !states[n].wakeLock <==> exists i: nat :: LostAt(states, steps, n, i)
  {
    hide Apply, Ledger, Shape;
    RunKeepsInvariants(states, steps, n);
    if n == 0 {
    } else {
      var s, step := states[n - 1], steps[n - 1];
      WakeLockLostExactly(states, steps, n - 1);
      RunKeepsInvariants(states, steps, n - 1);
      if states[n].queue == [] {
        assert forall i: nat :: !LostAt(states, steps, n, i);
      } else if ResumeCompletion(s, step) {
        assert !Apply(s, step).wakeLock by { ResumeDropsLock(s, step); }
        assert LostAt(states, steps, n, n - 1);
      } else {
        WakeLockStep(s, step);
        forall i: nat ensures LostAt(states, steps, n, i) <==> LostAt(states, steps, n - 1, i) && s.queue != [] {
          if LostAt(states, steps, n, i) {
            assert i < n - 1;
          }
        }
        if s.queue != [] && !s.wakeLock {
          var i: nat :| LostAt(states, steps, n - 1, i);
          assert LostAt(states, steps, n, i);
        }
      }
    }
  }

  lemma StartsOnEmpty(e: EventInfo)
    ensures var s := Apply(EMPTY, Push(e, None, true));
            s.queue == [e] && s.inFlight == [Command(e, false)] && s.pushed == [e]
  {
  }

  lemma JoinsBehind(s: Scheduler, head: EventInfo, e: EventInfo)
    requires s.queue == [head] && e !in s.pushed
    ensures var s' := Apply(s, Push(e, None, true));
            s'.queue == [head, e] && s'.inFlight == s.inFlight
  {
    KeptSplit([head], 1, e.state, head.state);
  }

  /** The shortest run that loses the lock: a SUSPEND request waits behind a RESUME that succeeds. */
  lemma LockLostWithWork(resume: EventInfo, suspend: EventInfo) returns (states: seq<Scheduler>, steps: seq<Step>)
    requires resume.state == Resume && suspend.state == Suspend
    ensures IsRun(states, steps) && Last(states).queue == [suspend] && Last(states).inFlight == [Command(suspend, false)]
    ensures !Last(states).wakeLock
  {
    var p1, p2, p3 := Push(resume, None, true), Push(suspend, None, true), CommandOk(0);
    var s1 := Apply(EMPTY, p1);
    StartsOnEmpty(resume);
    var s2 := Apply(s1, p2);
    JoinsBehind(s1, resume, suspend);
    LockLostStep(s2, resume, suspend);
    ExtendRun([EMPTY], [], p1);
    hide Apply;
    ExtendRun([EMPTY] + [s1], [] + [p1], p2);
    ExtendRun([EMPTY] + [s1] + [s2], [] + [p1] + [p2], p3);
    states, steps := [EMPTY] + [s1] + [s2] + [Apply(s2, p3)], [] + [p1] + [p2] + [p3];
  }

  lemma LockLostStep(s: Scheduler, resume: EventInfo, suspend: EventInfo)
    requires s.queue == [resume, suspend] && s.inFlight == [Command(resume, false)]
    requires resume.state == Resume && suspend.state == Suspend
    ensures var s' := Apply(s, CommandOk(0));
            s'.queue == [suspend] && s'.inFlight == [Command(suspend, false)] && !s'.wakeLock
  {
    BlockOfPrefix(s.queue, Resume, 1);
  }

  lemma ResumeDropsLock(s: Scheduler, step: Step)
    requires ResumeCompletion(s, step)
    ensures !Apply(s, step).wakeLock
  {
  }

  lemma WakeLockStep(s: Scheduler, step: Step)
    requires ControlInv(s) && Enabled(s, step) && !ResumeCompletion(s, step)
    requires Apply(s, step).queue != []
    ensures Apply(s, step).wakeLock == (s.queue == [] || s.wakeLock)
  {
  }
}
