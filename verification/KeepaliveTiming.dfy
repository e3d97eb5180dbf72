/**
 Both ends of an idle link over an integer clock: the daemon asks after ten quiet seconds, the
 client answers what it reads. The ends poll at most `gap` seconds apart and a message is readable
 at most `down` (to the client) or `up` (to the daemon) seconds after it was sent.
 */
module KeepaliveTiming {
  import opened SimConnectionModel

  datatype Timing = Timing(gap: nat, down: nat, up: nat)

  datatype Packet = Packet(sentAt: int, readable: bool)

  datatype Link = Link(
    now: int, d: DaemonEnd, c: ClientEnd,
    daemonPolledAt: int, clientPolledAt: int,
    toClient: seq<Packet>, toDaemon: seq<Packet>)

  datatype Step = Tick | ArriveAtClient(i: nat) | ArriveAtDaemon(j: nat) | DaemonPolls | ClientPolls

  predicate MayWait(packets: seq<Packet>, until: int, delay: nat) {
    forall i :: 0 <= i < |packets| && !packets[i].readable ==> until <= packets[i].sentAt + delay
  }

  predicate Enabled(t: Timing, l: Link, step: Step) {
    match step
    case Tick =>
      && l.now + 1 <= l.daemonPolledAt + t.gap && l.now + 1 <= l.clientPolledAt + t.gap
      && MayWait(l.toClient, l.now + 1, t.down) && MayWait(l.toDaemon, l.now + 1, t.up)
    case ArriveAtClient(i) => i < |l.toClient| && !l.toClient[i].readable
    case ArriveAtDaemon(j) => j < |l.toDaemon| && !l.toDaemon[j].readable
    case _ => true
  }

  /** One byte is read when a message is readable; nothing else goes wrong on the socket. */
  function Quiet(packets: seq<Packet>, now: int): PollInput {
    PollInput(packets != [] && packets[0].readable, 1, false, now, now)
  }

  function Unread(packets: seq<Packet>): seq<Packet> {
    if packets != [] && packets[0].readable then packets[1..] else packets
  }

  function DaemonStep(l: Link): Link
    requires l.d.connected
  {
    var d := PollClient(l.d, Quiet(l.toDaemon, l.now));
    var asks := |d.log| > |l.d.log| && d.log[|d.log| - 1] == KeepaliveSent;
    l.(d := d, daemonPolledAt := l.now, toDaemon := Unread(l.toDaemon),
       toClient := if asks then l.toClient + [Packet(l.now, false)] else l.toClient)
  }

  /** The client answers a keepalive if it is still connected. */
  function ClientStep(l: Link): Link
    requires l.c.connected
  {
    var input := Quiet(l.toClient, l.now);
    var c := PollDaemon(l.c, input);
    l.(c := c, clientPolledAt := l.now, toClient := Unread(l.toClient),
       toDaemon := if input.pollIn && c.connected then l.toDaemon + [Packet(l.now, false)] else l.toDaemon)
  }

  function Apply(t: Timing, l: Link, step: Step): Link
    requires Enabled(t, l, step)
  {
    match step
    case Tick => l.(now := l.now + 1)
    case ArriveAtClient(i) => l.(toClient := l.toClient[i := l.toClient[i].(readable := true)])
    case ArriveAtDaemon(j) => l.(toDaemon := l.toDaemon[j := l.toDaemon[j].(readable := true)])
    case DaemonPolls => if l.d.connected then DaemonStep(l) else l
    case ClientPolls => if l.c.connected then ClientStep(l) else l
  }

  predicate Up(l: Link) {
    l.d.connected && l.c.connected
  }

  /** An idle link: connected, nothing under way, heard from within ten seconds. */
  predicate Idle(t: Timing, l: Link) {
    && Up(l) && !l.d.pending && l.toClient == [] && l.toDaemon == []
    && l.daemonPolledAt == l.clientPolledAt == l.now
    && l.now - KEEPALIVE_MSG_INTERVAL_SEC <= l.d.lastMsg <= l.now && l.c.lastMsg <= l.now
    && l.d.lastMsg <= l.c.lastMsg + t.up + t.gap
  }

  predicate Legal(t: Timing, l: Link, steps: seq<Step>)
    decreases |steps|
  {
    steps != [] ==> Enabled(t, l, steps[0]) && Legal(t, Apply(t, l, steps[0]), steps[1..])
  }

  function Run(t: Timing, l: Link, steps: seq<Step>): Link
    requires Legal(t, l, steps)
    decreases |steps|
  {
    if steps == [] then l else Run(t, Apply(t, l, steps[0]), steps[1..])
  }

  /** No run from an idle link loses the connection at either end. */
  ghost predicate NeverTimesOut(t: Timing) {
    forall l, steps :: Idle(t, l) && Legal(t, l, steps) ==> Up(Run(t, l, steps))
  }

  // ---- The bound suffices ----

  ghost predicate Resting(t: Timing, l: Link) {
    && !l.d.pending && l.toClient == [] && l.toDaemon == []
    && l.daemonPolledAt <= l.d.lastMsg + KEEPALIVE_MSG_INTERVAL_SEC
    && l.d.lastMsg <= l.c.lastMsg + t.up + t.gap
  }

  /** The request is on its way, or readable and not yet polled for. */
  ghost predicate Asking(t: Timing, l: Link) {
    && l.d.pending && |l.toClient| == 1 && l.toDaemon == []
    && l.toClient[0].sentAt <= l.d.lastMsg + KEEPALIVE_MSG_INTERVAL_SEC + t.gap
    && l.d.lastMsg <= l.c.lastMsg + t.up + t.gap
    && (if l.toClient[0].readable then l.clientPolledAt else l.now) <= l.toClient[0].sentAt + t.down
  }

  /** The answer is on its way, or readable and not yet polled for. */
  ghost predicate Answering(t: Timing, l: Link) {
    && l.d.pending && l.toClient == [] && |l.toDaemon| == 1
    && l.toDaemon[0].sentAt == l.c.lastMsg
    && l.c.lastMsg <= l.d.lastMsg + KEEPALIVE_MSG_INTERVAL_SEC + 2 * t.gap + t.down
    && (if l.toDaemon[0].readable then l.daemonPolledAt else l.now) <= l.c.lastMsg + t.up
  }

  ghost predicate OnTime(t: Timing, l: Link) {
    && Up(l)
    && l.daemonPolledAt <= l.now <= l.daemonPolledAt + t.gap
    && l.clientPolledAt <= l.now <= l.clientPolledAt + t.gap
    && (Resting(t, l) || Asking(t, l) || Answering(t, l))
  }

  ghost predicate Bounded(t: Timing) {
    2 * t.gap + t.down + t.up <= KEEPALIVE_MSG_TIMEOUT_SEC - KEEPALIVE_MSG_INTERVAL_SEC
  }

  lemma StepStaysOnTime(t: Timing, l: Link, step: Step)
    requires Bounded(t) && OnTime(t, l) && Enabled(t, l, step)
    ensures OnTime(t, Apply(t, l, step))
  {
  }

  lemma {:induction false} RunStaysOnTime(t: Timing, l: Link, steps: seq<Step>)
    requires Bounded(t) && OnTime(t, l) && Legal(t, l, steps)
    ensures OnTime(t, Run(t, l, steps))
    decreases |steps|
  {
    if steps == [] {
    } else {
      StepStaysOnTime(t, l, steps[0]);
      RunStaysOnTime(t, Apply(t, l, steps[0]), steps[1..]);
    }
  }

  // ---- The bound is needed ----

  lemma Then(t: Timing, l: Link, step: Step, rest: seq<Step>)
    requires Enabled(t, l, step) && Legal(t, Apply(t, l, step), rest)
    ensures Legal(t, l, [step] + rest) && Run(t, l, [step] + rest) == Run(t, Apply(t, l, step), rest)
  {
    assert ([step] + rest)[1..] == rest;
  }

  /** The idle link the witnesses start from: last heard of ten seconds ago. */
  const AT_TEN := Link(10, DaemonEnd(true, 5, 5, false, 0, []), ClientEnd(true, 6, 6, 0, []), 10, 10, [], [])

  ghost predicate Fails(t: Timing, l: Link) {
    exists steps :: Legal(t, l, steps) && !Up(Run(t, l, steps))
  }

  /** A link that fails after a step fails before it. */
  lemma FailsBefore(t: Timing, l: Link, step: Step, l': Link)
    requires Enabled(t, l, step) && l' == Apply(t, l, step) && Fails(t, l')
    ensures Fails(t, l)
  {
    var rest :| Legal(t, l', rest) && !Up(Run(t, l', rest));
    Then(t, l, step, rest);
  }

  /** Asked and unanswered for 14 seconds: the daemon's next poll drops the client. */
  lemma DropsAtFourteen(t: Timing, l: Link)
    requires l.d.connected && l.d.pending && l.d.lastMsg == 0 && l.now == 14
    requires l.toDaemon == [] || !l.toDaemon[0].readable
    ensures Fails(t, l)
  {
    var steps := [DaemonPolls];
    assert steps[1..] == [];
    assert Run(t, l, steps) == Run(t, Apply(t, l, DaemonPolls), []);
    assert Legal(t, l, steps) && !Up(Run(t, l, steps));
  }

  /** Two ticks with no poll between: with gaps of two seconds delays of zero are too much. */
  lemma WideGapFails(t: Timing)
    requires t.gap >= 2
    ensures Fails(t, AT_TEN)
  {
    var l1 := Apply(t, AT_TEN, Tick);
    var l2 := Apply(t, l1, Tick);
    var l3 := Apply(t, l2, DaemonPolls);
    assert l3.toClient == [Packet(12, false)];
    var l4 := Apply(t, l3, ClientPolls);
    var l5 := Apply(t, l4, ArriveAtClient(0));
    var l6 := Apply(t, l5, Tick);
    var l7 := Apply(t, l6, Tick);
    DropsAtFourteen(t, l7);
    FailsBefore(t, l6, Tick, l7);
    FailsBefore(t, l5, Tick, l6);
    FailsBefore(t, l4, ArriveAtClient(0), l5);
    FailsBefore(t, l3, ClientPolls, l4);
    FailsBefore(t, l2, DaemonPolls, l3);
    FailsBefore(t, l1, Tick, l2);
    FailsBefore(t, AT_TEN, Tick, l1);
  }

  /** A second passes and both ends poll. */
  function Second(t: Timing, l: Link): Link
    requires Enabled(t, l, Tick)
  {
    Apply(t, Apply(t, Apply(t, l, Tick), DaemonPolls), ClientPolls)
  }

  lemma FailsASecondBefore(t: Timing, l: Link)
    requires Enabled(t, l, Tick) && Fails(t, Second(t, l))
    ensures Fails(t, l)
  {
    var l1 := Apply(t, l, Tick);
    var l2 := Apply(t, l1, DaemonPolls);
    FailsBefore(t, l2, ClientPolls, Second(t, l));
    FailsBefore(t, l1, DaemonPolls, l2);
    FailsBefore(t, l, Tick, l1);
  }

  /** The link one second after AT_TEN: the request is sent and the client has just polled. */
  const ASKED := Link(11, DaemonEnd(true, 5, 5, true, 0, [KeepaliveSent]), ClientEnd(true, 6, 6, 0, []), 11, 11,
                      [Packet(11, false)], [])

  lemma SlowRequestFails(t: Timing)
    requires t.gap >= 1 && t.down >= 2
    ensures Fails(t, ASKED)
  {
    var l12 := Second(t, ASKED);
    var l13 := Second(t, l12);
    var arrived := Apply(t, l13, ArriveAtClient(0));
    DropsAtFourteen(t, Apply(t, arrived, Tick));
    FailsBefore(t, arrived, Tick, Apply(t, arrived, Tick));
    FailsBefore(t, l13, ArriveAtClient(0), arrived);
    FailsASecondBefore(t, l12);
    FailsASecondBefore(t, ASKED);
  }

  lemma SlowBothWaysFails(t: Timing)
    requires t.gap >= 1 && t.down >= 1 && t.up >= 1
    ensures Fails(t, ASKED)
  {
    var l12 := Second(t, ASKED);
    var arrived := Apply(t, l12, ArriveAtClient(0));
    var l13 := Second(t, arrived);
    assert l13.toDaemon == [Packet(13, false)];
    DropsAtFourteen(t, Apply(t, l13, Tick));
    FailsBefore(t, l13, Tick, Apply(t, l13, Tick));
    FailsASecondBefore(t, arrived);
    FailsBefore(t, l12, ArriveAtClient(0), arrived);
    FailsASecondBefore(t, ASKED);
  }

  lemma SlowAnswerFails(t: Timing)
    requires t.gap >= 1 && t.up >= 2
    ensures Fails(t, ASKED)
  {
    var arrived := Apply(t, ASKED, ArriveAtClient(0));
    var l12 := Second(t, arrived);
    assert l12.toDaemon == [Packet(12, false)];
    var l13 := Second(t, l12);
    DropsAtFourteen(t, Apply(t, l13, Tick));
    FailsBefore(t, l13, Tick, Apply(t, l13, Tick));
    FailsASecondBefore(t, l12);
    FailsASecondBefore(t, arrived);
    FailsBefore(t, ASKED, ArriveAtClient(0), arrived);
  }

  /**
   The keepalive interval and timeout leave three seconds: neither end of an idle link ever times
   out if and only if two polling gaps and the two message delays fit into them.
   */
  lemma KeepaliveBoundIsExact(t: Timing)
    requires t.gap >= 1
    ensures NeverTimesOut(t) <==> 2 * t.gap + t.down + t.up <= 3
  {
    if Bounded(t) {
      forall l, steps | Idle(t, l) && Legal(t, l, steps) ensures Up(Run(t, l, steps)) {
        RunStaysOnTime(t, l, steps);
      }
    } else {
      assert Idle(t, AT_TEN);
      if t.gap >= 2 {
        WideGapFails(t);
      } else {
        if t.down >= 2 {
          SlowRequestFails(t);
        } else if t.up >= 2 {
          SlowAnswerFails(t);
        } else {
          SlowBothWaysFails(t);
        }
        assert Second(t, AT_TEN) == ASKED;
        FailsASecondBefore(t, AT_TEN);
      }
    }
  }
}
