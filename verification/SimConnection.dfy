/**
 The TCP link between the remote-SIM daemon and the client next to the card: descriptors,
 connection flags and keepalive of the daemon's end, and the receive timeout of the client's.
 Socket calls are inputs; what the daemon does to its descriptors is logged.
 */
module SimConnectionModel {
  import opened Common

  const KEEPALIVE_MSG_INTERVAL_SEC := 10
  const KEEPALIVE_MSG_TIMEOUT_SEC := 13

  datatype Io =
    | Accepted(fd: int) | Closed(fd: int)
    | KeepaliveSent | MessageReceived | TimedOut
    | Opened(fd: int) | ConnectFailed(fd: int)

  /** The daemon's end; `polled` is the descriptor handed to poll. */
  datatype DaemonEnd = DaemonEnd(connected: bool, fd: int, polled: int, pending: bool, lastMsg: int, log: seq<Io>)

  /** What poll, read and the clock return during one call. */
  datatype PollInput = PollInput(pollIn: bool, bytes: int, error: bool, readAt: int, now: int)

  datatype ClientEnd = ClientEnd(connected: bool, fd: int, polled: int, lastMsg: int, log: seq<Io>)

  /** One try of the client to reach the daemon. */
  datatype Attempt = NoSocket | RefusedOn(fd: nat) | ConnectedOn(fd: nat)

  function Log(d: DaemonEnd, io: Io): DaemonEnd {
    d.(log := d.log + [io])
  }

  // ---- The daemon's end, one call of handleClientConnection ----

  function ReadClient(d: DaemonEnd, input: PollInput): DaemonEnd {
    if !input.pollIn then d
    else if input.bytes <= 0 then d.(connected := false)
    else Log(d.(pending := false, lastMsg := input.readAt), MessageReceived)
  }

  function CheckKeepalive(d: DaemonEnd, now: int): DaemonEnd {
    if !d.connected || now - d.lastMsg <= KEEPALIVE_MSG_INTERVAL_SEC then d
    else if !d.pending then Log(d.(pending := true), KeepaliveSent)
    else if now - d.lastMsg > KEEPALIVE_MSG_TIMEOUT_SEC then Log(d.(connected := false, pending := false), TimedOut)
    else d
  }

  function CloseIfLost(d: DaemonEnd): DaemonEnd {
    if d.connected then d else Log(d.(fd := -1, polled := -1), Closed(d.fd))
  }

  function PollClient(d: DaemonEnd, input: PollInput): DaemonEnd {
    var r := ReadClient(d, input);
    var e := if input.error then r.(connected := false) else r;
    CloseIfLost(CheckKeepalive(e, input.now))
  }

  function AcceptClient(d: DaemonEnd, fd: int, now: int): DaemonEnd {
    Log(d.(connected := true, fd := fd, polled := fd, lastMsg := now), Accepted(fd))
  }

  /** The first descriptor that accept returns is used; failures before it are retried. */
  datatype Input = Input(poll: PollInput, acceptedFd: nat)

  function HandleClient(d: DaemonEnd, input: Input): DaemonEnd {
    if d.connected then PollClient(d, input.poll) else AcceptClient(d, input.acceptedFd, input.poll.now)
  }

  predicate ReceivesMessage(d: DaemonEnd, input: Input) {
    d.connected && input.poll.pollIn && input.poll.bytes > 0
  }

  // ---- The client's end, one call of handleDaemonConnection while connected ----

  function PollDaemon(c: ClientEnd, input: PollInput): ClientEnd {
    var r := if !input.pollIn then c
             else if input.bytes <= 0 then c.(connected := false)
             else c.(lastMsg := input.readAt);
    var e := if input.error then r.(connected := false) else r;
    var t := if e.connected && input.now - e.lastMsg > KEEPALIVE_MSG_TIMEOUT_SEC then e.(connected := false) else e;
    if t.connected then t else t.(fd := -1, polled := -1, log := t.log + [Closed(t.fd)])
  }

  /** A refused socket is given up without being closed. */
  function TryConnect(c: ClientEnd, attempt: Attempt): ClientEnd {
    match attempt
    case NoSocket => c.(fd := -1)
    case RefusedOn(fd) => c.(fd := -1, log := c.log + [Opened(fd), ConnectFailed(fd)])
    case ConnectedOn(fd) => c.(connected := true, fd := fd, polled := fd, log := c.log + [Opened(fd)])
  }

  predicate Succeeds(attempts: seq<Attempt>) {
    exists i :: 0 <= i < |attempts| && attempts[i].ConnectedOn?
  }

  /** Tries until one connects. */
  function ConnectDaemon(c: ClientEnd, attempts: seq<Attempt>): ClientEnd
    requires Succeeds(attempts)
    decreases |attempts|
  {
    var c' := TryConnect(c, attempts[0]);
    if attempts[0].ConnectedOn? then c'
    else
      assert attempts == [attempts[0]] + attempts[1..];
      ConnectDaemon(c', attempts[1..])
  }

  // ---- Runs of the daemon's end ----

  /** Before the first accept: no client, and a zeroed poll structure. */
  const START := DaemonEnd(false, -1, 0, false, 0, [])

  function Run(d: DaemonEnd, inputs: seq<Input>): DaemonEnd {
    if inputs == [] then d else HandleClient(Run(d, Front(inputs)), Last(inputs))
  }

  function Count(log: seq<Io>, io: Io): nat {
    if log == [] then 0 else Count(log[..|log| - 1], io) + if log[|log| - 1] == io then 1 else 0
  }

  /** Is a keepalive request the latest of: keepalive sent, message received, timeout drop? */
  function KeepaliveLatest(log: seq<Io>): bool {
    if log == [] then false
    else match log[|log| - 1]
         case KeepaliveSent => true
         case MessageReceived => false
         case TimedOut => false
         case _ => KeepaliveLatest(log[..|log| - 1])
  }

  /** A client is accepted and neither closed nor timed out. */
  function LinkUp(log: seq<Io>): bool {
    log != [] && match Last(log)
    case Accepted(_) => true
    case Closed(_) => false
    case TimedOut => false
    case _ => LinkUp(Front(log))
  }

  /** Keepalives are sent when none is pending, timeouts happen when one is, and both only while the link is up. */
  ghost predicate IoOk(before: seq<Io>, io: Io) {
    && (io.KeepaliveSent? ==> LinkUp(before) && !KeepaliveLatest(before))
    && (io.TimedOut? ==> LinkUp(before) && KeepaliveLatest(before))
    && (io.MessageReceived? ==> LinkUp(before))
  }

  ghost predicate LogOk(log: seq<Io>) {
    forall k :: 0 <= k < |log| ==> IoOk(log[..k], log[k])
  }

  ghost predicate Consistent(d: DaemonEnd) {
    && (d.connected <==> d.fd != -1)
    && (d.connected ==> d.fd >= 0)
    && ((exists fd :: Accepted(fd) in d.log) ==> d.polled == d.fd)
    && (d.connected ==> Accepted(d.fd) in d.log && LinkUp(d.log))
    && (d.pending <==> KeepaliveLatest(d.log))
    && LogOk(d.log)
    && (forall fd :: Count(d.log, Accepted(fd)) == Count(d.log, Closed(fd)) + if d.connected && d.fd == fd then 1 else 0)
  }

  lemma LogSnoc(log: seq<Io>, io: Io)
    ensures forall x :: Count(log + [io], x) == Count(log, x) + if io == x then 1 else 0
    ensures KeepaliveLatest(log + [io])
         == (io.KeepaliveSent? || (!io.MessageReceived? && !io.TimedOut? && KeepaliveLatest(log)))
    ensures LinkUp(log + [io]) == (io.Accepted? || (!io.Closed? && !io.TimedOut? && LinkUp(log)))
  {
    assert (log + [io])[..|log|] == log;
  }

  lemma OpenedAndClosed(log: seq<Io>, fd: int)
    ensures forall x :: Count(log + [Opened(fd)] + [Closed(fd)], x)
                     == Count(log, x) + if x == Opened(fd) || x == Closed(fd) then 1 else 0
  {
    LogSnoc(log, Opened(fd));
    LogSnoc(log + [Opened(fd)], Closed(fd));
  }

  lemma LogOkSnoc(log: seq<Io>, io: Io)
    requires LogOk(log) && IoOk(log, io)
    ensures LogOk(log + [io])
  {
    var log' := log + [io];
    forall k | 0 <= k < |log'| ensures IoOk(log'[..k], log'[k]) {
      assert log'[..k] == if k < |log| then log[..k] else log;
    }
  }

  /** Consistency while a call is under way: the connection may be lost but not yet closed. */
  ghost predicate MidCall(d: DaemonEnd) {
    && d.fd >= 0 && d.polled == d.fd && Accepted(d.fd) in d.log
    && (d.connected ==> LinkUp(d.log))
    && (d.pending <==> KeepaliveLatest(d.log))
    && LogOk(d.log)
    && (forall fd :: Count(d.log, Accepted(fd)) == Count(d.log, Closed(fd)) + if d.fd == fd then 1 else 0)
  }

  lemma LogKeepsMidCall(d: DaemonEnd, io: Io, d': DaemonEnd)
    requires MidCall(d) && IoOk(d.log, io) && (io.KeepaliveSent? || io.MessageReceived? || io.TimedOut?)
    requires d'.fd == d.fd && d'.polled == d.polled && d'.log == d.log + [io]
    requires d'.pending == io.KeepaliveSent? && (d'.connected ==> d.connected && !io.TimedOut?)
    ensures MidCall(d')
  {
    LogSnoc(d.log, io);
    LogOkSnoc(d.log, io);
  }

  lemma ReadKeepsMidCall(d: DaemonEnd, input: PollInput)
    requires MidCall(d) && d.connected
    ensures MidCall(ReadClient(d, input))
  {
    if input.pollIn && input.bytes > 0 {
      LogKeepsMidCall(d, MessageReceived, ReadClient(d, input));
    }
  }

  lemma CheckKeepsMidCall(d: DaemonEnd, now: int)
    requires MidCall(d)
    ensures MidCall(CheckKeepalive(d, now))
  {
    var d' := CheckKeepalive(d, now);
    if d' != d {
      LogKeepsMidCall(d, if d.pending then TimedOut else KeepaliveSent, d');
    }
  }

  lemma CloseKeepsConsistent(d: DaemonEnd)
    requires MidCall(d)
    ensures Consistent(CloseIfLost(d))
  {
    LogSnoc(d.log, Closed(d.fd));
    LogOkSnoc(d.log, Closed(d.fd));
  }

  lemma PollKeepsConsistent(d: DaemonEnd, input: PollInput)
    requires Consistent(d) && d.connected
    ensures Consistent(PollClient(d, input))
  {
    assert MidCall(d);
    hide Consistent, ReadClient, CheckKeepalive;
    var r := ReadClient(d, input);
    ReadKeepsMidCall(d, input);
    var e := if input.error then r.(connected := false) else r;
    CheckKeepsMidCall(e, input.now);
    CloseKeepsConsistent(CheckKeepalive(e, input.now));
  }

  lemma AcceptKeepsConsistent(d: DaemonEnd, fd: nat, now: int)
    requires Consistent(d) && !d.connected
    ensures Consistent(AcceptClient(d, fd, now))
  {
    LogSnoc(d.log, Accepted(fd));
    LogOkSnoc(d.log, Accepted(fd));
  }

  lemma ConsistentAtAnyTime(d: DaemonEnd, t: int)
    requires Consistent(d)
    ensures Consistent(d.(lastMsg := t))
  {
  }

  lemma StepKeepsConsistent(d: DaemonEnd, input: Input)
    requires Consistent(d)
    ensures Consistent(HandleClient(d, input))
  {
    hide Consistent, PollClient;
    if d.connected {
      PollKeepsConsistent(d, input.poll);
    } else {
      AcceptKeepsConsistent(d, input.acceptedFd, input.poll.now);
    }
  }

  /**
   At every step boundary: connected iff the descriptor is not -1; the polled descriptor is the
   client's once one was accepted; every accept is matched by one close, except the current
   connection's; a keepalive is pending iff it is the latest relevant event.
   */
  lemma {:induction false} ConnectionConsistent(inputs: seq<Input>)
    ensures Consistent(Run(START, inputs))
  {
    if inputs == [] {
    } else {
      ConnectionConsistent(Front(inputs));
      StepKeepsConsistent(Run(START, Front(inputs)), Last(inputs));
    }
  }

  // ---- When the daemon keeps a client ----

  /** When the current client was accepted or last spoke. */
  function LastHeard(inputs: seq<Input>): int {
    if inputs == [] then 0
    else
      var i := Last(inputs).poll;
      if !Run(START, Front(inputs)).connected then i.now
      else if i.pollIn && i.bytes > 0 then i.readAt
      else LastHeard(Front(inputs))
  }

  lemma {:induction false} ClockExactly(inputs: seq<Input>)
    ensures Run(START, inputs).lastMsg == LastHeard(inputs)
  {
    if inputs == [] {
    } else {
      ClockExactly(Front(inputs));
    }
  }

  /** The socket reports an error, or a read that yields nothing. */
  predicate Broken(p: PollInput) {
    p.error || (p.pollIn && p.bytes <= 0)
  }

  predicate Speaks(p: PollInput) {
    p.pollIn && p.bytes > 0
  }

  /** Still quiet for more than 13 s, and asked before: by this client's or an earlier connection's keepalive. */
  predicate TooLate(log: seq<Io>, lastHeard: int, p: PollInput) {
    !Broken(p) && !Speaks(p) && KeepaliveLatest(log) && p.now - lastHeard > 13
  }

  /** Quiet for more than 10 s by the time of the call, and no unanswered keepalive. */
  predicate AsksNow(log: seq<Io>, lastHeard: int, p: PollInput) {
    !Broken(p) && (Speaks(p) || !KeepaliveLatest(log)) && p.now - lastHeard > 10
  }

  /**
   In every run: a call with no client accepts one; a call with a client keeps it if and only if the
   socket is not broken and the client is not too late, and asks, drops and closes accordingly.
   */
  lemma KeptExactly(inputs: seq<Input>, input: Input)
    ensures var d, d', p := Run(START, inputs), Run(START, inputs + [input]), input.poll;
            var heard := LastHeard(inputs + [input]);
            if !d.connected then
              d'.connected && d'.fd == input.acceptedFd && d'.log == d.log + [Accepted(input.acceptedFd)]
            else
              && (d'.connected <==> !Broken(p) && !TooLate(d.log, heard, p))
              && d'.fd == d'.polled == (if d'.connected then d.fd else -1)
              && d'.log == d.log + (if Speaks(p) then [MessageReceived] else [])
                           + (if AsksNow(d.log, heard, p) then [KeepaliveSent] else [])
                           + (if TooLate(d.log, heard, p) then [TimedOut] else [])
                           + (if d'.connected then [] else [Closed(d.fd)])
  {
    ConnectionConsistent(inputs);
    ClockExactly(inputs);
    RunSnoc(START, inputs, input);
    assert Front(inputs + [input]) == inputs && Last(inputs + [input]) == input;
    var d := Run(START, inputs);
    hide Run, LogOk, Count, LinkUp, KeepaliveLatest;
    if d.connected {
      PollExactly(d, input.poll);
    }
  }

  lemma PollExactly(d: DaemonEnd, p: PollInput)
    requires d.connected && (d.pending <==> KeepaliveLatest(d.log))
    ensures var d', heard := PollClient(d, p), if Speaks(p) then p.readAt else d.lastMsg;
            && (d'.connected <==> !Broken(p) && !TooLate(d.log, heard, p))
            && d'.fd == (if d'.connected then d.fd else -1) && d'.polled == (if d'.connected then d.polled else -1)
            && d'.log == d.log + (if Speaks(p) then [MessageReceived] else [])
                         + (if AsksNow(d.log, heard, p) then [KeepaliveSent] else [])
                         + (if TooLate(d.log, heard, p) then [TimedOut] else [])
                         + (if d'.connected then [] else [Closed(d.fd)])
  {
    hide KeepaliveLatest;
  }

  // ---- The client's sockets ----

  const CLIENT_START := ClientEnd(false, -1, 0, 0, [])

  ghost predicate ClientConsistent(c: ClientEnd) {
    && (c.connected <==> c.fd != -1)
    && (c.connected ==> c.fd >= 0 && c.polled == c.fd)
    && (forall fd :: Count(c.log, Opened(fd))
          == Count(c.log, Closed(fd)) + Count(c.log, ConnectFailed(fd)) + if c.connected && c.fd == fd then 1 else 0)
  }

  lemma TryKeepsConsistent(c: ClientEnd, attempt: Attempt)
    requires ClientConsistent(c) && !c.connected
    ensures ClientConsistent(TryConnect(c, attempt))
  {
    hide Count, KeepaliveLatest, LinkUp;
    match attempt
    case NoSocket =>
    case RefusedOn(fd) =>
      assert c.log + [Opened(fd), ConnectFailed(fd)] == c.log + [Opened(fd)] + [ConnectFailed(fd)];
      LogSnoc(c.log, Opened(fd));
      LogSnoc(c.log + [Opened(fd)], ConnectFailed(fd));
    case ConnectedOn(fd) => LogSnoc(c.log, Opened(fd));
  }

  lemma {:induction false} ConnectKeepsConsistent(c: ClientEnd, attempts: seq<Attempt>)
    requires ClientConsistent(c) && !c.connected && Succeeds(attempts)
    ensures ClientConsistent(ConnectDaemon(c, attempts)) && ConnectDaemon(c, attempts).connected
    decreases |attempts|
  {
    TryKeepsConsistent(c, attempts[0]);
    if attempts[0].ConnectedOn? {
    } else {
      assert attempts == [attempts[0]] + attempts[1..];
      ConnectKeepsConsistent(TryConnect(c, attempts[0]), attempts[1..]);
    }
  }

  lemma {:induction false} ConnectAtAnyTime(c: ClientEnd, attempts: seq<Attempt>, t: int)
    requires Succeeds(attempts)
    ensures ConnectDaemon(c.(lastMsg := t), attempts) == ConnectDaemon(c, attempts).(lastMsg := t)
    decreases |attempts|
  {
    if attempts[0].ConnectedOn? {
    } else {
      assert attempts == [attempts[0]] + attempts[1..];
      ConnectAtAnyTime(TryConnect(c, attempts[0]), attempts[1..], t);
    }
  }

  lemma PollKeepsClientConsistent(c: ClientEnd, input: PollInput)
    requires ClientConsistent(c) && c.connected
    ensures ClientConsistent(PollDaemon(c, input))
  {
    hide Count, KeepaliveLatest, LinkUp;
    LogSnoc(c.log, Closed(c.fd));
    var c' := PollDaemon(c, input);
    assert c'.log == (if c'.connected then c.log else c.log + [Closed(c.fd)]);
  }

  datatype ClientInput = ClientInput(poll: PollInput, attempts: seq<Attempt>)

  function HandleDaemon(c: ClientEnd, input: ClientInput): ClientEnd
    requires !c.connected ==> Succeeds(input.attempts)
  {
    if c.connected then PollDaemon(c, input.poll) else ConnectDaemon(c, input.attempts).(lastMsg := input.poll.now)
  }

  function RunClient(c: ClientEnd, inputs: seq<ClientInput>): ClientEnd
    requires forall i :: 0 <= i < |inputs| ==> Succeeds(inputs[i].attempts)
  {
    if inputs == [] then c else HandleDaemon(RunClient(c, Front(inputs)), Last(inputs))
  }

  /** The client closes each socket once, except the current one and those whose connect was refused: they are never closed. */
  lemma {:induction false} RefusedSocketsStayOpen(inputs: seq<ClientInput>)
    requires forall i :: 0 <= i < |inputs| ==> Succeeds(inputs[i].attempts)
    ensures ClientConsistent(RunClient(CLIENT_START, inputs))
  {
    if inputs == [] {
    } else {
      RefusedSocketsStayOpen(Front(inputs));
      var c := RunClient(CLIENT_START, Front(inputs));
      if c.connected {
        PollKeepsClientConsistent(c, Last(inputs).poll);
      } else {
        ConnectKeepsConsistent(c, Last(inputs).attempts);
      }
    }
  }

  /** When the client connected or last read something. */
  function LastRead(inputs: seq<ClientInput>): int
    requires forall i :: 0 <= i < |inputs| ==> Succeeds(inputs[i].attempts)
  {
    if inputs == [] then 0
    else
      var p := Last(inputs).poll;
      if !RunClient(CLIENT_START, Front(inputs)).connected then p.now
      else if p.pollIn && p.bytes > 0 then p.readAt
      else LastRead(Front(inputs))
  }

  lemma {:induction false} ConnectKeepsClock(c: ClientEnd, attempts: seq<Attempt>)
    requires Succeeds(attempts)
    ensures ConnectDaemon(c, attempts).lastMsg == c.lastMsg && ConnectDaemon(c, attempts).connected
    decreases |attempts|
  {
    if attempts[0].ConnectedOn? {
    } else {
      assert attempts == [attempts[0]] + attempts[1..];
      ConnectKeepsClock(TryConnect(c, attempts[0]), attempts[1..]);
    }
  }

  /** The first attempt that connects is the one used. */
  lemma {:induction false} ConnectsFirst(c: ClientEnd, attempts: seq<Attempt>, i: nat)
    requires i < |attempts| && attempts[i].ConnectedOn? && forall j :: 0 <= j < i ==> !attempts[j].ConnectedOn?
    ensures Succeeds(attempts)
    ensures var c' := ConnectDaemon(c, attempts); c'.connected && c'.fd == c'.polled == attempts[i].fd
    decreases i
  {
    if i == 0 {
    } else {
      assert attempts[1..][i - 1] == attempts[i];
      ConnectsFirst(TryConnect(c, attempts[0]), attempts[1..], i - 1);
    }
  }

  lemma {:induction false} ClientClockExactly(inputs: seq<ClientInput>)
    requires forall i :: 0 <= i < |inputs| ==> Succeeds(inputs[i].attempts)
    ensures RunClient(CLIENT_START, inputs).lastMsg == LastRead(inputs)
  {
    if inputs == [] {
    } else {
      ClientClockExactly(Front(inputs));
    }
  }

  /**
   In every run the client gives up its connection, and closes the socket, if and only if the socket
   is broken or nothing was read for more than 13 s; with no connection it makes one.
   */
  lemma GivenUpExactly(inputs: seq<ClientInput>, input: ClientInput)
    requires forall i :: 0 <= i < |inputs + [input]| ==> Succeeds((inputs + [input])[i].attempts)
    ensures forall i :: 0 <= i < |inputs| ==> Succeeds(inputs[i].attempts)
    ensures var c, c', p := RunClient(CLIENT_START, inputs), RunClient(CLIENT_START, inputs + [input]), input.poll;
            if !c.connected then c'.connected
            else
              && c'.fd == c'.polled == (if c'.connected then c.fd else -1)
              && (c'.connected <==> !Broken(p) && p.now - LastRead(inputs + [input]) <= 13)
              && c'.log == c.log + if c'.connected then [] else [Closed(c.fd)]
  {
    assert forall i :: 0 <= i < |inputs| ==> (inputs + [input])[i] == inputs[i];
    assert (inputs + [input])[|inputs|] == input;
    ClientClockExactly(inputs);
    RefusedSocketsStayOpen(inputs);
    assert Front(inputs + [input]) == inputs && Last(inputs + [input]) == input;
    ConnectKeepsClock(RunClient(CLIENT_START, inputs), input.attempts);
  }

  /** A refused connect and a successful one: the first socket is never closed. */
  lemma RefusedSocketLeaks(refused: nat, used: nat, poll: PollInput)
    ensures var attempts := [RefusedOn(refused), ConnectedOn(used)];
            && Succeeds(attempts)
            && RunClient(CLIENT_START, [ClientInput(poll, attempts)])
                 == ClientEnd(true, used, used, poll.now, [Opened(refused), ConnectFailed(refused), Opened(used)])
  {
    var attempts := [RefusedOn(refused), ConnectedOn(used)];
    assert attempts[1].ConnectedOn?;
    assert attempts[1..] == [ConnectedOn(used)] && [ConnectedOn(used)][0].ConnectedOn?;
    assert ConnectDaemon(CLIENT_START, attempts) == ConnectDaemon(TryConnect(CLIENT_START, attempts[0]), attempts[1..]);
    assert RunClient(CLIENT_START, []) == CLIENT_START;
    assert [ClientInput(poll, attempts)][..0] == [];
  }

  // ---- A keepalive left pending by the previous connection ----

  ghost predicate Between(log: seq<Io>, a: int, b: int, io: Io) {
    exists i :: a < i < b && 0 <= i < |log| && log[i] == io
  }

  /** From an accept on: what is pending was asked for since, or pending then with no message since. */
  lemma {:induction false} AskedOrCarried(log: seq<Io>, c: nat, j: nat)
    requires LogOk(log) && c < j <= |log| && log[c].Accepted?
    requires forall i :: c < i < j ==> !log[i].Accepted? && !log[i].TimedOut?
    ensures var fresh' := !KeepaliveLatest(log[..c]) || Between(log, c, j, MessageReceived);
            if KeepaliveLatest(log[..j]) then Between(log, c, j, KeepaliveSent) <==> fresh' else fresh'
  {
    assert log[..j] == log[..j - 1] + [log[j - 1]];
    LogSnoc(log[..j - 1], log[j - 1]);
    if j == c + 1 {
    } else {
      AskedOrCarried(log, c, j - 1);
      assert IoOk(log[..j - 1], log[j - 1]);
      var io := log[j - 1];
      assert forall x :: Between(log, c, j, x) <==> Between(log, c, j - 1, x) || x == io;
    }
  }

  lemma {:induction false} DownUntilAccepted(log: seq<Io>, i: nat, j: nat)
    requires i < j <= |log| && log[i].TimedOut?
    requires forall k :: i < k < j ==> !log[k].Accepted?
    ensures !LinkUp(log[..j])
  {
    assert log[..j] == log[..j - 1] + [log[j - 1]];
    LogSnoc(log[..j - 1], log[j - 1]);
    if j == i + 1 {
    } else {
      DownUntilAccepted(log, i, j - 1);
    }
  }

  /**
   In every run a client accepted at c and timed out at k was asked in between if and only if no
   keepalive was pending when it was accepted, or it sent a message.
   */
  lemma AskedBeforeTimeout(inputs: seq<Input>, c: nat, k: nat)
    requires var log := Run(START, inputs).log;
             && c < k < |log| && log[c].Accepted? && log[k].TimedOut?
             && forall i :: c < i < k ==> !log[i].Accepted?
    ensures var log := Run(START, inputs).log;
            Between(log, c, k, KeepaliveSent) <==> !KeepaliveLatest(log[..c]) || Between(log, c, k, MessageReceived)
  {
    ConnectionConsistent(inputs);
    AskedInOrder(Run(START, inputs).log, c, k);
  }

  lemma AskedInOrder(log: seq<Io>, c: nat, k: nat)
    requires LogOk(log) && c < k < |log| && log[c].Accepted? && log[k].TimedOut?
    requires forall i :: c < i < k ==> !log[i].Accepted?
    ensures Between(log, c, k, KeepaliveSent) <==> !KeepaliveLatest(log[..c]) || Between(log, c, k, MessageReceived)
  {
    assert IoOk(log[..k], log[k]);
    forall i | c < i < k ensures !log[i].TimedOut? {
      if log[i].TimedOut? {
        DownUntilAccepted(log, i, k);
      }
    }
    AskedOrCarried(log, c, k);
  }

  /** A client that stays silent, polled at the given times until it is dropped. */
  function Silent(d: DaemonEnd, times: seq<int>): DaemonEnd {
    if times == [] then d
    else
      var p := Silent(d, Front(times));
      if p.connected then PollClient(p, PollInput(false, 0, false, 0, Last(times))) else p
  }

  /** A silent client with a keepalive already pending is never asked, and dropped at the first poll past 13 s. */
  lemma {:induction false} DroppedUnaskedAt(d: DaemonEnd, times: seq<int>)
    requires d.connected && d.pending
    ensures var d' := Silent(d, times);
            && d.log <= d'.log && d'.lastMsg == d.lastMsg && (d'.connected ==> d'.pending)
            && KeepaliveSent !in d'.log[|d.log|..]
            && (d'.connected <==> forall i :: 0 <= i < |times| ==> times[i] - d.lastMsg <= KEEPALIVE_MSG_TIMEOUT_SEC)
  {
    if times == [] {
    } else {
      DroppedUnaskedAt(d, Front(times));
      var p, d' := Silent(d, Front(times)), Silent(d, times);
      assert p.log <= d'.log;
      assert d'.log[|d.log|..] == p.log[|d.log|..] + d'.log[|p.log|..];
      assert forall i :: 0 <= i < |times| - 1 ==> Front(times)[i] == times[i];
    }
  }

  /** A pending keepalive outlives exactly the disconnects that are not timeouts, unless a message came first. */
  lemma PendingSurvivesDisconnect(d: DaemonEnd, input: PollInput, fd: nat, now: int)
    requires d.connected && d.pending && !PollClient(d, input).connected
    ensures AcceptClient(PollClient(d, input), fd, now).pending <==>
            !(input.pollIn && input.bytes > 0)
              && (input.error || (input.pollIn && input.bytes <= 0))
  {
  }

  lemma RunSnoc(d: DaemonEnd, inputs: seq<Input>, input: Input)
    ensures Run(d, inputs + [input]) == HandleClient(Run(d, inputs), input)
  {
    assert (inputs + [input])[..|inputs|] == inputs;
  }

  /** A run: the first client is asked and its connection breaks, the second is dropped without being asked. */
  lemma DroppedUnasked(first: nat, second: nat) returns (inputs: seq<Input>)
    ensures Run(START, inputs).log
         == [Accepted(first), KeepaliveSent, Closed(first), Accepted(second), TimedOut, Closed(second)]
  {
    var quiet, broken := (now: int) => PollInput(false, 0, false, 0, now), PollInput(false, 0, true, 0, 12);
    var i1, i2, i3 := Input(quiet(0), first), Input(quiet(11), 0), Input(broken, 0);
    var i4, i5 := Input(quiet(13), second), Input(quiet(27), 0);
    RunSnoc(START, [], i1);
    RunSnoc(START, [] + [i1], i2);
    RunSnoc(START, [] + [i1] + [i2], i3);
    var d3 := Run(START, [] + [i1] + [i2] + [i3]);
    assert d3 == DaemonEnd(false, -1, -1, true, 0, [Accepted(first), KeepaliveSent, Closed(first)]);
    RunSnoc(START, [] + [i1] + [i2] + [i3], i4);
    RunSnoc(START, [] + [i1] + [i2] + [i3] + [i4], i5);
    inputs := [] + [i1] + [i2] + [i3] + [i4] + [i5];
  }
}

/** The SimConnection object: the flags and descriptors of both ends, updated in place. */
module SimConnection {
  import opened SimConnectionModel

  /** How setting up the listening socket ends. */
  datatype ListenSetup =
    | SocketFailed | OptionsFailed(fd: nat) | BindFailed(fd: nat) | ListenFailed(fd: nat) | Listening(fd: nat)

  predicate Accepts(results: seq<int>) {
    exists i :: 0 <= i < |results| && results[i] >= 0
  }

  /** The first result of accept that is a descriptor. */
  function FirstAccepted(results: seq<int>): (fd: nat)
    requires Accepts(results)
    ensures fd in results
  {
    if results[0] >= 0 then results[0]
    else
      assert results == [results[0]] + results[1..];
      FirstAccepted(results[1..])
  }

  class SimConnection {
    var serverSocketFd: int
    var clientConnected: bool
    var clientConnectionFd: int
    var daemonFds: int
    var pendingKeepalive: bool
    var daemonConnected: bool
    var daemonConnectionFd: int
    var clientFds: int
    ghost var log: seq<Io>
    ghost var clientLog: seq<Io>
    ghost var listenerLog: seq<Io>

    /** The daemon's end as a value; the caller keeps the time of the last message. */
    ghost function DaemonView(lastMsg: int): DaemonEnd
      reads this
    {
      DaemonEnd(clientConnected, clientConnectionFd, daemonFds, pendingKeepalive, lastMsg, log)
    }

    ghost function ClientView(lastMsg: int): ClientEnd
      reads this
    {
      ClientEnd(daemonConnected, daemonConnectionFd, clientFds, lastMsg, clientLog)
    }

    /** What every run of the daemon's end and of the client's end keeps. */
    ghost predicate Valid()
      reads this
    {
      Consistent(DaemonView(0)) && ClientConsistent(ClientView(0))
    }

    /** Every listening socket was closed once, except the current one. */
    ghost predicate ListenerBalanced()
      reads this
    {
      serverSocketFd >= -1
      && forall fd :: Count(listenerLog, Opened(fd))
                   == Count(listenerLog, Closed(fd)) + if serverSocketFd == fd && fd != -1 then 1 else 0
    }

    constructor ()
      ensures Valid() && ListenerBalanced() && serverSocketFd == -1 && listenerLog == []
      ensures DaemonView(0) == START && ClientView(0) == CLIENT_START
    {
      serverSocketFd, listenerLog := -1, [];
      clientConnected, clientConnectionFd, daemonFds, pendingKeepalive := false, -1, 0, false;
      daemonConnected, daemonConnectionFd, clientFds := false, -1, 0;
      log, clientLog := [], [];
    }

    /** A socket that cannot listen is closed here, and its descriptor is kept. */
    method SetupDaemonSocket(setup: ListenSetup) returns (ok: bool)
      modifies this`serverSocketFd, this`listenerLog
      ensures ok <==> setup.Listening?
      ensures serverSocketFd == if setup.SocketFailed? then -1 else setup.fd
      ensures listenerLog == old(listenerLog) + (if setup.SocketFailed? then [] else [Opened(setup.fd)])
                             + (if setup.ListenFailed? then [Closed(setup.fd)] else [])
      ensures old(ListenerBalanced() && serverSocketFd == -1) ==> (ListenerBalanced() <==> !setup.ListenFailed?)
    {
      if setup.SocketFailed? {
        serverSocketFd := -1;
        return false;
      }
      serverSocketFd := setup.fd;
      LogSnoc(listenerLog, Opened(setup.fd));
      listenerLog := listenerLog + [Opened(setup.fd)];
      if setup.OptionsFailed? || setup.BindFailed? {
        return false;
      }
      if setup.ListenFailed? {
        LogSnoc(listenerLog, Closed(setup.fd));
        listenerLog := listenerLog + [Closed(setup.fd)];
        assert old(ListenerBalanced() && serverSocketFd == -1) ==>
            Count(listenerLog, Opened(setup.fd)) == Count(listenerLog, Closed(setup.fd));
        return false;
      }
      return true;
    }

    /** Accept until it yields a descriptor. */
    method AcceptUntilSuccess(results: seq<int>)
      requires Accepts(results)
      modifies this`clientConnectionFd
      ensures clientConnectionFd == FirstAccepted(results)
    {
      clientConnectionFd := results[0];
      var i := 0;
      assert results[0..] == results;
      while clientConnectionFd < 0
        invariant i < |results| && clientConnectionFd == results[i]
        invariant Accepts(results[i..])
        invariant FirstAccepted(results) == FirstAccepted(results[i..])
        decreases |results| - i
      {
        assert results[i..][1..] == results[i + 1..];
        ghost var k :| 0 <= k < |results[i..]| && results[i..][k] >= 0;
        assert results[i + 1..][k - 1] >= 0;
        i := i + 1;
        clientConnectionFd := results[i];
      }
    }

    method AcceptClientConnection(results: seq<int>)
      requires Accepts(results)
      modifies this`clientConnected, this`clientConnectionFd, this`daemonFds, this`log
      ensures forall t, now :: DaemonView(now) == AcceptClient(old(DaemonView(t)), FirstAccepted(results), now)
      ensures old(Valid() && !clientConnected) ==> Valid()
    {
      hide Consistent, ClientConsistent;
      ghost var d := DaemonView(0);
      AcceptUntilSuccess(results);
      clientConnected := true;
      daemonFds := clientConnectionFd;
      log := log + [Accepted(clientConnectionFd)];
      if Consistent(d) && !d.connected {
        AcceptKeepsConsistent(d, FirstAccepted(results), 0);
      }
    }

    method SendConnKeepaliveRequest()
      requires clientConnected
      modifies this`log
      ensures log == old(log) + [KeepaliveSent]
    {
      log := log + [KeepaliveSent];
    }

    /** Poll the connected client: what `HandleClientConnection` does while connected. */
    method PollConnection(lastReceived: int, input: PollInput) returns (msgReceived: bool, lastReceived': int)
      requires clientConnected
      modifies this`clientConnected, this`clientConnectionFd, this`daemonFds, this`pendingKeepalive, this`log
      ensures msgReceived == (input.pollIn && input.bytes > 0)
      ensures DaemonView(lastReceived') == PollClient(old(DaemonView(lastReceived)), input)
    {
      msgReceived, lastReceived' := false, lastReceived;
      if input.pollIn {
        if input.bytes <= 0 {
          clientConnected := false;
        } else {
          msgReceived := true;
          if pendingKeepalive {
            pendingKeepalive := false;
          }
          lastReceived' := input.readAt;
          log := log + [MessageReceived];
        }
      }
      if clientConnected && input.error {
        clientConnected := false;
      }
      if clientConnected && input.now - lastReceived' > KEEPALIVE_MSG_INTERVAL_SEC {
        if !pendingKeepalive {
          pendingKeepalive := true;
          SendConnKeepaliveRequest();
        } else if input.now - lastReceived' > KEEPALIVE_MSG_TIMEOUT_SEC {
          clientConnected := false;
          pendingKeepalive := false;
          log := log + [TimedOut];
        }
      }
      if !clientConnected {
        log := log + [Closed(clientConnectionFd)];
        clientConnectionFd := -1;
        daemonFds := clientConnectionFd;
      }
    }

    /** One call: poll the client, or wait for one. */
    method HandleClientConnection(lastReceived: int, input: PollInput, acceptResults: seq<int>)
      returns (msgReceived: bool, lastReceived': int)
      requires Valid() && (!clientConnected ==> Accepts(acceptResults))
      modifies this`clientConnected, this`clientConnectionFd, this`daemonFds, this`pendingKeepalive, this`log
      ensures Valid()
      ensures msgReceived == (old(clientConnected) && input.pollIn && input.bytes > 0)
      ensures var fd := if old(clientConnected) then 0 else FirstAccepted(acceptResults);
              DaemonView(lastReceived') == HandleClient(old(DaemonView(lastReceived)), Input(input, fd))
    {
      hide PollClient, Consistent;
      ghost var d := DaemonView(lastReceived);
      ConsistentAtAnyTime(DaemonView(0), lastReceived);
      msgReceived, lastReceived' := false, lastReceived;
      if clientConnected {
        msgReceived, lastReceived' := PollConnection(lastReceived, input);
        PollKeepsConsistent(d, input);
        ConsistentAtAnyTime(DaemonView(lastReceived'), 0);
      } else {
        AcceptClientConnection(acceptResults);
        lastReceived' := input.now;
        assert DaemonView(input.now) == AcceptClient(d, FirstAccepted(acceptResults), input.now);
      }
    }

    method ConnectToDaemon(attempt: Attempt) returns (ok: bool)
      modifies this`daemonConnected, this`daemonConnectionFd, this`clientFds, this`clientLog
      ensures forall t :: ClientView(t) == TryConnect(old(ClientView(t)), attempt)
      ensures ok <==> attempt.ConnectedOn?
    {
      if attempt.NoSocket? {
        daemonConnectionFd := -1;
        return false;
      }
      daemonConnectionFd := attempt.fd;
      clientLog := clientLog + [Opened(attempt.fd)];
      if attempt.RefusedOn? {
        clientLog := clientLog + [ConnectFailed(attempt.fd)];
        daemonConnectionFd := -1;
        return false;
      }
      daemonConnected := true;
      clientFds := daemonConnectionFd;
      return true;
    }

    /** Connect until it succeeds, as at start-up and after a lost connection. */
    method ConnectUntilSuccess(attempts: seq<Attempt>)
      requires Succeeds(attempts)
      modifies this`daemonConnected, this`daemonConnectionFd, this`clientFds, this`clientLog
      ensures ClientView(0) == ConnectDaemon(old(ClientView(0)), attempts)
    {
      var ok := ConnectToDaemon(attempts[0]);
      var i := 0;
      assert attempts[0..] == attempts;
      while !ok
        invariant i < |attempts| && (ok <==> attempts[i].ConnectedOn?)
        invariant ok ==> ClientView(0) == ConnectDaemon(old(ClientView(0)), attempts)
        invariant !ok ==> Succeeds(attempts[i + 1..])
                          && ConnectDaemon(ClientView(0), attempts[i + 1..]) == ConnectDaemon(old(ClientView(0)), attempts)
        decreases |attempts| - i
      {
        i := i + 1;
        assert attempts[i..][1..] == attempts[i + 1..];
        ok := ConnectToDaemon(attempts[i]);
      }
    }

    /** One call at the client's end: poll the daemon, or connect to it. */
    method HandleDaemonConnection(lastReceived: int, input: PollInput, attempts: seq<Attempt>)
      returns (msgReceived: bool, lastReceived': int)
      requires Valid() && (!daemonConnected ==> Succeeds(attempts))
      modifies this`daemonConnected, this`daemonConnectionFd, this`clientFds, this`clientLog
      ensures Valid()
      ensures msgReceived == (old(daemonConnected) && input.pollIn && input.bytes > 0)
      ensures ClientView(lastReceived') == HandleDaemon(old(ClientView(lastReceived)), ClientInput(input, attempts))
    {
      hide Consistent, Count;
      msgReceived, lastReceived' := false, lastReceived;
      if daemonConnected {
        if input.pollIn {
          if input.bytes <= 0 {
            daemonConnected := false;
          } else {
            msgReceived := true;
            lastReceived' := input.readAt;
          }
        }
        if daemonConnected && input.error {
          daemonConnected := false;
        }
        if daemonConnected && input.now - lastReceived' > KEEPALIVE_MSG_TIMEOUT_SEC {
          daemonConnected := false;
        }
        if !daemonConnected {
          clientLog := clientLog + [Closed(daemonConnectionFd)];
          daemonConnectionFd := -1;
          clientFds := daemonConnectionFd;
        }
        PollKeepsClientConsistent(old(ClientView(lastReceived)), input);
      } else {
        ConnectKeepsConsistent(ClientView(0), attempts);
        ConnectAtAnyTime(ClientView(0), attempts, lastReceived);
        ConnectUntilSuccess(attempts);
        lastReceived' := input.now;
      }
    }

    /** Closing down closes the current client's descriptor and the listening socket, each once; a second call closes nothing. */
    method TearDownClientConnection()
      modifies this`clientConnected, this`clientConnectionFd, this`serverSocketFd, this`log, this`listenerLog
      ensures !clientConnected && serverSocketFd == -1
      ensures log == old(log) + if old(clientConnected) then [Closed(old(clientConnectionFd))] else []
      ensures listenerLog == old(listenerLog) + if old(serverSocketFd) != -1 then [Closed(old(serverSocketFd))] else []
      ensures old(Valid()) ==> clientConnectionFd == -1 && forall fd :: Count(log, Accepted(fd)) == Count(log, Closed(fd))
      ensures old(ListenerBalanced()) ==> forall fd :: Count(listenerLog, Opened(fd)) == Count(listenerLog, Closed(fd))
    {
      if clientConnected {
        LogSnoc(log, Closed(clientConnectionFd));
        log := log + [Closed(clientConnectionFd)];
        clientConnectionFd := -1;
        clientConnected := false;
      }
      if serverSocketFd != -1 {
        LogSnoc(listenerLog, Closed(serverSocketFd));
        listenerLog := listenerLog + [Closed(serverSocketFd)];
        serverSocketFd := -1;
      }
    }

    method TearDownDaemonConnection()
      requires Valid()
      modifies this`daemonConnected, this`daemonConnectionFd, this`clientLog
      ensures Valid() && !daemonConnected
      ensures clientLog == old(clientLog) + if old(daemonConnected) then [Closed(old(daemonConnectionFd))] else []
    {
      if daemonConnected {
        LogSnoc(clientLog, Closed(daemonConnectionFd));
        clientLog := clientLog + [Closed(daemonConnectionFd)];
        daemonConnectionFd := -1;
        daemonConnected := false;
      }
    }

    /** Set up, and tear down when that fails: the socket is closed as often as opened, and once too often if listen failed. */
    method StartListening(setup: ListenSetup) returns (ok: bool)
      requires ListenerBalanced() && serverSocketFd == -1
      modifies this
      ensures ok <==> setup.Listening?
      ensures ok ==> ListenerBalanced() && serverSocketFd == setup.fd
      ensures !ok ==> serverSocketFd == -1
      ensures !ok ==> forall fd :: Count(listenerLog, Closed(fd))
                                == Count(listenerLog, Opened(fd)) + if setup.ListenFailed? && setup.fd == fd then 1 else 0
    {
      hide Count, KeepaliveLatest, LinkUp;
      ok := SetupDaemonSocket(setup);
      if !ok {
        if setup.ListenFailed? {
          OpenedAndClosed(old(listenerLog), setup.fd);
          LogSnoc(listenerLog, Closed(setup.fd));
        }
        TearDownClientConnection();
      }
    }
  }
}
