/**
 The daemon's main loop: it tells the modem when a client is there and when it is gone, also
 from service-status callbacks, and forwards what the client sends.
 */
module RemoteSimDaemonModel {
  import opened SimConnectionModel

  /** `requests` records the connection events sent to the modem: true for available. */
  datatype Daemon = Daemon(link: DaemonEnd, modemConnected: bool, requests: seq<bool>)

  datatype ServiceStatus = Unavailable | Available | OtherStatus

  datatype Step = Iterate(input: Input) | StatusChange(status: ServiceStatus)

  function NotifyAvailable(d: Daemon): Daemon {
    if d.modemConnected then d else d.(modemConnected := true, requests := d.requests + [true])
  }

  function NotifyUnavailable(d: Daemon): Daemon {
    if d.modemConnected then d.(modemConnected := false, requests := d.requests + [false]) else d
  }

  function Settle(d: Daemon): Daemon {
    if d.link.connected && !d.modemConnected then NotifyAvailable(d)
    else if !d.link.connected && d.modemConnected then NotifyUnavailable(d)
    else d
  }

  function Apply(d: Daemon, step: Step): Daemon {
    match step
    case Iterate(input) => Settle(d.(link := HandleClient(d.link, input)))
    case StatusChange(status) =>
      match status
      case Unavailable => NotifyUnavailable(d)
      case Available => if d.link.connected then NotifyAvailable(d) else d
      case OtherStatus => d
  }

  /** Loop entry: a client was accepted and the modem told so. */
  function Entry(fd: nat, now: int): Daemon {
    Daemon(AcceptClient(START, fd, now), true, [true])
  }

  function Run(d: Daemon, steps: seq<Step>): Daemon {
    if steps == [] then d else Apply(Run(d, steps[..|steps| - 1]), steps[|steps| - 1])
  }

  ghost predicate Alternating(requests: seq<bool>) {
    forall i :: 0 <= i < |requests| - 1 ==> requests[i] != requests[i + 1]
  }

  ghost predicate InStep(d: Daemon) {
    d.requests != [] && Alternating(d.requests) && d.modemConnected == d.requests[|d.requests| - 1]
  }

  lemma StepKeepsInStep(d: Daemon, step: Step)
    requires InStep(d)
    ensures var d' := Apply(d, step);
            && InStep(d') && d'.requests[0] == d.requests[0]
            && (step.Iterate? ==> d'.modemConnected == d'.link.connected)
  {
    hide HandleClient;
  }

  lemma StepKeepsLink(d: Daemon, step: Step)
    requires Consistent(d.link)
    ensures Consistent(Apply(d, step).link)
  {
    hide Consistent, HandleClient;
    if step.Iterate? {
      StepKeepsConsistent(d.link, step.input);
    }
  }

  /** What the modem is to believe after a step: after a turn of the loop the truth, after a status report see there. */
  predicate Wanted(d: Daemon, step: Step, link: DaemonEnd) {
    match step
    case Iterate(_) => link.connected
    case StatusChange(Unavailable) => false
    case StatusChange(Available) => d.modemConnected || link.connected
    case StatusChange(OtherStatus) => d.modemConnected
  }

  /** In every run a step makes the modem believe what it is to, with one request if that is news and none if not. */
  lemma ToldExactly(fd: nat, now: int, steps: seq<Step>, step: Step)
    ensures var d, d' := Run(Entry(fd, now), steps), Run(Entry(fd, now), steps + [step]);
            && d'.modemConnected == Wanted(d, step, d'.link)
            && d'.requests == d.requests + (if d'.modemConnected == d.modemConnected then [] else [d'.modemConnected])
            && d'.link == (if step.Iterate? then HandleClient(d.link, step.input) else d.link)
  {
    hide HandleClient;
    assert (steps + [step])[..|steps|] == steps;
    var d := Run(Entry(fd, now), steps);
    assert Run(Entry(fd, now), steps + [step]) == Apply(d, step);
  }

  /**
   Over every run the modem hears available and unavailable strictly in turn, the first being
   available; a loop iteration ends with the modem's view equal to the link's; the link stays consistent.
   */
  lemma {:induction false} ModemHearsInTurn(fd: nat, now: int, steps: seq<Step>)
    ensures var d := Run(Entry(fd, now), steps);
            && InStep(d) && d.requests[0]
            && Consistent(d.link)
            && (steps != [] && steps[|steps| - 1].Iterate? ==> d.modemConnected == d.link.connected)
  {
    if steps == [] {
      AcceptKeepsConsistent(START, fd, now);
    } else {
      hide InStep, Consistent, Apply, Entry;
      var front := steps[..|steps| - 1];
      ModemHearsInTurn(fd, now, front);
      var d := Run(Entry(fd, now), front);
      StepKeepsInStep(d, steps[|steps| - 1]);
      StepKeepsLink(d, steps[|steps| - 1]);
    }
  }
}

module RemoteSimDaemon {
  import opened SimConnectionModel
  import opened Common
  import opened RemoteSimCodec
  import opened RemoteSimDaemonModel
  import SimConnection

  class RemoteSimDaemon {
    const sim: SimConnection.SimConnection
    var modemConnected: bool
    var requests: seq<bool>

    ghost function View(lastMsg: int): Daemon
      reads this, sim
    {
      Daemon(sim.DaemonView(lastMsg), modemConnected, requests)
    }

    /** What every run keeps: the modem hears in turn, and the sockets are in order. */
    ghost predicate Valid()
      reads this, sim
    {
      InStep(View(0)) && requests[0] && sim.Valid() && sim.ListenerBalanced()
    }

    /** initDaemon up to the loop: the socket listens, one client is accepted, the modem told. */
    constructor (listenFd: nat, acceptResults: seq<int>, now: int)
      requires SimConnection.Accepts(acceptResults)
      ensures Valid() && fresh(sim) && sim.serverSocketFd == listenFd
      ensures View(now) == Entry(SimConnection.FirstAccepted(acceptResults), now)
    {
      hide Consistent, ClientConsistent, Count;
      sim := new SimConnection.SimConnection();
      modemConnected := true;
      requests := [true];
      new;
      var ok := sim.SetupDaemonSocket(SimConnection.Listening(listenFd));
      assert sim.DaemonView(0) == START;
      sim.AcceptClientConnection(acceptResults);
    }

    method NotifyModemConnAvailable()
      requires Valid()
      modifies this
      ensures Valid() && modemConnected
      ensures requests == old(requests) + if old(modemConnected) then [] else [true]
    {
      if !modemConnected {
        requests := requests + [true];
        modemConnected := true;
      }
    }

    method NotifyModemConnUnavailable()
      requires Valid()
      modifies this
      ensures Valid() && !modemConnected
      ensures requests == old(requests) + if old(modemConnected) then [false] else []
    {
      if modemConnected {
        requests := requests + [false];
        modemConnected := false;
      }
    }

    /** One turn of the loop; `buf` is what the read filled in. */
    method Iterate(lastReceived: int, input: PollInput, acceptResults: seq<int>, buf: array<Byte>)
      returns (lastReceived': int, forwarded: ModemRequest)
      requires Valid() && (!sim.clientConnected ==> SimConnection.Accepts(acceptResults))
      requires buf.Length == BUF_LEN && input.bytes <= BUF_LEN
      modifies this, sim
      ensures Valid() && modemConnected == sim.clientConnected
      ensures var fd := if old(sim.clientConnected) then 0 else SimConnection.FirstAccepted(acceptResults);
              && View(lastReceived') == Apply(old(View(lastReceived)), Step.Iterate(Input(input, fd)))
              && forwarded == (if ReceivesMessage(old(sim.DaemonView(lastReceived)), Input(input, fd))
                               then ClientMsg(old(buf[..]), input.bytes) else NoRequest)
    {
      hide HandleClient, Consistent, SimConnection.SimConnection.Valid;
      var receivedMsg;
      receivedMsg, lastReceived' := sim.HandleClientConnection(lastReceived, input, acceptResults);
      forwarded := NoRequest;
      if receivedMsg {
        forwarded := HandleClientMsg(buf, input.bytes);
      }
      if sim.clientConnected && !modemConnected {
        NotifyModemConnAvailable();
      } else if !sim.clientConnected && modemConnected {
        NotifyModemConnUnavailable();
      }
    }

    method OnServiceStatusChange(status: ServiceStatus)
      requires Valid()
      modifies this
      ensures Valid() && forall t :: View(t) == Apply(old(View(t)), StatusChange(status))
    {
      if status == Unavailable {
        NotifyModemConnUnavailable();
      } else if status == Available {
        if sim.clientConnected {
          NotifyModemConnAvailable();
        }
      }
    }

    /** Whatever the run so far, the modem was last told unavailable and every descriptor is closed as often as opened. */
    method DeInit()
      requires Valid()
      modifies this, sim
      ensures Alternating(requests) && requests != [] && !Last(requests)
      ensures forall fd :: Count(sim.log, Accepted(fd)) == Count(sim.log, Closed(fd))
      ensures forall fd :: Count(sim.listenerLog, Opened(fd)) == Count(sim.listenerLog, Closed(fd))
    {
      NotifyModemConnUnavailable();
      sim.TearDownClientConnection();
    }
  }
}
