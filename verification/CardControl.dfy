/**
 The client next to the SIM card: which requests it sends to the card manager, and when. Opening
 the card connection, with its wait for the answer, is one step.
 */
module CardControlModel {
  import opened Common
  import opened RemoteSimCodec

  /** How an open-connection attempt ends. */
  datatype OpenResult = SendFailed | NoAnswer | Refused | Opened

  datatype CardState = Absent | Present | OtherState

  datatype CardRequest =
    | TransmitApdu(t: Transmit) | RequestAtr(msgType: Byte)
    | OpenConnection | CloseConnection | PowerOn | PowerOff | Reset

  /** A request and the flags at the moment it was sent. */
  datatype Sent = Sent(request: CardRequest, connected: bool, present: bool)

  /** `pending` maps an APDU id to the id its response callback will answer with. */
  datatype Card = Card(present: bool, connected: bool, pending: map<Byte, Byte>, sent: seq<Sent>)

  datatype Step =
    | DaemonMsg(m: seq<Byte>, open: OpenResult, powered: bool)
    | CardInfoChanged(state: CardState, daemonUp: bool, open: OpenResult)
    | ApduAnswered(id: Byte)
    | ResetAnswered(ok: bool)

  function Send(c: Card, r: CardRequest): Card {
    c.(sent := c.sent + [Sent(r, c.connected, c.present)])
  }

  function OpenSapConn(c: Card, open: OpenResult): Card {
    if !c.present then c
    else if open == Opened then Send(c, OpenConnection).(connected := true)
    else Send(c, OpenConnection)
  }

  /** Open the connection if there is none yet. */
  function EnsureOpen(c: Card, open: OpenResult): Card {
    if c.connected then c else OpenSapConn(c, open)
  }

  function SendApduToSim(c: Card, m: seq<Byte>): Card {
    if !c.connected then c
    else match ParseApdu(m)
         case None => c
         case Some(t) => Send(c.(pending := c.pending[t.id := t.id]), TransmitApdu(t))
  }

  function ConnectToCard(c: Card, open: OpenResult): Card {
    var c' := EnsureOpen(c, open);
    if c'.connected then Send(c', RequestAtr(CARD_RESET_MSG)) else c'
  }

  function PowerUpCard(c: Card, open: OpenResult, powered: bool): Card {
    var c' := EnsureOpen(c, open);
    if !c'.connected then c'
    else if powered then Send(Send(c', PowerOn), RequestAtr(CARD_RESET_MSG))
    else Send(c', PowerOn)
  }

  function IfConnected(c: Card, r: CardRequest): Card {
    if c.connected then Send(c, r) else c
  }

  function HandleDaemonMsg(c: Card, m: seq<Byte>, open: OpenResult, powered: bool): Card
    requires m != []
  {
    if m[0] == APDU_TRANSFER_MSG then SendApduToSim(c, m)
    else if m[0] == CARD_CONNECT_MSG then ConnectToCard(c, open)
    else if m[0] == CARD_DISCONNECT_MSG then IfConnected(c, CloseConnection)
    else if m[0] == CARD_POWER_UP_MSG then PowerUpCard(c, open, powered)
    else if m[0] == CARD_POWER_DOWN_MSG then IfConnected(c, PowerOff)
    else if m[0] == CARD_RESET_MSG then IfConnected(c, Reset)
    else c
  }

  function InfoChanged(c: Card, state: CardState, daemonUp: bool, open: OpenResult): Card {
    match state
    case Absent => c.(present := false, connected := false)
    case OtherState => c
    case Present =>
      var c' := c.(present := true);
      if !c'.connected && daemonUp then
        var o := OpenSapConn(c', open);
        if o.connected then Send(o, RequestAtr(CARD_INSERTED_MSG)) else o
      else Send(c', RequestAtr(CARD_INSERTED_MSG))
  }

  function Apply(c: Card, step: Step): Card
    requires step.DaemonMsg? ==> step.m != []
  {
    match step
    case DaemonMsg(m, open, powered) => HandleDaemonMsg(c, m, open, powered)
    case CardInfoChanged(state, daemonUp, open) => InfoChanged(c, state, daemonUp, open)
    case ApduAnswered(id) => c.(pending := c.pending - {id})
    case ResetAnswered(ok) => if ok then Send(c, RequestAtr(CARD_RESET_MSG)) else c
  }

  function Initial(state: CardState): Card {
    Card(state.Present?, false, map[], [])
  }

  predicate Proper(steps: seq<Step>) {
    forall i :: 0 <= i < |steps| && steps[i].DaemonMsg? ==> steps[i].m != []
  }

  function Run(c: Card, steps: seq<Step>): Card
    requires Proper(steps)
  {
    if steps == [] then c else Apply(Run(c, Front(steps)), Last(steps))
  }

  /** These go to the card only while the connected flag is set. */
  predicate NeedsConnection(r: CardRequest) {
    r.TransmitApdu? || r.Reset? || r.PowerOff? || r.PowerOn? || r.CloseConnection?
  }

  ghost predicate Safe(c: Card) {
    && (c.connected ==> c.present)
    && (forall id :: id in c.pending ==> c.pending[id] == id)
    && (forall i :: 0 <= i < |c.sent| && NeedsConnection(c.sent[i].request) ==> c.sent[i].connected && c.sent[i].present)
    && (forall i :: 0 <= i < |c.sent| && c.sent[i].request.OpenConnection? ==> !c.sent[i].connected && c.sent[i].present)
  }

  lemma SendKeepsSafe(c: Card, r: CardRequest)
    requires Safe(c)
    requires NeedsConnection(r) ==> c.connected
    requires r.OpenConnection? ==> !c.connected && c.present
    ensures Safe(Send(c, r))
  {
  }

  lemma OpenKeepsSafe(c: Card, open: OpenResult)
    requires Safe(c) && !c.connected
    ensures Safe(OpenSapConn(c, open))
  {
    if c.present {
      SendKeepsSafe(c, OpenConnection);
    }
  }

  lemma ApduKeepsSafe(c: Card, m: seq<Byte>)
    requires Safe(c)
    ensures Safe(SendApduToSim(c, m))
  {
    if c.connected && ParseApdu(m).Some? {
      var t := ParseApdu(m).value;
      SendKeepsSafe(c.(pending := c.pending[t.id := t.id]), TransmitApdu(t));
    }
  }

  lemma MessageKeepsSafe(c: Card, m: seq<Byte>, open: OpenResult, powered: bool)
    requires Safe(c) && m != []
    ensures Safe(HandleDaemonMsg(c, m, open, powered))
  {
    if !c.connected {
      OpenKeepsSafe(c, open);
    }
    var c' := EnsureOpen(c, open);
    if m[0] == APDU_TRANSFER_MSG {
      ApduKeepsSafe(c, m);
    } else if m[0] == CARD_CONNECT_MSG && c'.connected {
      SendKeepsSafe(c', RequestAtr(CARD_RESET_MSG));
    } else if m[0] == CARD_POWER_UP_MSG && c'.connected {
      SendKeepsSafe(c', PowerOn);
      SendKeepsSafe(Send(c', PowerOn), RequestAtr(CARD_RESET_MSG));
    }
  }

  lemma InfoKeepsSafe(c: Card, state: CardState, daemonUp: bool, open: OpenResult)
    requires Safe(c)
    ensures Safe(InfoChanged(c, state, daemonUp, open))
  {
    var c' := c.(present := true);
    SendKeepsSafe(c', RequestAtr(CARD_INSERTED_MSG));
    if !c'.connected {
      OpenKeepsSafe(c', open);
      SendKeepsSafe(OpenSapConn(c', open), RequestAtr(CARD_INSERTED_MSG));
    }
  }

  lemma StepKeepsSafe(c: Card, step: Step)
    requires Safe(c) && (step.DaemonMsg? ==> step.m != [])
    ensures Safe(Apply(c, step))
  {
    hide Safe, HandleDaemonMsg, InfoChanged;
    match step
    case DaemonMsg(m, open, powered) => MessageKeepsSafe(c, m, open, powered);
    case CardInfoChanged(info, daemonUp, open) => InfoKeepsSafe(c, info, daemonUp, open);
    case ApduAnswered(id) => AnswerKeepsSafe(c, id);
    case ResetAnswered(ok) => SendKeepsSafe(c, RequestAtr(CARD_RESET_MSG));
  }

  lemma AnswerKeepsSafe(c: Card, id: Byte)
    requires Safe(c)
    ensures Safe(c.(pending := c.pending - {id}))
  {
  }

  /** In every reachable state: connected implies present, requests went out only when the flags allow, callbacks carry their key. */
  lemma {:induction false} CardSafety(state: CardState, steps: seq<Step>)
    requires Proper(steps)
    ensures Safe(Run(Initial(state), steps))
  {
    if steps == [] {
    } else {
      CardSafety(state, Front(steps));
      StepKeepsSafe(Run(Initial(state), Front(steps)), Last(steps));
    }
  }

  // ---- What the flags stand for ----

  predicate Removes(step: Step) {
    step.CardInfoChanged? && step.state.Absent?
  }

  predicate Inserts(step: Step) {
    step.CardInfoChanged? && step.state.Present?
  }

  /** Is the card there: inserted last, or present from the start and never removed? */
  predicate Inserted(state: CardState, steps: seq<Step>) {
    if steps == [] then state.Present?
    else Inserts(Last(steps)) || (!Removes(Last(steps)) && Inserted(state, Front(steps)))
  }

  /** Steps that open the connection if it is not open, and succeed in it. */
  predicate Opens(step: Step) {
    match step
    case DaemonMsg(m, open, _) => m != [] && (m[0] == CARD_CONNECT_MSG || m[0] == CARD_POWER_UP_MSG) && open == Opened
    case CardInfoChanged(state, daemonUp, open) => state.Present? && daemonUp && open == Opened
    case _ => false
  }

  /** Step k opened a card that was there, and no removal came after it. */
  ghost predicate OpenSince(state: CardState, steps: seq<Step>, k: nat)
    requires k < |steps|
  {
    Opens(steps[k]) && Inserted(state, steps[..k + 1]) && forall j :: k < j < |steps| ==> !Removes(steps[j])
  }

  ghost predicate OpenedSinceRemoval(state: CardState, steps: seq<Step>) {
    exists k: nat :: k < |steps| && OpenSince(state, steps, k)
  }

  lemma OpenSinceOneMore(state: CardState, steps: seq<Step>, k: nat)
    requires k < |steps|
    ensures if k == |steps| - 1 then OpenSince(state, steps, k) <==> Opens(Last(steps)) && Inserted(state, steps)
            else OpenSince(state, steps, k) <==> !Removes(Last(steps)) && OpenSince(state, Front(steps), k)
  {
    hide Opens, Inserted;
    var front := Front(steps);
    if k == |steps| - 1 {
      assert steps[..k + 1] == steps;
    } else {
      assert steps[..k + 1] == front[..k + 1] && steps[k] == front[k];
      assert forall j :: k < j < |front| ==> steps[j] == front[j];
    }
  }

  lemma OneMoreStep(state: CardState, steps: seq<Step>)
    requires steps != []
    ensures OpenedSinceRemoval(state, steps) <==>
            !Removes(Last(steps)) && (OpenedSinceRemoval(state, Front(steps)) || (Opens(Last(steps)) && Inserted(state, steps)))
  {
    assert Opens(Last(steps)) ==> !Removes(Last(steps));
    hide Opens, Inserted, OpenSince, Removes;
    forall k: nat | k < |steps|
      ensures if k == |steps| - 1 then OpenSince(state, steps, k) <==> Opens(Last(steps)) && Inserted(state, steps)
              else OpenSince(state, steps, k) <==> !Removes(Last(steps)) && OpenSince(state, Front(steps), k)
    {
      OpenSinceOneMore(state, steps, k);
    }
    assert OpenSince(state, steps, |steps| - 1) <==> Opens(Last(steps)) && Inserted(state, steps);
  }

  lemma FlagsAfterStep(c: Card, step: Step)
    requires step.DaemonMsg? ==> step.m != []
    ensures var c' := Apply(c, step);
            && (c'.present <==> Inserts(step) || (!Removes(step) && c.present))
            && (c'.connected <==> !Removes(step) && (c.connected || (Opens(step) && c'.present)))
  {
  }

  /**
   In every run the card counts as connected exactly when an open of a card that was there has
   succeeded and no removal came since. Closing the connection plays no part in it.
   */
  lemma {:induction false} FlagsExactly(state: CardState, steps: seq<Step>)
    requires Proper(steps)
    ensures var c := Run(Initial(state), steps);
            && (c.present <==> Inserted(state, steps))
            && (c.connected <==> OpenedSinceRemoval(state, steps))
  {
    if steps == [] {
    } else {
      hide Apply, OpenedSinceRemoval, Opens;
      FlagsExactly(state, Front(steps));
      OneMoreStep(state, steps);
      FlagsAfterStep(Run(Initial(state), Front(steps)), Last(steps));
    }
  }

  // ---- Which requests are sent ----

  predicate IsMsg(step: Step, msgType: Byte) {
    step.DaemonMsg? && step.m != [] && step.m[0] == msgType
  }

  /** From c to c' the step has a reason to send the request. */
  predicate Causes(c: Card, step: Step, c': Card, r: CardRequest) {
    match r
    case OpenConnection =>
      !c.connected && c'.present
      && (IsMsg(step, CARD_CONNECT_MSG) || IsMsg(step, CARD_POWER_UP_MSG) || (Inserts(step) && step.daemonUp))
    case CloseConnection => IsMsg(step, CARD_DISCONNECT_MSG) && c.connected
    case PowerOn => IsMsg(step, CARD_POWER_UP_MSG) && c'.connected
    case PowerOff => IsMsg(step, CARD_POWER_DOWN_MSG) && c.connected
    case Reset => IsMsg(step, CARD_RESET_MSG) && c.connected
    case TransmitApdu(t) => IsMsg(step, APDU_TRANSFER_MSG) && c.connected && ParseApdu(step.m) == Some(t)
    case RequestAtr(msgType) =>
      if Inserts(step) then msgType == CARD_INSERTED_MSG && (c'.connected || !step.daemonUp)
      else && msgType == CARD_RESET_MSG
           && ((IsMsg(step, CARD_CONNECT_MSG) && c'.connected)
               || (IsMsg(step, CARD_POWER_UP_MSG) && c'.connected && step.powered)
               || step == ResetAnswered(true))
  }

  /** The requests sent on the way from c to c'. */
  function Requests(c: Card, c': Card): seq<CardRequest>
    requires |c.sent| <= |c'.sent|
  {
    seq(|c'.sent| - |c.sent|, i requires 0 <= i < |c'.sent| - |c.sent| => c'.sent[|c.sent| + i].request)
  }

  /** No request twice, an open request first, a request for the ATR last. */
  predicate Orderly(rs: seq<CardRequest>) {
    && (forall i, j :: 0 <= i < j < |rs| ==> rs[i] != rs[j])
    && (forall i :: 1 <= i < |rs| ==> !rs[i].OpenConnection?)
    && (forall i :: 0 <= i < |rs| - 1 ==> !rs[i].RequestAtr?)
  }

  /** The one request that any other message may cause. */
  function Single(c: Card, m: seq<Byte>): Option<CardRequest>
    requires m != []
  {
    if !c.connected then None
    else if m[0] == APDU_TRANSFER_MSG then
      (match ParseApdu(m) case None => None case Some(t) => Some(TransmitApdu(t)))
    else if m[0] == CARD_DISCONNECT_MSG then Some(CloseConnection)
    else if m[0] == CARD_POWER_DOWN_MSG then Some(PowerOff)
    else if m[0] == CARD_RESET_MSG then Some(Reset)
    else None
  }

  lemma SingleSends(c: Card, m: seq<Byte>, open: OpenResult, powered: bool)
    requires m != [] && m[0] != CARD_CONNECT_MSG && m[0] != CARD_POWER_UP_MSG
    ensures var c' := HandleDaemonMsg(c, m, open, powered);
            && c.sent <= c'.sent && c'.connected == c.connected
            && Requests(c, c') == match Single(c, m) case None => [] case Some(x) => [x]
  {
    hide ParseApdu;
  }

  lemma MessageRequests(c: Card, m: seq<Byte>, open: OpenResult, powered: bool, r: CardRequest)
    requires m != []
    ensures var step, c' := DaemonMsg(m, open, powered), HandleDaemonMsg(c, m, open, powered);
            && c.sent <= c'.sent && Orderly(Requests(c, c')) && (r in Requests(c, c') <==> Causes(c, step, c', r))
  {
    if m[0] == CARD_CONNECT_MSG || m[0] == CARD_POWER_UP_MSG {
      OpeningRequests(c, m, open, powered, r);
    } else {
      SingleSends(c, m, open, powered);
      hide HandleDaemonMsg, Requests, ParseApdu;
      assert Single(c, m).Some? ==> Orderly([Single(c, m).value]);
    }
  }

  lemma OpeningRequests(c: Card, m: seq<Byte>, open: OpenResult, powered: bool, r: CardRequest)
    requires m != [] && (m[0] == CARD_CONNECT_MSG || m[0] == CARD_POWER_UP_MSG)
    ensures var step, c' := DaemonMsg(m, open, powered), HandleDaemonMsg(c, m, open, powered);
            && c.sent <= c'.sent && Orderly(Requests(c, c')) && (r in Requests(c, c') <==> Causes(c, step, c', r))
  {
    var c' := HandleDaemonMsg(c, m, open, powered);
    OpeningSends(c, m, open, powered);
    InOrder(!c.connected && c.present, c'.connected && m[0] == CARD_POWER_UP_MSG,
            c'.connected && (m[0] == CARD_CONNECT_MSG || powered), CARD_RESET_MSG, r);
    hide HandleDaemonMsg, Requests, Orderly;
  }

  lemma InOrder(opens: bool, powers: bool, asks: bool, msgType: Byte, r: CardRequest)
    ensures var rs := (if opens then [OpenConnection] else []) + (if powers then [PowerOn] else [])
                      + (if asks then [RequestAtr(msgType)] else []);
            && Orderly(rs)
            && (r in rs <==> (opens && r == OpenConnection) || (powers && r == PowerOn) || (asks && r == RequestAtr(msgType)))
  {
  }

  lemma OpeningSends(c: Card, m: seq<Byte>, open: OpenResult, powered: bool)
    requires m != [] && (m[0] == CARD_CONNECT_MSG || m[0] == CARD_POWER_UP_MSG)
    ensures var c' := HandleDaemonMsg(c, m, open, powered);
            && c.sent <= c'.sent && c'.present == c.present
            && Requests(c, c')
                 == (if !c.connected && c.present then [OpenConnection] else [])
                    + (if c'.connected && m[0] == CARD_POWER_UP_MSG then [PowerOn] else [])
                    + (if c'.connected && (m[0] == CARD_CONNECT_MSG || powered) then [RequestAtr(CARD_RESET_MSG)] else [])
  {
    var o := EnsureOpen(c, open);
    assert o.sent == c.sent + if !c.connected && c.present then [Sent(OpenConnection, false, true)] else [];
  }

  lemma InfoRequests(c: Card, state: CardState, daemonUp: bool, open: OpenResult, r: CardRequest)
    ensures var step, c' := CardInfoChanged(state, daemonUp, open), InfoChanged(c, state, daemonUp, open);
            && c.sent <= c'.sent && Orderly(Requests(c, c')) && (r in Requests(c, c') <==> Causes(c, step, c', r))
  {
    var c' := InfoChanged(c, state, daemonUp, open);
    var opens, asks := state.Present? && !c.connected && daemonUp, state.Present? && (c'.connected || !daemonUp);
    assert Requests(c, c') == (if opens then [OpenConnection] else []) + []
                              + (if asks then [RequestAtr(CARD_INSERTED_MSG)] else []);
    InOrder(opens, false, asks, CARD_INSERTED_MSG, r);
    hide Orderly, Requests;
  }

  lemma StepRequests(c: Card, step: Step, r: CardRequest)
    requires step.DaemonMsg? ==> step.m != []
    ensures var c' := Apply(c, step);
            && c.sent <= c'.sent && Orderly(Requests(c, c')) && (r in Requests(c, c') <==> Causes(c, step, c', r))
  {
    match step
    case DaemonMsg(m, open, powered) => MessageRequests(c, m, open, powered, r);
    case CardInfoChanged(state, daemonUp, open) => InfoRequests(c, state, daemonUp, open, r);
    case ApduAnswered(id) => assert Requests(c, Apply(c, step)) == [];
    case ResetAnswered(ok) =>
      assert Requests(c, Apply(c, step)) == if ok then [RequestAtr(CARD_RESET_MSG)] else [];
  }

  lemma RunSnoc(c: Card, steps: seq<Step>, step: Step)
    requires Proper(steps + [step])
    ensures Proper(steps) && (step.DaemonMsg? ==> step.m != [])
    ensures Run(c, steps + [step]) == Apply(Run(c, steps), step)
  {
    assert forall i :: 0 <= i < |steps| ==> (steps + [step])[i] == steps[i];
    assert (steps + [step])[|steps|] == step && Front(steps + [step]) == steps;
  }

  /**
   In every run each step sends exactly the requests it has a reason for, each once, an open request
   first and a request for the ATR last; the connection flags in the reasons are those of `FlagsExactly`.
   */
  lemma RequestsExactly(state: CardState, steps: seq<Step>, step: Step, r: CardRequest)
    requires Proper(steps + [step])
    ensures Proper(steps)
    ensures var c, c' := Run(Initial(state), steps), Run(Initial(state), steps + [step]);
            && (c.connected <==> OpenedSinceRemoval(state, steps))
            && (c'.connected <==> OpenedSinceRemoval(state, steps + [step]))
            && (c'.present <==> Inserted(state, steps + [step]))
            && c.sent <= c'.sent
            && (r in Requests(c, c') <==> Causes(c, step, c', r))
            && Orderly(Requests(c, c'))
  {
    RunSnoc(Initial(state), steps, step);
    FlagsExactly(state, steps);
    FlagsExactly(state, steps + [step]);
    StepRequests(Run(Initial(state), steps), step, r);
    hide Apply, Run, Causes, OpenedSinceRemoval, Inserted, Requests;
  }

  /** An APDU with the id was transmitted and no answer for it came since. */
  ghost predicate Unanswered(state: CardState, steps: seq<Step>, id: Byte) {
    steps != []
    && ((OpenedSinceRemoval(state, Front(steps)) && IsMsg(Last(steps), APDU_TRANSFER_MSG)
         && ParseApdu(Last(steps).m).Some? && Last(steps).m[1] == id)
        || (Last(steps) != ApduAnswered(id) && Unanswered(state, Front(steps), id)))
  }

  /** In every run a callback is held for an id exactly while an APDU with it is unanswered, and answers with that id. */
  lemma {:induction false} PendingExactly(state: CardState, steps: seq<Step>, id: Byte)
    requires Proper(steps)
    ensures var c := Run(Initial(state), steps);
            && (id in c.pending <==> Unanswered(state, steps, id))
            && (id in c.pending ==> c.pending[id] == id)
  {
    if steps == [] {
    } else {
      PendingExactly(state, Front(steps), id);
      FlagsExactly(state, Front(steps));
      CardSafety(state, steps);
      StepPending(Run(Initial(state), Front(steps)), Last(steps), id);
      hide Apply, Safe;
    }
  }

  lemma StepPending(c: Card, step: Step, id: Byte)
    requires step.DaemonMsg? ==> step.m != []
    ensures id in Apply(c, step).pending <==>
            || (c.connected && IsMsg(step, APDU_TRANSFER_MSG) && ParseApdu(step.m).Some? && step.m[1] == id)
            || (step != ApduAnswered(id) && id in c.pending)
  {
  }

  // ---- Requests after a close ----

  /** Was an open request sent on the way from c to c'? */
  ghost predicate Reopened(c: Card, c': Card) {
    exists i :: |c.sent| <= i < |c'.sent| && c'.sent[i].request.OpenConnection?
  }

  /** Some step removes the card. */
  predicate Removal(steps: seq<Step>) {
    exists i :: 0 <= i < |steps| && Removes(steps[i])
  }

  lemma StepReopens(c: Card, step: Step)
    requires step.DaemonMsg? ==> step.m != []
    ensures var c' := Apply(c, step);
            && c.sent <= c'.sent
            && (c.connected ==> !Reopened(c, c'))
            && (!c.connected && c'.connected ==> Reopened(c, c'))
  {
    if !c.connected && Apply(c, step).connected {
      assert Apply(c, step).sent[|c.sent|].request.OpenConnection?;
    }
  }

  /** From a state with the flag set: only a removal clears it, and it is set again only by a new open request. */
  lemma {:induction false} OpenUntilRemoval(c: Card, steps: seq<Step>)
    requires Proper(steps) && c.connected
    ensures var c' := Run(c, steps);
            && c.sent <= c'.sent
            && (!Removal(steps) ==> c'.connected && !Reopened(c, c'))
            && (Removal(steps) && c'.connected ==> Reopened(c, c'))
  {
    if steps == [] {
    } else {
      hide Apply;
      OpenUntilRemoval(c, Front(steps));
      var p, c' := Run(c, Front(steps)), Run(c, steps);
      StepReopens(p, Last(steps));
      FlagsAfterStep(p, Last(steps));
      assert Reopened(c, c') <==> Reopened(c, p) || Reopened(p, c');
      assert Removal(steps) <==> Removal(Front(steps)) || Removes(Last(steps));
    }
  }

  /** A message that asks for an APDU, a reset or a power-off. */
  predicate AsksCard(m: seq<Byte>) {
    m != [] && (m[0] == CARD_POWER_DOWN_MSG || m[0] == CARD_RESET_MSG || (m[0] == APDU_TRANSFER_MSG && ParseApdu(m).Some?))
  }

  /** What a message asks the card for. */
  function RequestFor(m: seq<Byte>): CardRequest
    requires AsksCard(m)
  {
    if m[0] == CARD_RESET_MSG then Reset
    else if m[0] == CARD_POWER_DOWN_MSG then PowerOff
    else TransmitApdu(ParseApdu(m).value)
  }

  /** An open card gets exactly what the message asks for. */
  lemma AskedFor(c: Card, m: seq<Byte>, open: OpenResult, powered: bool)
    requires AsksCard(m)
    ensures HandleDaemonMsg(c, m, open, powered).sent
         == c.sent + if c.connected then [Sent(RequestFor(m), true, c.present)] else []
  {
    hide ParseApdu;
  }

  /**
   After a close request any card request is still sent, as asked for and without the connection
   being opened again, if and only if the card was not removed in between.
   */
  lemma SentAfterCloseExactly(state: CardState, before: seq<Step>, after: seq<Step>, m: seq<Byte>, open: OpenResult, powered: bool)
    requires Proper(before) && Proper(after) && AsksCard(m)
    requires OpenedSinceRemoval(state, before)
    ensures var closed := HandleDaemonMsg(Run(Initial(state), before), [CARD_DISCONNECT_MSG], open, powered);
            var c := Run(closed, after);
            var c' := HandleDaemonMsg(c, m, open, powered);
            && closed.sent != [] && Last(closed.sent).request == CloseConnection
            && (c'.sent == c.sent + [Sent(RequestFor(m), true, true)] && !Reopened(closed, c) <==> !Removal(after))
            && (c'.sent != c.sent ==> c'.sent == c.sent + [Sent(RequestFor(m), true, true)])
  {
    FlagsExactly(state, before);
    var closed := HandleDaemonMsg(Run(Initial(state), before), [CARD_DISCONNECT_MSG], open, powered);
    OpenUntilRemoval(closed, after);
    var c := Run(closed, after);
    AskedFor(c, m, open, powered);
    CardSafety(state, before);
    MessageKeepsSafe(Run(Initial(state), before), [CARD_DISCONNECT_MSG], open, powered);
    RunKeepsSafe(closed, after);
    hide HandleDaemonMsg, Run, Reopened, Removal, AsksCard, RequestFor;
  }

  lemma {:induction false} RunKeepsSafe(c: Card, steps: seq<Step>)
    requires Proper(steps) && Safe(c)
    ensures Safe(Run(c, steps))
  {
    if steps == [] {
    } else {
      RunKeepsSafe(c, Front(steps));
      StepKeepsSafe(Run(c, Front(steps)), Last(steps));
    }
  }

  /**
   A command the modem asks for reaches an open card unchanged, and the answer that its callback
   sends comes back to the modem under the same id iff it has at most 255 values.
   */
  lemma ApduEndToEnd(c: Card, id: Byte, a: Apdu, open: OpenResult, powered: bool, data: seq<int>, buf: seq<Byte>)
    requires c.connected && |a.data| <= 255 && |data| <= BUF_LEN - 3
    ensures var c' := HandleDaemonMsg(c, ApduRequest(id, CommandBytes(a)), open, powered);
            && id in c'.pending && |c'.sent| == |c.sent| + 1
            && c'.sent[|c.sent|].request == TransmitApdu(Transmit(id, a.cla, a.ins, a.p1, a.p2, |a.data|, a.data,
                                                         match a.le case None => 0 case Some(le) => le))
            && (Received(buf, ApduResponse(data, c'.pending[id])) ==>
                  ClientMsg(buf, |data| + 3) == if |data| <= 255 then SendApdu(id, Low8s(data)) else NoRequest)
  {
    ApduRoundTrip(id, a);
    AnswersGetThroughExactly(buf, data, id);
  }

  /** Connecting ends connected, and asks for the ATR, iff it was open already or a present card could be opened. */
  lemma ConnectsExactly(c: Card, open: OpenResult, powered: bool)
    ensures var c' := HandleDaemonMsg(c, [CARD_CONNECT_MSG], open, powered);
            && (c'.connected <==> c.connected || (c.present && open == Opened))
            && (c'.connected <==> c'.sent != [] && |c'.sent| > |c.sent| && c'.sent[|c'.sent| - 1].request == RequestAtr(CARD_RESET_MSG))
  {
  }
}

module CardControl {
  import opened Common
  import opened RemoteSimCodec
  import opened CardControlModel

  class CardControl {
    var cardPresent: bool
    var cardConnected: bool
    var apduRespCbMap: map<Byte, Byte>
    var sent: seq<Sent>

    ghost function View(): Card
      reads this
    {
      Card(cardPresent, cardConnected, apduRespCbMap, sent)
    }

    /** What every run keeps. */
    ghost predicate Valid()
      reads this
    {
      Safe(View())
    }

    constructor (state: CardState)
      ensures Valid() && View() == Initial(state)
    {
      cardPresent, cardConnected, apduRespCbMap, sent := state.Present?, false, map[], [];
    }

    method Request(r: CardRequest)
      modifies this`sent
      ensures View() == Send(old(View()), r)
    {
      sent := sent + [Sent(r, cardConnected, cardPresent)];
    }

    method OpenConn(open: OpenResult) returns (ok: bool)
      modifies this`sent, this`cardConnected
      ensures View() == OpenSapConn(old(View()), open) && ok == (cardPresent && open == Opened)
    {
      if !cardPresent {
        return false;
      }
      Request(OpenConnection);
      if open == Opened {
        cardConnected := true;
        return true;
      }
      return false;
    }

    method SendApdu(buf: array<Byte>)
      requires Valid()
      modifies this
      ensures Valid()
      ensures View() == SendApduToSim(old(View()), buf[..])
    {
      ApduKeepsSafe(View(), buf[..]);
      if cardConnected {
        var t := ReadApdu(buf);
        if t.Some? {
          apduRespCbMap := apduRespCbMap[t.value.id := t.value.id];
          Request(TransmitApdu(t.value));
        }
      }
    }

    method PowerUp(open: OpenResult, powered: bool)
      requires Valid()
      modifies this
      ensures Valid()
      ensures View() == PowerUpCard(old(View()), open, powered)
    {
      MessageKeepsSafe(View(), [CARD_POWER_UP_MSG], open, powered);
      if !cardConnected {
        var ok := OpenConn(open);
        if !ok {
          return;
        }
      }
      Request(PowerOn);
      if powered {
        Request(RequestAtr(CARD_RESET_MSG));
      }
    }

    method Connect(open: OpenResult)
      requires Valid()
      modifies this
      ensures Valid()
      ensures View() == ConnectToCard(old(View()), open)
    {
      MessageKeepsSafe(View(), [CARD_CONNECT_MSG], open, false);
      if !cardConnected {
        var ok := OpenConn(open);
        if !ok {
          return;
        }
      }
      Request(RequestAtr(CARD_RESET_MSG));
    }

    /** A message from the daemon: `buf` holds the received bytes. */
    method OnDaemonMsg(buf: array<Byte>, open: OpenResult, powered: bool)
      requires buf.Length > 0
      requires Valid()
      modifies this
      ensures Valid()
      ensures View() == HandleDaemonMsg(old(View()), buf[..], open, powered)
    {
      MessageKeepsSafe(View(), buf[..], open, powered);
      if buf[0] == APDU_TRANSFER_MSG {
        SendApdu(buf);
      } else if buf[0] == CARD_CONNECT_MSG {
        Connect(open);
      } else if buf[0] == CARD_DISCONNECT_MSG {
        if cardConnected {
          Request(CloseConnection);
        }
      } else if buf[0] == CARD_POWER_UP_MSG {
        PowerUp(open, powered);
      } else if buf[0] == CARD_POWER_DOWN_MSG {
        if cardConnected {
          Request(PowerOff);
        }
      } else if buf[0] == CARD_RESET_MSG {
        if cardConnected {
          Request(Reset);
        }
      }
    }

    method OnCardInfoChanged(state: CardState, daemonUp: bool, open: OpenResult)
      requires Valid()
      modifies this
      ensures Valid()
      ensures View() == InfoChanged(old(View()), state, daemonUp, open)
    {
      InfoKeepsSafe(View(), state, daemonUp, open);
      if state.Absent? {
        cardPresent := false;
        cardConnected := false;
      } else if state.Present? {
        cardPresent := true;
        if !cardConnected && daemonUp {
          var ok := OpenConn(open);
          if !ok {
            return;
          }
        }
        Request(RequestAtr(CARD_INSERTED_MSG));
      }
    }

    method OnApduResponse(id: Byte)
      requires Valid()
      modifies this
      ensures Valid() && View() == Apply(old(View()), ApduAnswered(id))
    {
      apduRespCbMap := apduRespCbMap - {id};
    }

    method OnResetResponse(ok: bool)
      requires Valid()
      modifies this
      ensures Valid() && View() == Apply(old(View()), ResetAnswered(ok))
    {
      if ok {
        Request(RequestAtr(CARD_RESET_MSG));
      }
    }
  }
}
