/**
 The byte messages between the remote-SIM daemon and the client at the card: the encoders of
 SimConnection, the client's APDU parser and the daemon's handlers of client messages.
 One read is one message.
 */
module RemoteSimCodec {
  import opened Common

  const BUF_LEN := 1024

  const APDU_TRANSFER_MSG: Byte := 0
  const CARD_CONNECT_MSG: Byte := 1
  const CARD_DISCONNECT_MSG: Byte := 2
  const CARD_POWER_UP_MSG: Byte := 3
  const CARD_POWER_DOWN_MSG: Byte := 4
  const CARD_RESET_MSG: Byte := 5
  const CARD_INSERTED_MSG: Byte := 6
  const CARD_REMOVED_MSG: Byte := 7
  const CONN_KEEPALIVE_MSG: Byte := 8

  /** Conversion of an int or unsigned int to an 8-bit unsigned value. */
  function Low8(x: int): Byte {
    x % 256
  }

  function Low8s(data: seq<int>): seq<Byte> {
    seq(|data|, i requires 0 <= i < |data| => Low8(data[i]))
  }

  /** Byte values stay, and values that differ by a multiple of 256 become the same byte. */
  lemma {:induction false} Low8Wraps(x: int, n: nat)
    ensures 0 <= x < 256 ==> Low8(x) == x
    ensures Low8(x + 256 * n) == Low8(x)
  {
    if n == 0 {
    } else {
      Low8Wraps(x, n - 1);
      assert x + 256 * n == (x + 256 * (n - 1)) + 256;
    }
  }

  // ---- Encoders ----

  function ApduRequest(id: nat, apdu: seq<Byte>): seq<Byte> {
    [APDU_TRANSFER_MSG, Low8(id)] + apdu
  }

  function ApduResponse(data: seq<int>, id: Byte): seq<Byte> {
    [APDU_TRANSFER_MSG, id, Low8(|data|)] + Low8s(data)
  }

  function AtrMessage(msgType: Byte, atr: seq<int>): seq<Byte> {
    [msgType, Low8(|atr|)] + Low8s(atr)
  }

  method SendApduRequest(id: nat, apdu: seq<Byte>) returns (buf: array<Byte>)
    ensures fresh(buf) && buf[..] == ApduRequest(id, apdu)
  {
    buf := new Byte[2 + |apdu|](_ => 0);
    buf[0] := APDU_TRANSFER_MSG;
    buf[1] := Low8(id);
    for i := 0 to |apdu|
      invariant buf[..2 + i] == [APDU_TRANSFER_MSG, Low8(id)] + apdu[..i]
    {
      buf[i + 2] := apdu[i];
      assert apdu[..i + 1] == apdu[..i] + [apdu[i]];
    }
    assert apdu[..|apdu|] == apdu && buf[..2 + |apdu|] == buf[..];
  }

  method SendApduResponse(data: seq<int>, id: Byte) returns (buf: array<Byte>)
    ensures fresh(buf) && buf[..] == ApduResponse(data, id)
  {
    buf := new Byte[3 + |data|](_ => 0);
    buf[0], buf[1], buf[2] := APDU_TRANSFER_MSG, id, Low8(|data|);
    for i := 0 to |data|
      invariant buf[0] == APDU_TRANSFER_MSG && buf[1] == id && buf[2] == Low8(|data|)
      invariant forall k :: 0 <= k < i ==> buf[k + 3] == Low8(data[k])
    {
      buf[i + 3] := Low8(data[i]);
    }
  }

  /** Card reset responses and card inserted messages differ in their first byte. */
  method SendAtr(msgType: Byte, atr: seq<int>) returns (buf: array<Byte>)
    ensures fresh(buf) && buf[..] == AtrMessage(msgType, atr)
  {
    buf := new Byte[2 + |atr|](_ => 0);
    buf[0], buf[1] := msgType, Low8(|atr|);
    for i := 0 to |atr|
      invariant buf[0] == msgType && buf[1] == Low8(|atr|)
      invariant forall k :: 0 <= k < i ==> buf[k + 2] == Low8(atr[k])
    {
      buf[i + 2] := Low8(atr[i]);
    }
  }

  // ---- APDU commands, the four cases of ETSI TS 102 221, section 10.1 ----

  datatype Apdu = Apdu(cla: Byte, ins: Byte, p1: Byte, p2: Byte, data: seq<Byte>, le: Option<Byte>)

  /** No data: cases 1 and 2, without Lc; data: cases 3 and 4. */
  function CommandBytes(a: Apdu): seq<Byte>
    requires |a.data| <= 255
  {
    [a.cla, a.ins, a.p1, a.p2] + (if a.data == [] then [] else [|a.data|] + a.data)
      + (match a.le case None => [] case Some(le) => [le])
  }

  /** What is handed to the SIM card manager. */
  datatype Transmit = Transmit(id: Byte, cla: Byte, ins: Byte, p1: Byte, p2: Byte, lc: Byte, data: seq<Byte>, le: Byte)

  /** Lc is there from a length of eight on. */
  function Lc(m: seq<Byte>): int {
    if |m| < 8 then 0 else m[6]
  }

  function ParseApdu(m: seq<Byte>): Option<Transmit> {
    if |m| < 6 then None else
      var lc := Lc(m);
      if lc > 0 && |m| < lc + 7 then None else
        var data := if lc == 0 then [] else m[7..7 + lc];
        var le := if |m| == 7 then m[6] else if |m| > lc + 7 then m[lc + 7] else 0;
        Some(Transmit(m[1], m[2], m[3], m[4], m[5], lc, data, le))
  }

  /** The parser; `buf` holds the received bytes and no more, so every access is inside them. */
  method ReadApdu(buf: array<Byte>) returns (r: Option<Transmit>)
    ensures r == ParseApdu(buf[..])
  {
    var bytes := buf.Length;
    if bytes < 6 {
      return None;
    }
    var lc: int := 0;
    if bytes >= 8 {
      lc := buf[6];
    }
    if lc > 0 && bytes < lc + 7 {
      return None;
    }
    var data: seq<Byte> := [];
    for i := 0 to lc
      invariant data == if i == 0 then [] else buf[7..7 + i]
    {
      data := data + [buf[i + 7]];
    }
    var le: Byte := 0;
    if bytes == 7 {
      le := buf[6];
    } else if bytes > lc + 7 {
      le := buf[lc + 7];
    }
    r := Some(Transmit(buf[1], buf[2], buf[3], buf[4], buf[5], lc, data, le));
  }

  /** In all four cases the parser recovers what was encoded; an absent Le is read as 0. */
  lemma ApduRoundTrip(id: nat, a: Apdu)
    requires |a.data| <= 255
    ensures ParseApdu(ApduRequest(id, CommandBytes(a)))
         == Some(Transmit(Low8(id), a.cla, a.ins, a.p1, a.p2, |a.data|, a.data,
                          match a.le case None => 0 case Some(le) => le))
    ensures id < 256 ==> Low8(id) == id
  {
    var m := ApduRequest(id, CommandBytes(a));
    var tail := match a.le case None => [] case Some(le) => [le];
    if a.data != [] {
      assert m == [APDU_TRANSFER_MSG, Low8(id), a.cla, a.ins, a.p1, a.p2, |a.data|] + a.data + tail;
      assert m[7..7 + |a.data|] == a.data;
    } else {
      assert m == [APDU_TRANSFER_MSG, Low8(id), a.cla, a.ins, a.p1, a.p2] + tail;
    }
  }

  ghost predicate IsRequest(m: seq<Byte>) {
    exists id: nat, a: Apdu :: |a.data| <= 255 && m == ApduRequest(id, CommandBytes(a))
  }

  /** The messages that the encoder produces, by their length alone once type and Lc are known. */
  predicate Canonical(m: seq<Byte>) {
    && |m| >= 6 && m[0] == APDU_TRANSFER_MSG
    && (|m| >= 8 ==> Lc(m) > 0 && 7 + Lc(m) <= |m| <= 8 + Lc(m))
  }

  function AsApdu(m: seq<Byte>): Apdu
    requires Canonical(m)
  {
    var n := Lc(m);
    var le := if |m| == 7 then Some(m[6]) else if |m| >= 8 && |m| == 8 + n then Some(m[7 + n]) else None;
    Apdu(m[2], m[3], m[4], m[5], if n == 0 then [] else m[7..7 + n], le)
  }

  lemma CanonicalExactly(m: seq<Byte>)
    ensures IsRequest(m) <==> Canonical(m)
  {
    if Canonical(m) {
      var a := AsApdu(m);
      var tail := match a.le case None => [] case Some(le) => [le];
      if |m| >= 8 {
        assert m == m[..7] + m[7..7 + Lc(m)] + tail;
        assert m == ApduRequest(m[1], CommandBytes(a));
      } else {
        assert m == m[..6] + tail;
        assert m == ApduRequest(m[1], CommandBytes(a));
      }
    }
    if IsRequest(m) {
      var id: nat, a: Apdu :| |a.data| <= 255 && m == ApduRequest(id, CommandBytes(a));
      if a.data != [] {
        assert m[6] == |a.data|;
      }
    }
  }

  /** A message that no encoder produces is read as a command with Le: a byte follows an Lc of zero. */
  lemma AcceptedNotEncoded(id: Byte, a: Apdu, x: Byte)
    ensures var m := [APDU_TRANSFER_MSG, id, a.cla, a.ins, a.p1, a.p2, 0, x];
            !IsRequest(m) && ParseApdu(m) == Some(Transmit(id, a.cla, a.ins, a.p1, a.p2, 0, [], x))
  {
    CanonicalExactly([APDU_TRANSFER_MSG, id, a.cla, a.ins, a.p1, a.p2, 0, x]);
  }

  /** The parser takes more than the encoder's messages: exactly those with a zero Lc and bytes after it, and those with bytes after Le. */
  lemma ParserAcceptsExactly(m: seq<Byte>)
    ensures ParseApdu(m).Some? <==> |m| >= 6 && (Lc(m) > 0 ==> |m| >= 7 + Lc(m))
    ensures m != [] && m[0] == APDU_TRANSFER_MSG ==>
              (ParseApdu(m).Some? && !Canonical(m) <==> |m| >= 8 && (Lc(m) == 0 || 8 + Lc(m) < |m|))
    ensures ParseApdu(m).Some? && m[0] == APDU_TRANSFER_MSG && !Canonical(m) ==>
              && |m| >= 8
              && (if Lc(m) == 0 then ParseApdu(m) == ParseApdu(m[..6] + [m[7]])
                  else 8 + Lc(m) < |m| && ParseApdu(m) == ParseApdu(m[..8 + Lc(m)]))
  {
    if ParseApdu(m).Some? && m[0] == APDU_TRANSFER_MSG && !Canonical(m) && Lc(m) != 0 {
      assert m[..8 + Lc(m)][7..7 + Lc(m)] == m[7..7 + Lc(m)];
    }
  }

  // ---- The daemon's handlers of client messages ----

  datatype ModemRequest =
    | SendApdu(id: Byte, apdu: seq<Byte>)
    | SendCardReset(atr: seq<Byte>)
    | SendCardInserted(atr: seq<Byte>)
    | SendCardRemoved
    | NoRequest

  function ApduTransfer(buf: seq<Byte>, bytes: nat): ModemRequest
    requires |buf| == BUF_LEN && 1 <= bytes <= BUF_LEN
  {
    if bytes < 3 || buf[2] != bytes - 3 then NoRequest else SendApdu(buf[1], buf[3..bytes])
  }

  /** The length byte is read without looking at the message length; the buffer is zeroed before each read. */
  function Atr(buf: seq<Byte>, bytes: nat): Option<seq<Byte>>
    requires |buf| == BUF_LEN && 1 <= bytes <= BUF_LEN
  {
    if buf[1] != bytes - 2 then None else Some(buf[2..bytes])
  }

  function ClientMsg(buf: seq<Byte>, bytes: nat): ModemRequest
    requires |buf| == BUF_LEN && 1 <= bytes <= BUF_LEN
  {
    if buf[0] == APDU_TRANSFER_MSG then ApduTransfer(buf, bytes)
    else if buf[0] == CARD_RESET_MSG then
      (match Atr(buf, bytes) case None => NoRequest case Some(atr) => SendCardReset(atr))
    else if buf[0] == CARD_INSERTED_MSG then
      (match Atr(buf, bytes) case None => NoRequest case Some(atr) => SendCardInserted(atr))
    else if buf[0] == CARD_REMOVED_MSG then SendCardRemoved
    else NoRequest
  }

  /** The vector built by the daemon's loops: `n` bytes of the buffer from `from` on. */
  method Collect(buf: array<Byte>, from: nat, n: nat) returns (v: seq<Byte>)
    requires from + n <= buf.Length
    ensures v == buf[from..from + n]
  {
    v := [];
    for i := from to from + n
      invariant v == buf[from..i]
    {
      v := v + [buf[i]];
    }
  }

  method HandleClientMsg(buf: array<Byte>, bytes: nat) returns (r: ModemRequest)
    requires buf.Length == BUF_LEN && 1 <= bytes <= BUF_LEN
    ensures r == ClientMsg(buf[..], bytes)
  {
    r := NoRequest;
    if buf[0] == APDU_TRANSFER_MSG {
      if bytes >= 3 && buf[2] == bytes - 3 {
        var apdu := Collect(buf, 3, buf[2]);
        r := SendApdu(buf[1], apdu);
      }
    } else if buf[0] == CARD_RESET_MSG {
      if buf[1] == bytes - 2 {
        var atr := Collect(buf, 2, buf[1]);
        r := SendCardReset(atr);
      }
    } else if buf[0] == CARD_INSERTED_MSG {
      if buf[1] == bytes - 2 {
        var atr := Collect(buf, 2, buf[1]);
        r := SendCardInserted(atr);
      }
    } else if buf[0] == CARD_REMOVED_MSG {
      r := SendCardRemoved;
    }
  }

  lemma Low8sOfBytes(data: seq<Byte>)
    ensures Low8s(data) == data
  {
  }

  /** An APDU or ATR reaches the modem iff the message is the encoding of at most 255 byte values, and then it is those. */
  lemma ForwardedExactly(buf: seq<Byte>, bytes: nat, id: Byte, v: seq<Byte>)
    requires |buf| == BUF_LEN && 1 <= bytes <= BUF_LEN
    ensures ClientMsg(buf, bytes) == SendApdu(id, v) <==> |v| <= 255 && buf[..bytes] == ApduResponse(v, id)
    ensures ClientMsg(buf, bytes) == SendCardReset(v) <==> |v| <= 255 && buf[..bytes] == AtrMessage(CARD_RESET_MSG, v)
    ensures ClientMsg(buf, bytes) == SendCardInserted(v) <==> |v| <= 255 && buf[..bytes] == AtrMessage(CARD_INSERTED_MSG, v)
  {
    Low8sOfBytes(v);
    var m := buf[..bytes];
    if bytes >= 3 && m == [APDU_TRANSFER_MSG, id, Low8(|v|)] + v {
      assert m[0] == buf[0] && m[1] == buf[1] && m[2] == buf[2] && m[3..] == v && buf[3..bytes] == m[3..];
    }
    if ClientMsg(buf, bytes) == SendApdu(id, v) {
      assert m == [buf[0], buf[1], buf[2]] + buf[3..bytes];
    }
    AtrForwardedExactly(buf, bytes, CARD_RESET_MSG, v);
    AtrForwardedExactly(buf, bytes, CARD_INSERTED_MSG, v);
  }

  lemma AtrForwardedExactly(buf: seq<Byte>, bytes: nat, msgType: Byte, v: seq<Byte>)
    requires |buf| == BUF_LEN && 1 <= bytes <= BUF_LEN
    ensures buf[0] == msgType && Atr(buf, bytes) == Some(v) <==> |v| <= 255 && buf[..bytes] == AtrMessage(msgType, v)
  {
    Low8sOfBytes(v);
    var m := buf[..bytes];
    if m == [msgType, Low8(|v|)] + v {
      assert m[0] == buf[0] && m[1] == buf[1] && m[2..] == v && buf[2..bytes] == m[2..];
    }
    if buf[0] == msgType && Atr(buf, bytes) == Some(v) {
      assert m == [buf[0], buf[1]] + buf[2..bytes];
    }
  }

  /** The message encodes neither the values with the id nor the values as an ATR. */
  predicate NoneOf(m: seq<Byte>, id: Byte, v: seq<Byte>) {
    m != ApduResponse(v, id) && m != AtrMessage(CARD_RESET_MSG, v) && m != AtrMessage(CARD_INSERTED_MSG, v)
  }

  /** The modem is told of a removal iff the message says so, and of nothing iff the message is none of the four. */
  lemma NotForwardedExactly(buf: seq<Byte>, bytes: nat)
    requires |buf| == BUF_LEN && 1 <= bytes <= BUF_LEN
    ensures ClientMsg(buf, bytes) == SendCardRemoved <==> buf[0] == CARD_REMOVED_MSG
    ensures ClientMsg(buf, bytes) == NoRequest <==>
            && buf[0] != CARD_REMOVED_MSG
            && forall id, v: seq<Byte> :: |v| <= 255 ==> NoneOf(buf[..bytes], id, v)
  {
    RemovalIsForwarded(buf, bytes);
    match ClientMsg(buf, bytes)
    case SendApdu(id, v) =>
      ForwardedExactly(buf, bytes, id, v);
      assert !NoneOf(buf[..bytes], id, v);
    case SendCardReset(v) =>
      ForwardedExactly(buf, bytes, 0, v);
      assert !NoneOf(buf[..bytes], 0, v);
    case SendCardInserted(v) =>
      ForwardedExactly(buf, bytes, 0, v);
      assert !NoneOf(buf[..bytes], 0, v);
    case _ =>
      forall id, v: seq<Byte> ensures |v| <= 255 ==> NoneOf(buf[..bytes], id, v) {
        ForwardedExactly(buf, bytes, id, v);
      }
  }

  lemma RemovalIsForwarded(buf: seq<Byte>, bytes: nat)
    requires |buf| == BUF_LEN && 1 <= bytes <= BUF_LEN
    ensures ClientMsg(buf, bytes) == SendCardRemoved <==> buf[0] == CARD_REMOVED_MSG
  {
  }

  /** What a client sends as one read: the message, the rest of the zeroed buffer. */
  ghost predicate Received(buf: seq<Byte>, m: seq<Byte>) {
    |buf| == BUF_LEN && m <= buf && forall i :: |m| <= i < BUF_LEN ==> buf[i] == 0
  }

  /** The card's answer gets through, each value cut to eight bits, iff it has at most 255 values. */
  lemma AnswersGetThroughExactly(buf: seq<Byte>, data: seq<int>, id: Byte)
    requires |data| <= BUF_LEN - 3
    ensures Received(buf, ApduResponse(data, id)) ==>
              ClientMsg(buf, |data| + 3) == if |data| <= 255 then SendApdu(id, Low8s(data)) else NoRequest
    ensures Received(buf, AtrMessage(CARD_RESET_MSG, data)) ==>
              ClientMsg(buf, |data| + 2) == if |data| <= 255 then SendCardReset(Low8s(data)) else NoRequest
    ensures Received(buf, AtrMessage(CARD_INSERTED_MSG, data)) ==>
              ClientMsg(buf, |data| + 2) == if |data| <= 255 then SendCardInserted(Low8s(data)) else NoRequest
  {
  }
}
