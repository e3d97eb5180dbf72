/**
 The hex parser used for MSD payloads typed in by the user, and the hex printer of encoded MSDs.
 */
module HexCodec {
  import opened Common

  predicate IsDigit(c: char) { '0' <= c <= '9' }
  predicate IsUpperHex(c: char) { 'A' <= c <= 'F' }
  predicate IsLowerHex(c: char) { 'a' <= c <= 'f' }
  predicate IsHex(c: char) { IsDigit(c) || IsUpperHex(c) || IsLowerHex(c) }

  /** The digit's value; a character that is not a hex digit leaves the previous value `stale`. */
  function Nibble(c: char, stale: int): (n: int)
    requires 0 <= stale < 16
    ensures 0 <= n < 16
  {
    if IsDigit(c) then c as int - 48
    else if IsUpperHex(c) then c as int - 55
    else if IsLowerHex(c) then c as int - 87
    else stale
  }

  /** Indexing a string at its length yields the terminator. */
  function CharAt(s: string, i: nat): char
    requires i <= |s|
  {
    if i < |s| then s[i] else '\0'
  }

  /** What the parser yields from index `i` on, with the nibbles left over from before. */
  function ParseFrom(s: string, i: nat, high: int, low: int): seq<Byte>
    requires 0 <= high < 16 && 0 <= low < 16
    decreases |s| - i
  {
    if i >= |s| then []
    else
      var h, l := Nibble(s[i], high), Nibble(CharAt(s, i + 1), low);
      [h * 16 + l] + ParseFrom(s, i + 2, h, l)
  }

  function Parse(s: string): seq<Byte> {
    ParseFrom(s, 0, 0, 0)
  }

  /** One turn of the loop. */
  lemma ParseTurn(s: string, i: nat, high: int, low: int, before: seq<Byte>)
    requires 0 <= high < 16 && 0 <= low < 16 && i < |s|
    ensures var h, l := Nibble(s[i], high), Nibble(CharAt(s, i + 1), low);
            before + ParseFrom(s, i, high, low) == before + [h * 16 + l] + ParseFrom(s, i + 2, h, l)
  {
    var h, l := Nibble(s[i], high), Nibble(CharAt(s, i + 1), low);
    assert before + ([h * 16 + l] + ParseFrom(s, i + 2, h, l)) == before + [h * 16 + l] + ParseFrom(s, i + 2, h, l);
  }

  /** The value of a digit in the upper or lower half of a byte, or the old one if it is no digit. */
  method ReadNibble(c: char, kept: Byte, weight: int, ghost stale: int) returns (raw: Byte)
    requires weight == 1 || weight == 16
    requires 0 <= stale < 16 && kept == stale * weight
    ensures raw == Nibble(c, stale) * weight
  {
    raw := kept;
    if '0' <= c <= '9' {
      raw := (c as int - 48) * weight;
    } else if 'A' <= c <= 'F' {
      raw := (c as int - 55) * weight;
    } else if 'a' <= c <= 'f' {
      raw := (c as int - 87) * weight;
    }
  }

  /** The loop; that each sum fits a byte is part of its type. */
  method ConvertHexToBytes(hexData: string) returns (output: seq<Byte>)
    ensures output == Parse(hexData)
  {
    output := [];
    var i, rawData1: Byte, rawData2: Byte := 0, 0, 0;
    ghost var high, low := 0, 0;
    while i < |hexData|
      invariant 0 <= high < 16 && 0 <= low < 16 && rawData1 == high * 16 && rawData2 == low * 1
      invariant 0 <= i && Parse(hexData) == output + ParseFrom(hexData, i, high, low)
    {
      hide ParseFrom, Nibble;
      ParseTurn(hexData, i, high, low, output);
      rawData1 := ReadNibble(hexData[i], rawData1, 16, high);
      rawData2 := ReadNibble(CharAt(hexData, i + 1), rawData2, 1, low);
      high, low := Nibble(hexData[i], high), Nibble(CharAt(hexData, i + 1), low);
      output := output + [rawData1 + rawData2];
      i := i + 2;
    }
  }

  function Digit(n: int): (c: char)
    requires 0 <= n < 16
    ensures IsDigit(c) || IsUpperHex(c)
    ensures Nibble(c, 0) == n
  {
    if n < 10 then (n + 48) as char else (n + 55) as char
  }

  /** Upper-case hex padded with zeros to width two. */
  function PrintByte(b: Byte): string {
    if b < 16 then ['0', Digit(b)] else [Digit(b / 16), Digit(b % 16)]
  }

  function Print(bytes: seq<Byte>): string {
    if bytes == [] then [] else Print(bytes[..|bytes| - 1]) + PrintByte(bytes[|bytes| - 1])
  }

  method PrintPayload(msdPdu: seq<Byte>) returns (ss: string)
    ensures ss == Print(msdPdu)
  {
    ss := "";
    for i := 0 to |msdPdu|
      invariant ss == Print(msdPdu[..i])
    {
      ss := ss + PrintByte(msdPdu[i]);
      assert msdPdu[..i + 1][..i] == msdPdu[..i];
    }
    assert msdPdu[..|msdPdu|] == msdPdu;
  }

  lemma {:induction false} PrintedAt(bytes: seq<Byte>, k: nat)
    requires k < |bytes|
    ensures |Print(bytes)| == 2 * |bytes|
    ensures Print(bytes)[2 * k] == Digit(bytes[k] / 16) && Print(bytes)[2 * k + 1] == Digit(bytes[k] % 16)
  {
    var front := bytes[..|bytes| - 1];
    if k < |front| {
      PrintedAt(front, k);
    } else if front != [] {
      PrintedAt(front, 0);
    }
  }

  lemma PrintedLength(bytes: seq<Byte>)
    ensures |Print(bytes)| == 2 * |bytes|
  {
    if bytes != [] {
      PrintedAt(bytes, 0);
    }
  }

  lemma NibbleIgnoresStale(c: char, stale: int)
    requires 0 <= stale < 16 && IsHex(c)
    ensures Nibble(c, stale) == Nibble(c, 0)
  {
  }

  predicate WellFormed(s: string) {
    |s| % 2 == 0 && forall j :: 0 <= j < |s| ==> IsHex(s[j])
  }

  /** The byte of the two digits at j. */
  function Pair(s: string, j: nat): Byte
    requires j + 1 < |s|
  {
    Nibble(s[j], 0) * 16 + Nibble(s[j + 1], 0)
  }

  lemma ParseOne(s: string, i: nat, high: int, low: int)
    requires 0 <= high < 16 && 0 <= low < 16 && i + 1 < |s| && IsHex(s[i]) && IsHex(s[i + 1])
    ensures var h, l := Nibble(s[i], high), Nibble(s[i + 1], low);
            ParseFrom(s, i, high, low) == [Pair(s, i)] + ParseFrom(s, i + 2, h, l)
  {
    NibbleIgnoresStale(s[i], high);
    NibbleIgnoresStale(s[i + 1], low);
  }

  lemma {:induction false} ParsedAt(s: string, i: nat, high: int, low: int, k: nat)
    requires 0 <= high < 16 && 0 <= low < 16
    requires WellFormed(s) && i % 2 == 0 && i + 2 * k < |s|
    ensures k < |ParseFrom(s, i, high, low)| && ParseFrom(s, i, high, low)[k] == Pair(s, i + 2 * k)
    decreases k
  {
    hide ParseFrom, Nibble, IsHex, Pair;
    var h, l := Nibble(s[i], high), Nibble(s[i + 1], low);
    ParseOne(s, i, high, low);
    if k == 0 {
    } else {
      ParsedAt(s, i + 2, h, l, k - 1);
    }
  }

  lemma {:induction false} ParsedLength(s: string, i: nat, high: int, low: int)
    requires 0 <= high < 16 && 0 <= low < 16
    ensures i <= |s| ==> |ParseFrom(s, i, high, low)| == (|s| - i + 1) / 2
    decreases |s| - i
  {
    if i >= |s| {
    } else {
      ParsedLength(s, i + 2, Nibble(s[i], high), Nibble(CharAt(s, i + 1), low));
    }
  }

  /** The value of the last hex digit at position i or an even number of places before it, or 0. */
  function LastHex(s: string, i: int): (n: int)
    ensures 0 <= n < 16
    decreases i + 2
  {
    if i < 0 then 0
    else if i < |s| && IsHex(s[i]) then Nibble(s[i], 0)
    else LastHex(s, i - 2)
  }

  lemma {:induction false} ParsedFrom(s: string, i: nat, k: nat)
    requires i + 2 * k < |s|
    ensures k < |ParseFrom(s, i, LastHex(s, i - 2), LastHex(s, i - 1))|
    ensures ParseFrom(s, i, LastHex(s, i - 2), LastHex(s, i - 1))[k]
         == LastHex(s, i + 2 * k) * 16 + LastHex(s, i + 2 * k + 1)
    decreases k
  {
    assert Nibble(s[i], LastHex(s, i - 2)) == LastHex(s, i);
    assert Nibble(CharAt(s, i + 1), LastHex(s, i - 1)) == LastHex(s, i + 1);
    if k == 0 {
    } else {
      ParsedFrom(s, i + 2, k - 1);
      hide LastHex, Nibble;
    }
  }

  /**
   Any string is parsed into half as many bytes, rounded up; each digit that is missing or no hex
   digit takes the value of the last hex digit in the same half of an earlier byte.
   */
  lemma ParsedExactly(s: string, k: nat)
    requires 2 * k < |s|
    ensures |Parse(s)| == (|s| + 1) / 2
    ensures Parse(s)[k] == LastHex(s, 2 * k) * 16 + LastHex(s, 2 * k + 1)
  {
    ParsedLength(s, 0, 0, 0);
    ParsedFrom(s, 0, k);
  }

  lemma PrintedIsHex(bytes: seq<Byte>, j: nat)
    requires j < |Print(bytes)|
    ensures IsDigit(Print(bytes)[j]) || IsUpperHex(Print(bytes)[j])
  {
    PrintedLength(bytes);
    PrintedAt(bytes, j / 2);
    assert j == 2 * (j / 2) || j == 2 * (j / 2) + 1;
  }

  /** Parsing the printed form of any bytes returns them. */
  lemma ParsePrint(bytes: seq<Byte>)
    ensures Parse(Print(bytes)) == bytes
  {
    var s := Print(bytes);
    PrintedLength(bytes);
    ParsedLength(s, 0, 0, 0);
    forall j | 0 <= j < |s| ensures IsHex(s[j]) {
      PrintedIsHex(bytes, j);
    }
    forall k | 0 <= k < |bytes| ensures Parse(s)[k] == bytes[k] {
      hide Print, ParseFrom;
      PrintedAt(bytes, k);
      ParsedAt(s, 0, 0, 0, k);
    }
  }

  function ToUpper(c: char): char {
    if 'a' <= c <= 'z' then (c as int - 32) as char else c
  }

  function Upper(s: string): string {
    seq(|s|, i requires 0 <= i < |s| => ToUpper(s[i]))
  }

  lemma DigitOfNibble(c: char)
    requires IsHex(c)
    ensures Digit(Nibble(c, 0)) == ToUpper(c)
  {
  }

  lemma PairDigits(s: string, j: nat)
    requires j + 1 < |s| && IsHex(s[j]) && IsHex(s[j + 1])
    ensures Digit(Pair(s, j) / 16) == ToUpper(s[j]) && Digit(Pair(s, j) % 16) == ToUpper(s[j + 1])
  {
    hide Digit;
    var h, l := Nibble(s[j], 0), Nibble(s[j + 1], 0);
    assert Pair(s, j) / 16 == h && Pair(s, j) % 16 == l;
    DigitOfNibble(s[j]);
    DigitOfNibble(s[j + 1]);
  }

  lemma PrintParseAt(s: string, k: nat)
    requires WellFormed(s) && 2 * k < |s|
    ensures |Print(Parse(s))| == |s|
    ensures Print(Parse(s))[2 * k] == ToUpper(s[2 * k]) && Print(Parse(s))[2 * k + 1] == ToUpper(s[2 * k + 1])
  {
    hide Print, ParseFrom, Digit, Nibble, Pair, ToUpper;
    var bytes := Parse(s);
    ParsedLength(s, 0, 0, 0);
    ParsedAt(s, 0, 0, 0, k);
    PrintedAt(bytes, k);
    PairDigits(s, 2 * k);
  }

  /** Printing the parse of a string gives it back in upper case iff it is an even number of hex digits. */
  lemma PrintParse(s: string)
    ensures Print(Parse(s)) == Upper(s) <==> WellFormed(s)
  {
    hide Print, ParseFrom, Digit;
    var p := Print(Parse(s));
    ParsedLength(s, 0, 0, 0);
    PrintedLength(Parse(s));
    if WellFormed(s) {
      forall j | 0 <= j < |s| ensures p[j] == Upper(s)[j] {
        PrintParseAt(s, j / 2);
        assert j == 2 * (j / 2) || j == 2 * (j / 2) + 1;
      }
    }
    if p == Upper(s) {
      forall j | 0 <= j < |s| ensures IsHex(s[j]) {
        PrintedIsHex(Parse(s), j);
        assert p[j] == ToUpper(s[j]);
      }
    }
  }
}
