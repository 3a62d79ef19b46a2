/** The command codec of the relay controller: the payloads written to the
    peer's characteristic. A payload is either a text token sent byte for byte
    (bleSendData) or a string of hex digits converted to raw bytes
    (bleSendHexString); the four relay buttons send fixed hex literals. */
module Codec {

  datatype Option<T> = None | Some(value: T)

  type Byte = b: int | 0 <= b < 256

  /** One relay of the four-relay board. */
  type RelayIndex = r: int | 1 <= r <= 4 witness 1

  // ---------------------------------------------------------------------
  // Text tokens

  /** Arduino strings hold bytes: every character is below 256. */
  predicate IsByteString(s: string) {
    forall i :: 0 <= i < |s| ==> s[i] as int < 256
  }

  /** The bytes `writeValue(data.c_str(), data.length())` puts on the wire. */
  function TextBytes(s: string): (r: seq<Byte>)
    requires IsByteString(s)
    ensures |r| == |s|
    ensures forall i :: 0 <= i < |s| ==> r[i] == s[i] as int
  {
    seq(|s|, i requires 0 <= i < |s| => s[i] as int)
  }

  const ConnectedToken: string := "CONNECTED"
  const Target2Token: string := "CONNECTED_TO_TARGET2"
  const DisconnectToken: string := "DISCONNECT"

  lemma TokensAreByteStrings()
    ensures IsByteString(ConnectedToken)
    ensures IsByteString(Target2Token)
    ensures IsByteString(DisconnectToken)
  {
  }

  // ---------------------------------------------------------------------
  // Hex digits and the two-character strtoul

  predicate IsHexDigit(c: char) {
    ('0' <= c <= '9') || ('a' <= c <= 'f') || ('A' <= c <= 'F')
  }

  function DigitValue(c: char): (d: nat)
    requires IsHexDigit(c)
    ensures d < 16
  {
    if '0' <= c <= '9' then c as int - '0' as int
    else if 'a' <= c <= 'f' then c as int - 'a' as int + 10
    else c as int - 'A' as int + 10
  }

  /** The characters C's isspace accepts: space, \t, \n, \v, \f, \r. */
  predicate IsSpace(c: char) {
    c == ' ' || (9 <= c as int <= 13)
  }

  /** What `(uint8_t) strtoul(hi lo, NULL, 16)` yields for the two-character
      string `hi lo`: leading white space is skipped, one sign is accepted,
      parsing stops at the first character that is not a hex digit (no digit
      at all gives 0), a minus sign negates modulo 2^n, and the assignment to
      a uint8_t keeps the low eight bits. */
  function ParseHexPair(hi: char, lo: char): (b: Byte)
    ensures IsHexDigit(hi) && IsHexDigit(lo) ==> b == 16 * DigitValue(hi) + DigitValue(lo)
    ensures !IsHexDigit(lo) ==> b < 16
    ensures !IsHexDigit(hi) && !IsSpace(hi) && hi != '+' && hi != '-' ==> b == 0
  {
    if IsHexDigit(hi) then
      (if IsHexDigit(lo) then 16 * DigitValue(hi) + DigitValue(lo) else DigitValue(hi))
    else if (IsSpace(hi) || hi == '+') && IsHexDigit(lo) then DigitValue(lo)
    else if hi == '-' && IsHexDigit(lo) then (256 - DigitValue(lo)) % 256
    else 0
  }

  /** The conversion's behaviour on pairs that are not two hex digits. */
  lemma ParseHexPairQuirks()
    ensures ParseHexPair('1', 'G') == 0x01
    ensures ParseHexPair('G', '1') == 0x00
    ensures ParseHexPair(' ', 'F') == 0x0F
    ensures ParseHexPair('+', 'a') == 0x0A
    ensures ParseHexPair('-', '1') == 0xFF
    ensures ParseHexPair('0', 'x') == 0x00
  {
  }

  /** The bytes bleSendHexString writes for `s`: nothing for an odd length,
      otherwise one byte per pair of characters. */
  function DecodeHex(s: string): (r: Option<seq<Byte>>)
    ensures r.Some? <==> |s| % 2 == 0
    ensures r.Some? ==> |r.value| == |s| / 2
  {
    if |s| % 2 != 0 then None
    else Some(seq(|s| / 2, i requires 0 <= i < |s| / 2 => ParseHexPair(s[2 * i], s[2 * i + 1])))
  }

  predicate IsHexString(s: string) {
    forall i :: 0 <= i < |s| ==> IsHexDigit(s[i])
  }

  /** On a string of hex digits of even length n, the conversion yields n/2
      bytes, byte i being 16 * digit(s[2i]) + digit(s[2i+1]). */
  lemma DecodeHexDigits(s: string)
    requires IsHexString(s) && |s| % 2 == 0
    ensures DecodeHex(s).Some?
    ensures |DecodeHex(s).value| == |s| / 2
    ensures forall i :: 0 <= i < |s| / 2 ==>
      DecodeHex(s).value[i] == 16 * DigitValue(s[2 * i]) + DigitValue(s[2 * i + 1])
  {
    forall i | 0 <= i < |s| / 2
      ensures DecodeHex(s).value[i] == 16 * DigitValue(s[2 * i]) + DigitValue(s[2 * i + 1])
    {
      assert IsHexDigit(s[2 * i]) && IsHexDigit(s[2 * i + 1]);
    }
  }

  /** The loop of bleSendHexString that fills a fresh byte array, one pair of
      characters at a time. The caller has already refused odd lengths. */
  method HexToBytes(s: string) returns (bytes: array<Byte>)
    requires |s| % 2 == 0
    ensures DecodeHex(s) == Some(bytes[..])
  {
    var byteCount := |s| / 2;
    bytes := new Byte[byteCount];
    var i := 0;
    while i < byteCount
      invariant 0 <= i <= byteCount == bytes.Length
      invariant forall k :: 0 <= k < i ==> bytes[k] == ParseHexPair(s[2 * k], s[2 * k + 1])
    {
      bytes[i] := ParseHexPair(s[2 * i], s[2 * i + 1]);
      i := i + 1;
    }
    assert bytes[..] == DecodeHex(s).value;
  }

  // ---------------------------------------------------------------------
  // An independent hex encoder, to show the conversion loses nothing

  function HexChar(n: nat): (c: char)
    requires n < 16
    ensures IsHexDigit(c) && DigitValue(c) == n
  {
    if n < 10 then ('0' as int + n) as char else ('A' as int + n - 10) as char
  }

  /** Upper-case hex text of a byte string, two characters per byte. */
  function EncodeHex(bytes: seq<Byte>): (s: string)
    ensures |s| == 2 * |bytes|
    ensures IsHexString(s)
  {
    if bytes == [] then ""
    else [HexChar(bytes[0] / 16), HexChar(bytes[0] % 16)] + EncodeHex(bytes[1..])
  }

  lemma {:induction false} EncodeHexAt(bytes: seq<Byte>, i: nat)
    requires i < |bytes|
    ensures EncodeHex(bytes)[2 * i] == HexChar(bytes[i] / 16)
    ensures EncodeHex(bytes)[2 * i + 1] == HexChar(bytes[i] % 16)
  {
    if i > 0 {
      EncodeHexAt(bytes[1..], i - 1);
    }
  }

  /** Decoding the hex text of any byte string gives that byte string back. */
  lemma {:induction false} HexRoundTrip(bytes: seq<Byte>)
    ensures DecodeHex(EncodeHex(bytes)) == Some(bytes)
  {
    var s := EncodeHex(bytes);
    DecodeHexDigits(s);
    var d := DecodeHex(s).value;
    forall i | 0 <= i < |bytes|
      ensures d[i] == bytes[i]
    {
      EncodeHexAt(bytes, i);
      assert d[i] == 16 * DigitValue(s[2 * i]) + DigitValue(s[2 * i + 1]);
    }
    assert d == bytes;
  }

  // ---------------------------------------------------------------------
  // Relay frames

  /** The hex literal the button handler of `relay` sends for `on`. */
  function RelayLiteral(relay: RelayIndex, on: bool): (s: string) {
    match (relay, on)
    case (1, true) => "A00101A2"
    case (1, false) => "A00100A1"
    case (2, true) => "A00201A3"
    case (2, false) => "A00200A2"
    case (3, true) => "A00301A4"
    case (3, false) => "A00300A3"
    case (4, true) => "A00401A5"
    case (4, false) => "A00400A4"
  }

  /** The frame [0xA0, relay, on ? 1 : 0, sum of the first three mod 256]. */
  function RelayFrame(relay: RelayIndex, on: bool): (f: seq<Byte>)
    ensures |f| == 4
  {
    var flag := if on then 1 else 0;
    [0xA0, relay, flag, (0xA0 + relay + flag) % 256]
  }

  /** Distinct buttons and states never send the same frame. */
  lemma RelayFrameInjective(r1: RelayIndex, on1: bool, r2: RelayIndex, on2: bool)
    requires RelayFrame(r1, on1) == RelayFrame(r2, on2)
    ensures r1 == r2 && on1 == on2
  {
    assert RelayFrame(r1, on1)[1] == RelayFrame(r2, on2)[1];
    assert RelayFrame(r1, on1)[2] == RelayFrame(r2, on2)[2];
  }

  /** A four-pair hex string whose pairs convert to `f` decodes to `f`. */
  lemma DecodesToFrame(s: string, f: seq<Byte>)
    requires |s| == 8 && |f| == 4
    requires ParseHexPair(s[0], s[1]) == f[0] && ParseHexPair(s[2], s[3]) == f[1]
    requires ParseHexPair(s[4], s[5]) == f[2] && ParseHexPair(s[6], s[7]) == f[3]
    ensures DecodeHex(s) == Some(f)
  {
    var d := DecodeHex(s).value;
    assert d[0] == f[0] && d[1] == f[1] && d[2] == f[2] && d[3] == f[3];
    assert d == f;
  }

  /** Each of the eight literals is a hex string that decodes to its frame. */
  lemma RelayLiteralDecodes(relay: RelayIndex, on: bool)
    ensures IsHexString(RelayLiteral(relay, on)) && |RelayLiteral(relay, on)| == 8
    ensures DecodeHex(RelayLiteral(relay, on)) == Some(RelayFrame(relay, on))
  {
    var s := RelayLiteral(relay, on);
    assert IsHexString(s);
    DecodesToFrame(s, RelayFrame(relay, on));
  }
}
