/**
 UTF-8 as the Encoding Standard defines it: the encoder, and the decoder with U+FFFD for every
 maximal ill-formed piece. Strings are sequences of Unicode scalar values.
 */
module Utf8 {
  type Byte = b: int | 0 <= b < 256

  const REPLACEMENT: char := '\U{FFFD}'

  function EncodeChar(c: char): (bytes: seq<Byte>)
    ensures 1 <= |bytes| <= 4
  {
    var n := c as int;
    if n < 0x80 then [n]
    else if n < 0x800 then [0xC0 + n / 0x40, 0x80 + n % 0x40]
    else if n < 0x1_0000 then [0xE0 + n / 0x1000, 0x80 + n / 0x40 % 0x40, 0x80 + n % 0x40]
    else [0xF0 + n / 0x4_0000, 0x80 + n / 0x1000 % 0x40, 0x80 + n / 0x40 % 0x40, 0x80 + n % 0x40]
  }

  function Encode(s: string): seq<Byte> {
    if s == "" then [] else EncodeChar(s[0]) + Encode(s[1..])
  }

  predicate Continuation(b: Byte) {
    0x80 <= b <= 0xBF
  }

  function Bits(b: Byte, base: int): int {
    (b as int) - base
  }

  /** The second byte allowed after a leading byte of three or four. */
  predicate Second(lead: Byte, b: Byte) {
    (if lead == 0xE0 then 0xA0 else if lead == 0xF0 then 0x90 else 0x80) <= b
    <= (if lead == 0xED then 0x9F else if lead == 0xF4 then 0x8F else 0xBF)
  }

  /** One character and how many bytes it takes; an ill-formed start takes its longest valid prefix. */
  function DecodeChar(bytes: seq<Byte>): (r: (char, nat))
    requires bytes != []
    ensures 1 <= r.1 <= |bytes|
  {
    var lead := bytes[0];
    if lead < 0x80 then (lead as char, 1)
    else if 0xC2 <= lead <= 0xDF then
      if |bytes| < 2 || !Continuation(bytes[1]) then (REPLACEMENT, 1)
      else ((Bits(lead, 0xC0) * 0x40 + Bits(bytes[1], 0x80)) as char, 2)
    else if 0xE0 <= lead <= 0xEF then
      if |bytes| < 2 || !Second(lead, bytes[1]) then (REPLACEMENT, 1)
      else if |bytes| < 3 || !Continuation(bytes[2]) then (REPLACEMENT, 2)
      else ((Bits(lead, 0xE0) * 0x1000 + Bits(bytes[1], 0x80) * 0x40 + Bits(bytes[2], 0x80)) as char, 3)
    else if 0xF0 <= lead <= 0xF4 then
      if |bytes| < 2 || !Second(lead, bytes[1]) then (REPLACEMENT, 1)
      else if |bytes| < 3 || !Continuation(bytes[2]) then (REPLACEMENT, 2)
      else if |bytes| < 4 || !Continuation(bytes[3]) then (REPLACEMENT, 3)
      else ((Bits(lead, 0xF0) * 0x4_0000 + Bits(bytes[1], 0x80) * 0x1000 + Bits(bytes[2], 0x80) * 0x40 + Bits(bytes[3], 0x80))
              as char, 4)
    else (REPLACEMENT, 1)
  }

  function Decode(bytes: seq<Byte>): string
    decreases |bytes|
  {
    if bytes == [] then ""
    else
      var (c, taken) := DecodeChar(bytes);
      [c] + Decode(bytes[taken..])
  }

  lemma ShortCharRoundTrip(c: char, rest: seq<Byte>)
    requires c as int < 0x1_0000
    ensures DecodeChar(EncodeChar(c) + rest) == (c, |EncodeChar(c)|)
  {
    var n, bytes := c as int, EncodeChar(c) + rest;
    assert forall i | 0 <= i < |EncodeChar(c)| :: bytes[i] == EncodeChar(c)[i];
    assert n == n / 0x40 * 0x40 + n % 0x40;
    assert n / 0x40 == n / 0x1000 * 0x40 + n / 0x40 % 0x40;
  }

  lemma LongCharRoundTrip(c: char, rest: seq<Byte>)
    requires 0x1_0000 <= c as int
    ensures DecodeChar(EncodeChar(c) + rest) == (c, |EncodeChar(c)|)
  {
    var n, bytes := c as int, EncodeChar(c) + rest;
    assert forall i | 0 <= i < |EncodeChar(c)| :: bytes[i] == EncodeChar(c)[i];
    assert n == n / 0x40 * 0x40 + n % 0x40;
    assert n / 0x40 == n / 0x1000 * 0x40 + n / 0x40 % 0x40;
    assert n / 0x1000 == n / 0x4_0000 * 0x40 + n / 0x1000 % 0x40;
  }

  lemma CharRoundTrip(c: char, rest: seq<Byte>)
    ensures DecodeChar(EncodeChar(c) + rest) == (c, |EncodeChar(c)|)
  {
    hide EncodeChar, DecodeChar;
    if c as int < 0x1_0000 {
      ShortCharRoundTrip(c, rest);
    } else {
      LongCharRoundTrip(c, rest);
    }
  }

  lemma {:induction false} RoundTrip(s: string)
    ensures Decode(Encode(s)) == s
  {
    if s != "" {
      CharRoundTrip(s[0], Encode(s[1..]));
      RoundTrip(s[1..]);
      hide EncodeChar, DecodeChar;
      assert (EncodeChar(s[0]) + Encode(s[1..]))[|EncodeChar(s[0])|..] == Encode(s[1..]);
    }
  }
}
