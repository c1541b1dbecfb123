/**
 The signed session cookie: a token, a dot and the base64 of its signature, URI-encoded; the server
 decodes it and splits at the last dot.
 */
module SessionCookie {
  import opened Wrappers
  import opened Utf8
  import opened UrlQuery

  // ------------------------------------------------------------------ base64

  /** The alphabet A-Z a-z 0-9 + /. */
  function Digit(n: int): (c: char)
    requires 0 <= n < 64
    ensures c != '.' && c != '='
  {
    if n < 26 then (n + 'A' as int) as char
    else if n < 52 then (n - 26 + 'a' as int) as char
    else if n < 62 then (n - 52 + '0' as int) as char
    else if n == 62 then '+'
    else '/'
  }

  function Group(x: Byte, y: Byte, z: Byte): (s: string)
    ensures |s| == 4
  {
    [Digit(x / 4), Digit(x % 4 * 16 + y / 16), Digit(y % 16 * 4 + z / 64), Digit(z % 64)]
  }

  function Base64(bytes: seq<Byte>): string {
    if bytes == [] then ""
    else if |bytes| == 1 then Group(bytes[0], 0, 0)[..2] + "=="
    else if |bytes| == 2 then Group(bytes[0], bytes[1], 0)[..3] + "="
    else Group(bytes[0], bytes[1], bytes[2]) + Base64(bytes[3..])
  }

  function DigitValue(c: char): (n: int)
    ensures 0 <= n < 64
  {
    if 'A' <= c <= 'Z' then c as int - 'A' as int
    else if 'a' <= c <= 'z' then c as int - 'a' as int + 26
    else if '0' <= c <= '9' then c as int - '0' as int + 52
    else if c == '+' then 62
    else 63
  }

  /** The bytes of padded base64 text; characters outside the alphabet do not occur in it. */
  function FromBase64(s: string): seq<Byte>
    decreases |s|
  {
    if |s| < 4 then []
    else
      var a, b, c, d := DigitValue(s[0]), DigitValue(s[1]), DigitValue(s[2]), DigitValue(s[3]);
      if s[2] == '=' then [a * 4 + b / 16]
      else if s[3] == '=' then [a * 4 + b / 16, b % 16 * 16 + c / 4]
      else [a * 4 + b / 16, b % 16 * 16 + c / 4, c % 4 * 64 + d] + FromBase64(s[4..])
  }

  lemma DigitRoundTrip(n: int)
    requires 0 <= n < 64
    ensures DigitValue(Digit(n)) == n
  {
  }

  lemma DigitsMakeBytes(x: Byte, y: Byte, z: Byte)
    ensures DigitValue(Digit(x / 4)) * 4 + DigitValue(Digit(x % 4 * 16 + y / 16)) / 16 == x
    ensures DigitValue(Digit(x % 4 * 16 + y / 16)) % 16 * 16 + DigitValue(Digit(y % 16 * 4 + z / 64)) / 4 == y
    ensures DigitValue(Digit(y % 16 * 4 + z / 64)) % 4 * 64 + DigitValue(Digit(z % 64)) == z
  {
    DigitRoundTrip(x / 4);
    DigitRoundTrip(x % 4 * 16 + y / 16);
    DigitRoundTrip(y % 16 * 4 + z / 64);
    DigitRoundTrip(z % 64);
    hide DigitValue, Digit;
  }

  lemma GroupRoundTrip(x: Byte, y: Byte, z: Byte, rest: string)
    ensures FromBase64(Group(x, y, z) + rest) == [x, y, z] + FromBase64(rest)
    ensures '.' !in Group(x, y, z)
  {
    hide DigitValue, Digit;
    DigitsMakeBytes(x, y, z);
    assert (Group(x, y, z) + rest)[4..] == rest;
  }

  lemma PaddedRoundTrip(x: Byte, y: Byte)
    ensures FromBase64(Group(x, 0, 0)[..2] + "==") == [x] && '.' !in Group(x, 0, 0)[..2] + "=="
    ensures FromBase64(Group(x, y, 0)[..3] + "=") == [x, y] && '.' !in Group(x, y, 0)[..3] + "="
  {
    hide DigitValue, Digit;
    DigitsMakeBytes(x, 0, 0);
    DigitsMakeBytes(x, y, 0);
  }

  lemma {:induction false} Base64RoundTrip(bytes: seq<Byte>)
    ensures FromBase64(Base64(bytes)) == bytes
    ensures '.' !in Base64(bytes)
    decreases |bytes|
  {
    hide Group, FromBase64;
    if bytes == [] {
      NoGroups();
    } else if |bytes| <= 2 {
      PaddedRoundTrip(bytes[0], bytes[|bytes| - 1]);
    } else {
      Base64RoundTrip(bytes[3..]);
      GroupRoundTrip(bytes[0], bytes[1], bytes[2], Base64(bytes[3..]));
      assert [bytes[0], bytes[1], bytes[2]] + bytes[3..] == bytes;
    }
  }

  lemma NoGroups()
    ensures FromBase64("") == []
  {
  }

  // ------------------------------------------------------- URI component

  /** The characters encodeURIComponent leaves alone. */
  predicate Unreserved(b: Byte) {
    0x30 <= b <= 0x39 || 0x41 <= b <= 0x5A || 0x61 <= b <= 0x7A
    || b in {0x21, 0x27, 0x28, 0x29, 0x2A, 0x2D, 0x2E, 0x5F, 0x7E}
  }

  function PercentByte(b: Byte): string {
    if Unreserved(b) then [b as char] else ['%', HEX[b / 16], HEX[b % 16]]
  }

  function PercentEncode(bytes: seq<Byte>): string {
    if bytes == [] then "" else PercentByte(bytes[0]) + PercentEncode(bytes[1..])
  }

  function EncodeUriComponent(s: string): string {
    PercentEncode(Encode(s))
  }

  function PercentDecode(s: string): Option<seq<Byte>>
    decreases |s|
  {
    if s == "" then Some([])
    else if s[0] == '%' then
      if |s| >= 3 && HexDigit(s[1]) && HexDigit(s[2]) then
        var rest :- PercentDecode(s[3..]);
        Some([HexValue(s[1]) * 16 + HexValue(s[2])] + rest)
      else None
    else
      var rest :- PercentDecode(s[1..]);
      Some(EncodeChar(s[0]) + rest)
  }

  /** None where decodeURIComponent throws: a stray percent sign, or bytes that are not UTF-8. */
  function DecodeUriComponent(s: string): Option<string> {
    var bytes :- PercentDecode(s);
    if Encode(Decode(bytes)) == bytes then Some(Decode(bytes)) else None
  }

  lemma PercentByteRoundTrip(b: Byte, rest: string, bytes: seq<Byte>)
    requires PercentDecode(rest) == Some(bytes)
    ensures PercentDecode(PercentByte(b) + rest) == Some([b] + bytes)
  {
    hide EncodeChar, HexValue;
    var s := PercentByte(b) + rest;
    HexDigits(b / 16);
    HexDigits(b % 16);
    if Unreserved(b) {
      AsciiByte(b);
      assert s[0] == b as char && s[0] != '%' && s[1..] == rest;
    } else {
      assert s[1] == HEX[b / 16] && s[2] == HEX[b % 16] && s[3..] == rest;
    }
  }

  lemma {:induction false} PercentRoundTrip(bytes: seq<Byte>)
    ensures PercentDecode(PercentEncode(bytes)) == Some(bytes)
  {
    if bytes != [] {
      hide PercentByte, PercentDecode;
      PercentRoundTrip(bytes[1..]);
      PercentByteRoundTrip(bytes[0], PercentEncode(bytes[1..]), bytes[1..]);
      assert [bytes[0]] + bytes[1..] == bytes;
    } else {
      assert PercentDecode("") == Some([]);
    }
  }

  lemma UriComponentRoundTrip(s: string)
    ensures DecodeUriComponent(EncodeUriComponent(s)) == Some(s)
  {
    PercentRoundTrip(Encode(s));
    RoundTrip(s);
  }

  // ------------------------------------------------------------------ cookie

  function SignSessionToken(sign: string -> seq<Byte>, token: string): string {
    EncodeUriComponent(token + "." + Base64(sign(token)))
  }

  /** Where a character last occurs, or -1. */
  function LastIndexOf(s: string, c: char): (i: int)
    ensures -1 <= i < |s|
    ensures i >= 0 ==> s[i] == c
    ensures forall k | i < k < |s| :: s[k] != c
  {
    if s == "" then -1
    else if s[|s| - 1] == c then |s| - 1
    else LastIndexOf(s[..|s| - 1], c)
  }

  /** The server's reading: the token, if the signature after the last dot is its own. */
  function ReadCookie(sign: string -> seq<Byte>, cookie: string): Option<string> {
    var value :- DecodeUriComponent(cookie);
    var i := LastIndexOf(value, '.');
    if i < 0 then None
    else if FromBase64(value[i + 1..]) != sign(value[..i]) then None
    else Some(value[..i])
  }

  lemma SplitsAtItsDot(token: string, signature: string)
    requires '.' !in signature
    ensures LastIndexOf(token + "." + signature, '.') == |token|
    ensures (token + "." + signature)[..|token|] == token
    ensures (token + "." + signature)[|token| + 1..] == signature
  {
    hide LastIndexOf;
    var s := token + "." + signature;
    assert s[|token|] == '.';
    assert forall k | |token| < k < |s| :: s[k] == signature[k - |token| - 1];
  }

  /** Every token comes back from its signed cookie, dots and all: base64 has no dot to split at. */
  lemma CookieGivesBackToken(sign: string -> seq<Byte>, token: string)
    ensures ReadCookie(sign, SignSessionToken(sign, token)) == Some(token)
  {
    hide EncodeUriComponent, DecodeUriComponent, Base64, FromBase64, LastIndexOf;
    UriComponentRoundTrip(token + "." + Base64(sign(token)));
    Base64RoundTrip(sign(token));
    SplitsAtItsDot(token, Base64(sign(token)));
  }
}
