/**
 The JSON text that identity namespaces are hashed from: an array of strings and
 natural numbers, written as JSON.stringify writes it, and a parser for the
 grammar of RFC 8259 (sections 5, 6 and 7) restricted to such arrays.
 */
module JsonNamespace {
  import opened Wrappers

  /** VisualIdentityPart: the numbers passed are fixture indices and leg positions. */
  datatype Part = Text(text: string) | Number(value: nat)

  // ---------------------------------------------------------------- encoding

  function HexDigit(n: nat): char
    requires n < 16
  {
    if n < 10 then ('0' as int + n) as char else ('a' as int + n - 10) as char
  }

  function EscapeChar(c: char): string {
    if c == '\"' then ['\\', '\"']
    else if c == '\\' then ['\\', '\\']
    else if c == '\U{0008}' then ['\\', 'b']
    else if c == '\U{000C}' then ['\\', 'f']
    else if c == '\n' then ['\\', 'n']
    else if c == '\r' then ['\\', 'r']
    else if c == '\t' then ['\\', 't']
    else if c < ' ' then ['\\', 'u', '0', '0', HexDigit(c as int / 16), HexDigit(c as int % 16)]
    else [c]
  }

  function EscapeText(s: string): string {
    if s == "" then "" else EscapeChar(s[0]) + EscapeText(s[1..])
  }

  function Digits(n: nat): string {
    if n < 10 then [HexDigit(n)] else Digits(n / 10) + [HexDigit(n % 10)]
  }

  function EncodePart(p: Part): string {
    match p
    case Text(s) => ['\"'] + (EscapeText(s) + ['\"'])
    case Number(n) => Digits(n)
  }

  function EncodeTail(ps: seq<Part>): string {
    if ps == [] then "]" else [','] + (EncodePart(ps[0]) + EncodeTail(ps[1..]))
  }

  /** JSON.stringify of an array of parts. */
  function Encode(ps: seq<Part>): string {
    if ps == [] then "[]" else ['['] + (EncodePart(ps[0]) + EncodeTail(ps[1..]))
  }

  // ----------------------------------------------------------------- parsing

  function HexValue(c: char): Option<nat> {
    if '0' <= c <= '9' then Some(c as int - '0' as int)
    else if 'a' <= c <= 'f' then Some(c as int - 'a' as int + 10)
    else if 'A' <= c <= 'F' then Some(c as int - 'A' as int + 10)
    else None
  }

  /** What follows a backslash. */
  function ParseEscape(s: string): (r: Option<(char, string)>)
    ensures r.Some? ==> |r.value.1| < |s|
  {
    if s == "" then None
    else if s[0] in "\"\\/" then Some((s[0], s[1..]))
    else if s[0] == 'b' then Some(('\U{0008}', s[1..]))
    else if s[0] == 'f' then Some(('\U{000C}', s[1..]))
    else if s[0] == 'n' then Some(('\n', s[1..]))
    else if s[0] == 'r' then Some(('\r', s[1..]))
    else if s[0] == 't' then Some(('\t', s[1..]))
    else if s[0] == 'u' && |s| >= 5 then
      var a :- HexValue(s[1]);
      var b :- HexValue(s[2]);
      var c :- HexValue(s[3]);
      var d :- HexValue(s[4]);
      var code := ((a * 16 + b) * 16 + c) * 16 + d;
      if code < 0xD800 || 0xE000 <= code < 0x10000 then Some((code as char, s[5..])) else None
    else None
  }

  /** The characters of a string up to and including its closing quotation mark. */
  function ParseText(s: string): (r: Option<(string, string)>)
    ensures r.Some? ==> |r.value.1| < |s|
    decreases |s|
  {
    if s == "" || s[0] < ' ' then None
    else if s[0] == '\"' then Some(("", s[1..]))
    else if s[0] == '\\' then
      var head :- ParseEscape(s[1..]);
      var tail :- ParseText(head.1);
      Some(([head.0] + tail.0, tail.1))
    else
      var tail :- ParseText(s[1..]);
      Some(([s[0]] + tail.0, tail.1))
  }

  predicate IsDigit(c: char) {
    '0' <= c <= '9'
  }

  /** The remaining digits of a number whose digits so far denote acc. */
  function ParseDigits(acc: nat, s: string): (r: (nat, string))
    ensures |r.1| <= |s|
    decreases |s|
  {
    if s == "" || !IsDigit(s[0]) then (acc, s)
    else ParseDigits(acc * 10 + (s[0] as int - '0' as int), s[1..])
  }

  function ParsePart(s: string): (r: Option<(Part, string)>)
    ensures r.Some? ==> |r.value.1| < |s|
  {
    if s == "" then None
    else if s[0] == '\"' then
      var text :- ParseText(s[1..]);
      Some((Text(text.0), text.1))
    else if IsDigit(s[0]) && (s[0] != '0' || |s| == 1 || !IsDigit(s[1])) then
      var number := ParseDigits(s[0] as int - '0' as int, s[1..]);
      Some((Number(number.0), number.1))
    else None
  }

  function ParseTail(s: string): Option<seq<Part>>
    decreases |s|
  {
    if s == "]" then Some([])
    else if s == "" || s[0] != ',' then None
    else
      var head :- ParsePart(s[1..]);
      var tail :- ParseTail(head.1);
      Some([head.0] + tail)
  }

  function Parse(s: string): Option<seq<Part>> {
    if s == "[]" then Some([])
    else if s == "" || s[0] != '[' then None
    else
      var head :- ParsePart(s[1..]);
      var tail :- ParseTail(head.1);
      Some([head.0] + tail)
  }

  // -------------------------------------------------------------- round trip

  lemma HexRoundTrip(n: nat)
    requires n < 16
    ensures HexValue(HexDigit(n)) == Some(n)
  {
  }

  lemma EscapeCharRoundTrip(c: char, rest: string)
    ensures c == '\"' || c == '\\' || c < ' ' ==>
              EscapeChar(c) + rest == ['\\'] + (EscapeChar(c) + rest)[1..]
              && ParseEscape((EscapeChar(c) + rest)[1..]) == Some((c, rest))
    ensures !(c == '\"' || c == '\\' || c < ' ') ==> EscapeChar(c) == [c]
  {
    var s := (EscapeChar(c) + rest)[1..];
    if |EscapeChar(c)| == 2 {
      assert s == [EscapeChar(c)[1]] + rest;
      assert s[1..] == rest;
    } else if |EscapeChar(c)| == 6 {
      var e := EscapeChar(c);
      HexRoundTrip(0);
      HexRoundTrip(c as int / 16);
      HexRoundTrip(c as int % 16);
      assert s[0] == e[1] && s[1] == e[2] && s[2] == e[3] && s[3] == e[4] && s[4] == e[5];
      assert s[5..] == rest;
    }
  }

  lemma {:induction false} TextRoundTrip(s: string, rest: string)
    ensures ParseText(EscapeText(s) + (['\"'] + rest)) == Some((s, rest))
    decreases |s|
  {
    hide EscapeChar, ParseEscape;
    var closing := ['\"'] + rest;
    if s == "" {
      assert EscapeText(s) + closing == closing;
    } else {
      var tail := EscapeText(s[1..]) + closing;
      TextRoundTrip(s[1..], rest);
      EscapeCharRoundTrip(s[0], tail);
      var text := EscapeChar(s[0]) + tail;
      assert EscapeText(s) + closing == text;
      assert text[0] != '\\' ==> text[1..] == tail;
      assert s == [s[0]] + s[1..];
    }
  }

  lemma ParseDigitsStops(acc: nat, rest: string)
    requires rest == "" || !IsDigit(rest[0])
    ensures ParseDigits(acc, rest) == (acc, rest)
  {
  }

  lemma {:induction false} DigitsRoundTrip(n: nat, rest: string)
    ensures Digits(n) != "" && IsDigit(Digits(n)[0])
    ensures Digits(n)[0] == '0' ==> Digits(n) == "0"
    ensures ParseDigits(Digits(n)[0] as int - '0' as int, Digits(n)[1..] + rest) == ParseDigits(n, rest)
    decreases n
  {
    if n < 10 {
      assert Digits(n)[1..] + rest == rest;
    } else {
      var q, d := n / 10, HexDigit(n % 10);
      var more := [d] + rest;
      DigitsRoundTrip(q, more);
      assert Digits(n)[1..] + rest == Digits(q)[1..] + more;
      assert more[1..] == rest;
      assert ParseDigits(q, more) == ParseDigits(q * 10 + n % 10, rest);
    }
  }

  lemma NumberRoundTrip(n: nat, rest: string)
    requires rest != "" && !IsDigit(rest[0])
    ensures ParsePart(Digits(n) + rest) == Some((Number(n), rest))
  {
    DigitsRoundTrip(n, rest);
    ParseDigitsStops(n, rest);
    var ds := Digits(n);
    var s := ds + rest;
    assert s[0] == ds[0] && s[1..] == ds[1..] + rest;
    if ds[0] == '0' {
      assert s[1] == rest[0];
    }
  }

  lemma QuotedRoundTrip(t: string, rest: string)
    ensures ParsePart(EncodePart(Text(t)) + rest) == Some((Text(t), rest))
  {
    hide EscapeText, ParseText, ParseDigits;
    TextRoundTrip(t, rest);
    var s := EncodePart(Text(t)) + rest;
    assert s[1..] == EscapeText(t) + (['\"'] + rest);
  }

  lemma PartRoundTrip(p: Part, rest: string)
    requires rest != "" && !IsDigit(rest[0])
    ensures ParsePart(EncodePart(p) + rest) == Some((p, rest))
  {
    hide ParsePart;
    match p
    case Text(t) =>
      QuotedRoundTrip(t, rest);
    case Number(n) =>
      NumberRoundTrip(n, rest);
  }

  lemma {:induction false} TailRoundTrip(ps: seq<Part>)
    ensures EncodeTail(ps) != "" && !IsDigit(EncodeTail(ps)[0])
    ensures ParseTail(EncodeTail(ps)) == Some(ps)
    decreases |ps|
  {
    hide ParsePart, EncodePart;
    if ps != [] {
      TailRoundTrip(ps[1..]);
      PartRoundTrip(ps[0], EncodeTail(ps[1..]));
      assert EncodeTail(ps)[1..] == EncodePart(ps[0]) + EncodeTail(ps[1..]);
      assert ps == [ps[0]] + ps[1..];
    }
  }

  /** Parsing undoes encoding, for every namespace. */
  lemma RoundTrip(ps: seq<Part>)
    ensures Parse(Encode(ps)) == Some(ps)
  {
    hide ParsePart, EncodePart, EncodeTail;
    if ps != [] {
      var body := EncodePart(ps[0]) + EncodeTail(ps[1..]);
      TailRoundTrip(ps[1..]);
      PartRoundTrip(ps[0], EncodeTail(ps[1..]));
      BodyRoundTrip(body, ps[0], EncodeTail(ps[1..]), ps[1..]);
      assert ps == [ps[0]] + ps[1..];
    }
  }

  lemma BodyRoundTrip(body: string, head: Part, rest: string, tail: seq<Part>)
    requires ParsePart(body) == Some((head, rest)) && ParseTail(rest) == Some(tail)
    ensures Parse(['['] + body) == Some([head] + tail)
  {
    var s := ['['] + body;
    assert s[1..] == body;
    assert body != "]";
    hide ParsePart, ParseTail;
  }

  lemma EncodeInjective(a: seq<Part>, b: seq<Part>)
    requires Encode(a) == Encode(b)
    ensures a == b
  {
    RoundTrip(a);
    RoundTrip(b);
  }
}
