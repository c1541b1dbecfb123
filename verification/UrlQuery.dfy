/**
 application/x-www-form-urlencoded, sections 5.1 and 5.2 of the WHATWG URL Standard, and the
 URLSearchParams operations the filter forms use.
 */
module UrlQuery {
  import opened Wrappers
  import opened Utf8

  type Entry = (string, string)

  const HEX: string := "0123456789ABCDEF"

  // -------------------------------------------------------------- serializer

  /** The bytes the serializer leaves as they are. */
  predicate Unescaped(b: Byte) {
    0x30 <= b <= 0x39 || 0x41 <= b <= 0x5A || 0x61 <= b <= 0x7A || b in {0x2A, 0x2D, 0x2E, 0x5F}
  }

  function EscapeByte(b: Byte): (s: string)
    ensures 1 <= |s| <= 3
  {
    if b == 0x20 then "+" else if Unescaped(b) then [b as char] else ['%', HEX[b / 16], HEX[b % 16]]
  }

  function Escape(bytes: seq<Byte>): string {
    if bytes == [] then "" else EscapeByte(bytes[0]) + Escape(bytes[1..])
  }

  function EncodeText(s: string): string {
    Escape(Encode(s))
  }

  function SerializeEntry(e: Entry): string {
    EncodeText(e.0) + "=" + EncodeText(e.1)
  }

  function Serialize(list: seq<Entry>): string {
    if list == [] then ""
    else if |list| == 1 then SerializeEntry(list[0])
    else SerializeEntry(list[0]) + "&" + Serialize(list[1..])
  }

  // ------------------------------------------------------------------ parser

  predicate HexDigit(c: char) {
    '0' <= c <= '9' || 'A' <= c <= 'F' || 'a' <= c <= 'f'
  }

  function HexValue(c: char): (v: Byte)
    requires HexDigit(c)
    ensures v < 16
  {
    if c <= '9' then c as int - '0' as int
    else if c <= 'F' then c as int - 'A' as int + 10
    else c as int - 'a' as int + 10
  }

  /** Plus signs become spaces, then percent-decoding; a stray percent sign stands for itself. */
  function Unescape(s: string): seq<Byte>
    decreases |s|
  {
    if s == "" then []
    else if s[0] == '+' then [0x20] + Unescape(s[1..])
    else if s[0] == '%' && |s| >= 3 && HexDigit(s[1]) && HexDigit(s[2]) then
      [HexValue(s[1]) * 16 + HexValue(s[2])] + Unescape(s[3..])
    else EncodeChar(s[0]) + Unescape(s[1..])
  }

  function DecodeText(s: string): string {
    Decode(Unescape(s))
  }

  /** Where a character first occurs, or the length. */
  function IndexOf(s: string, c: char): (i: nat)
    ensures i <= |s|
    ensures forall k | 0 <= k < i :: s[k] != c
    ensures i < |s| ==> s[i] == c
  {
    if s == "" || s[0] == c then 0 else 1 + IndexOf(s[1..], c)
  }

  function ParseEntry(s: string): Entry {
    var i := IndexOf(s, '=');
    (DecodeText(s[..i]), if i == |s| then "" else DecodeText(s[i + 1..]))
  }

  function Parse(query: string): seq<Entry>
    decreases |query|
  {
    if query == "" then []
    else
      var i := IndexOf(query, '&');
      (if i == 0 then [] else [ParseEntry(query[..i])])
      + if i == |query| then [] else Parse(query[i + 1..])
  }

  // -------------------------------------------------------------- round trip

  predicate SafeChar(c: char) {
    '0' <= c <= '9' || 'A' <= c <= 'Z' || 'a' <= c <= 'z' || c in "*-._+%"
  }

  lemma AsciiByte(b: Byte)
    requires b < 0x80
    ensures EncodeChar(b as char) == [b]
  {
  }

  lemma ByteRoundTrip(b: Byte, rest: string)
    ensures Unescape(EscapeByte(b) + rest) == [b] + Unescape(rest)
    ensures forall c | c in EscapeByte(b) :: SafeChar(c)
  {
    hide EncodeChar, HexValue;
    var s := EscapeByte(b) + rest;
    HexDigits(b / 16);
    HexDigits(b % 16);
    if b == 0x20 {
      assert s[1..] == rest;
    } else if Unescaped(b) {
      assert s[1..] == rest;
      AsciiByte(b);
    } else {
      assert s[1] == HEX[b / 16] && s[2] == HEX[b % 16] && s[3..] == rest;
    }
  }

  lemma HexDigits(n: nat)
    requires n < 16
    ensures HexDigit(HEX[n]) && HexValue(HEX[n]) == n && SafeChar(HEX[n])
  {
  }

  lemma {:induction false} EscapeRoundTrip(bytes: seq<Byte>)
    ensures Unescape(Escape(bytes)) == bytes
    ensures forall c | c in Escape(bytes) :: SafeChar(c)
  {
    if bytes != [] {
      ByteRoundTrip(bytes[0], Escape(bytes[1..]));
      EscapeRoundTrip(bytes[1..]);
      hide Unescape, EscapeByte, SafeChar;
    }
  }

  lemma TextRoundTrip(s: string)
    ensures DecodeText(EncodeText(s)) == s
    ensures forall c | c in EncodeText(s) :: SafeChar(c)
    ensures '=' !in EncodeText(s) && '&' !in EncodeText(s)
  {
    hide Escape, Unescape, Encode, Decode;
    EscapeRoundTrip(Encode(s));
    RoundTrip(s);
  }

  lemma FirstIndex(a: string, c: char, b: string)
    requires c !in a
    ensures IndexOf(a + [c] + b, c) == |a|
    ensures (a + [c] + b)[..|a|] == a && (a + [c] + b)[|a| + 1..] == b
  {
    var s := a + [c] + b;
    assert s[|a|] == c;
    assert forall k | 0 <= k < |a| :: s[k] == a[k];
  }

  lemma EntryRoundTrip(e: Entry)
    ensures ParseEntry(SerializeEntry(e)) == e
    ensures '&' !in SerializeEntry(e) && SerializeEntry(e) != "" && '?' !in SerializeEntry(e) && '#' !in SerializeEntry(e)
  {
    TextRoundTrip(e.0);
    TextRoundTrip(e.1);
    hide EncodeText, DecodeText;
    FirstIndex(EncodeText(e.0), '=', EncodeText(e.1));
  }

  /** Parsing what the serializer wrote gives back the list, for every list of names and values. */
  lemma {:induction false} QueryRoundTrip(list: seq<Entry>)
    ensures Parse(Serialize(list)) == list
    ensures Serialize(list) == "" <==> list == []
    ensures '?' !in Serialize(list) && '#' !in Serialize(list)
    decreases |list|
  {
    hide SerializeEntry, ParseEntry;
    if list != [] {
      var head := SerializeEntry(list[0]);
      EntryRoundTrip(list[0]);
      if |list| == 1 {
        assert IndexOf(head, '&') == |head| && head[..|head|] == head;
      } else {
        QueryRoundTrip(list[1..]);
        FirstIndex(head, '&', Serialize(list[1..]));
        assert "&" == ['&'];
      }
    }
  }

  // --------------------------------------------------------------------- URL

  function Href(base: string, list: seq<Entry>): string {
    if Serialize(list) == "" then base else base + "?" + Serialize(list)
  }

  /** The query of a URL without fragment: what follows the first question mark. */
  function QueryOf(url: string): string {
    var i := IndexOf(url, '?');
    if i == |url| then "" else url[i + 1..]
  }

  lemma QueryOfHref(base: string, list: seq<Entry>)
    requires '?' !in base
    ensures QueryOf(Href(base, list)) == Serialize(list)
  {
    hide Serialize;
    if Serialize(list) != "" {
      assert "?" == ['?'];
      FirstIndex(base, '?', Serialize(list));
    }
  }

  // --------------------------------------------------------- URLSearchParams

  function Get(list: seq<Entry>, name: string): Option<string> {
    if list == [] then None else if list[0].0 == name then Some(list[0].1) else Get(list[1..], name)
  }

  function Delete(list: seq<Entry>, name: string): seq<Entry> {
    if list == [] then [] else (if list[0].0 == name then [] else [list[0]]) + Delete(list[1..], name)
  }

  /** The first entry of the name is replaced and the others removed; without one, an entry is appended. */
  function Set(list: seq<Entry>, name: string, value: string): seq<Entry> {
    if list == [] then [(name, value)]
    else if list[0].0 == name then [(name, value)] + Delete(list[1..], name)
    else [list[0]] + Set(list[1..], name, value)
  }

  lemma OneEntry(list: seq<Entry>, rest: seq<Entry>, name: string, value: string)
    requires list != [] && rest == list[1..]
    ensures Delete(list, name) == if list[0].0 == name then Delete(rest, name) else [list[0]] + Delete(rest, name)
    ensures Set(list, name, value)
         == if list[0].0 == name then [(name, value)] + Delete(rest, name) else [list[0]] + Set(rest, name, value)
  {
  }

  lemma NoEntries(name: string, value: string)
    ensures Delete([], name) == [] && Set([], name, value) == [(name, value)]
  {
  }

  class URLSearchParams {
    var list: seq<Entry>

    constructor (entries: seq<Entry>)
      ensures list == entries
    {
      list := entries;
    }

    method Remove(name: string)
      modifies this
      ensures list == Delete(old(list), name)
    {
      hide Delete, Set;
      var kept: seq<Entry> := [];
      for i := 0 to |list|
        invariant list == old(list)
        invariant kept + Delete(list[i..], name) == Delete(list, name)
      {
        OneEntry(list[i..], list[i + 1..], name, "");
        if list[i].0 != name {
          kept := kept + [list[i]];
        }
      }
      assert list[|list|..] == [];
      NoEntries(name, "");
      list := kept;
    }

    method Put(name: string, value: string)
      modifies this
      ensures list == Set(old(list), name, value)
    {
      hide Delete, Set;
      var kept: seq<Entry> := [];
      var found := false;
      for i := 0 to |list|
        invariant list == old(list)
        invariant kept + (if found then Delete(list[i..], name) else Set(list[i..], name, value))
               == Set(list, name, value)
      {
        OneEntry(list[i..], list[i + 1..], name, value);
        if list[i].0 != name {
          kept := kept + [list[i]];
        } else if !found {
          kept := kept + [(name, value)];
          found := true;
        }
      }
      assert list[|list|..] == [];
      NoEntries(name, value);
      list := if found then kept else kept + [(name, value)];
    }

    method ToString() returns (query: string)
      ensures query == Serialize(list)
    {
      query := "";
      var i := |list|;
      while i > 0
        invariant 0 <= i <= |list|
        invariant query == Serialize(list[i..])
      {
        i := i - 1;
        assert list[i..][1..] == list[i + 1..];
        query := if i == |list| - 1 then SerializeEntry(list[i]) else SerializeEntry(list[i]) + "&" + query;
      }
    }
  }

  lemma {:induction false} GetAfterDelete(list: seq<Entry>, name: string, other: string)
    ensures Get(Delete(list, name), other) == if other == name then None else Get(list, other)
  {
    if list != [] {
      GetAfterDelete(list[1..], name, other);
      var rest := Delete(list[1..], name);
      assert [] + rest == rest && ([list[0]] + rest)[1..] == rest;
    }
  }

  lemma {:induction false} GetAfterSet(list: seq<Entry>, name: string, value: string, other: string)
    ensures Get(Set(list, name, value), other) == if other == name then Some(value) else Get(list, other)
  {
    if list == [] {
      assert [(name, value)][1..] == [];
    } else if list[0].0 == name {
      GetAfterDelete(list[1..], name, other);
      assert ([(name, value)] + Delete(list[1..], name))[1..] == Delete(list[1..], name);
    } else {
      GetAfterSet(list[1..], name, value, other);
      assert ([list[0]] + Set(list[1..], name, value))[1..] == Set(list[1..], name, value);
    }
  }

  // ------------------------------------------------- optional parameters

  /** What a control holds: the empty string stands for nothing. */
  function Picked(value: string): Option<string> {
    if value == "" then None else Some(value)
  }

  function SetSome(list: seq<Entry>, name: string, value: Option<string>): seq<Entry> {
    if value.None? then list else Set(list, name, value.value)
  }

  /** set with a value, delete without one. */
  function Choosing(list: seq<Entry>, name: string, value: Option<string>): seq<Entry> {
    if value.None? then Delete(list, name) else Set(list, name, value.value)
  }

  lemma SetSomeGet(list: seq<Entry>, name: string, value: Option<string>, other: string)
    requires Get(list, name) == None
    ensures Get(SetSome(list, name, value), other) == if other == name then value else Get(list, other)
  {
    if value.Some? {
      GetAfterSet(list, name, value.value, other);
    }
  }

  lemma ChoosingGet(list: seq<Entry>, name: string, value: Option<string>, other: string)
    ensures Get(Choosing(list, name, value), other) == if other == name then value else Get(list, other)
  {
    GetAfterDelete(list, name, other);
    if value.Some? {
      GetAfterSet(list, name, value.value, other);
    }
  }

  /** A value set for a name that is there stands where its first entry stood, and every other entry keeps its place. */
  lemma {:induction false} SetInPlace(a: seq<Entry>, was: string, b: seq<Entry>, name: string, value: string)
    requires forall e | e in a :: e.0 != name
    ensures Set(a + [(name, was)] + b, name, value) == a + [(name, value)] + Delete(b, name)
  {
    var list := a + [(name, was)] + b;
    if a == [] {
      assert list[0] == (name, was) && list[1..] == b;
      assert a + [(name, value)] + Delete(b, name) == [(name, value)] + Delete(b, name);
    } else {
      assert a[0] in a && forall e | e in a[1..] :: e in a;
      assert list[0] == a[0] && list[1..] == a[1..] + [(name, was)] + b;
      SetInPlace(a[1..], was, b, name, value);
      assert [a[0]] + (a[1..] + [(name, value)] + Delete(b, name)) == a + [(name, value)] + Delete(b, name);
    }
  }

  /** And one for a new name goes to the end. */
  lemma {:induction false} SetAtEnd(list: seq<Entry>, name: string, value: string)
    requires forall e | e in list :: e.0 != name
    ensures Set(list, name, value) == list + [(name, value)]
  {
    if list == [] {
      assert [] + [(name, value)] == [(name, value)];
    } else {
      assert list[0] in list && forall e | e in list[1..] :: e in list;
      SetAtEnd(list[1..], name, value);
      assert [list[0]] + (list[1..] + [(name, value)]) == list + [(name, value)];
    }
  }
}
