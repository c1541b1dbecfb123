/**
 The texts the fixture's identities are the digests of, written out: what each is the identity of can be
 read off its text, and the two account roles and their markers are told apart by it.
 */
module IdentityTexts {
  import opened JsonNamespace
  import opened Identity

  /** A text that JSON writes as it stands, as normalised e-mail addresses and ids are. */
  predicate Plain(s: string) {
    forall c | c in s :: ' ' <= c && c != '\"' && c != '\\'
  }

  function Quoted(s: string): string {
    "\"" + s + "\""
  }

  /** The elements, quoted and separated by commas. */
  function Listed(texts: seq<string>): string {
    if texts == [] then ""
    else if |texts| == 1 then Quoted(texts[0])
    else Quoted(texts[0]) + "," + Listed(texts[1..])
  }

  function Texts(texts: seq<string>): (ps: seq<Part>)
    ensures |ps| == |texts| && forall i | 0 <= i < |texts| :: ps[i] == Text(texts[i])
  {
    seq(|texts|, i requires 0 <= i < |texts| => Text(texts[i]))
  }

  lemma {:induction false} PlainStands(s: string)
    requires Plain(s)
    ensures EscapeText(s) == s
  {
    hide EscapeChar;
    if s != "" {
      assert s[0] in s;
      PlainCharStands(s[0]);
      assert forall c | c in s[1..] :: c in s;
      PlainStands(s[1..]);
      assert [s[0]] + s[1..] == s;
    }
  }

  lemma PlainCharStands(c: char)
    requires ' ' <= c && c != '\"' && c != '\\'
    ensures EscapeChar(c) == [c]
  {
  }

  lemma PlainPart(s: string)
    requires Plain(s)
    ensures EncodePart(Text(s)) == Quoted(s)
  {
    PlainStands(s);
    assert ['\"'] + (s + ['\"']) == Quoted(s);
  }

  lemma {:induction false} TailListed(texts: seq<string>)
    requires texts != [] && forall t | t in texts :: Plain(t)
    ensures EncodeTail(Texts(texts)) == "," + Listed(texts) + "]"
  {
    hide EncodePart, Quoted;
    assert texts[0] in texts;
    PlainPart(texts[0]);
    assert Texts(texts)[1..] == Texts(texts[1..]);
    if |texts| == 1 {
      assert EncodeTail(Texts(texts[1..])) == "]";
      assert [','] + (Quoted(texts[0]) + "]") == "," + Quoted(texts[0]) + "]";
    } else {
      assert forall t | t in texts[1..] :: t in texts;
      TailListed(texts[1..]);
      Reassociate(Quoted(texts[0]), Listed(texts[1..]));
    }
  }

  lemma Reassociate(a: string, rest: string)
    ensures [','] + (a + ("," + rest + "]")) == "," + (a + "," + rest) + "]"
    ensures ['['] + (a + ("," + rest + "]")) == "[" + (a + "," + rest) + "]"
  {
  }

  /** A list of plain texts is encoded as the bracketed, quoted list of them. */
  lemma EncodeListed(texts: seq<string>)
    requires 2 <= |texts| && forall t | t in texts :: Plain(t)
    ensures Encode(Texts(texts)) == "[" + Listed(texts) + "]"
  {
    hide *;
    assert texts[0] in texts;
    PlainPart(texts[0]);
    EncodeHead(Texts(texts));
    assert Texts(texts)[1..] == Texts(texts[1..]);
    assert forall t | t in texts[1..] :: t in texts;
    TailListed(texts[1..]);
    ListedHead(texts);
    Reassociate(Quoted(texts[0]), Listed(texts[1..]));
  }

  lemma EncodeHead(ps: seq<Part>)
    requires ps != []
    ensures Encode(ps) == ['['] + (EncodePart(ps[0]) + EncodeTail(ps[1..]))
  {
  }

  lemma ListedHead(texts: seq<string>)
    requires 2 <= |texts|
    ensures Listed(texts) == Quoted(texts[0]) + "," + Listed(texts[1..])
  {
  }

  /** The path of an account below the root of the scheme. */
  function AccountPath(owner: string, workspace: string, role: string): seq<string> {
    ["tradechemist", "visual-dashboard", "v2", "owner", owner, "workspace", workspace, "account", role]
  }

  lemma LabelsArePlain()
    ensures Plain("tradechemist") && Plain("visual-dashboard") && Plain("v2") && Plain("owner") && Plain("workspace")
    ensures Plain("account") && Plain("empty") && Plain("populated") && Plain("mutation")
  {
  }

  lemma PathsArePlain(owner: string, workspace: string, role: string)
    requires Plain(owner) && Plain(workspace) && role in {"empty", "populated"}
    ensures forall t | t in AccountPath(owner, workspace, role) :: Plain(t)
    ensures forall t | t in AccountPath(owner, workspace, role) + ["mutation"] :: Plain(t)
  {
    LabelsArePlain();
    hide Plain;
  }

  lemma AccountText(digest: Digest, owner: string, workspace: string, role: string)
    requires Plain(owner) && Plain(workspace) && role in {"empty", "populated"}
    ensures AccountUuid(digest, owner, workspace, role, false)
         == digest("[" + Listed(AccountPath(owner, workspace, role)) + "]")
    ensures AccountUuid(digest, owner, workspace, role, true)
         == digest("[" + Listed(AccountPath(owner, workspace, role) + ["mutation"]) + "]")
  {
    hide Plain, Encode, Listed;
    PathsArePlain(owner, workspace, role);
    EncodeListed(AccountPath(owner, workspace, role));
    EncodeListed(AccountPath(owner, workspace, role) + ["mutation"]);
    assert Rooted(AccountNamespace(owner, workspace, role, false)) == Texts(AccountPath(owner, workspace, role));
    assert Rooted(AccountNamespace(owner, workspace, role, true))
        == Texts(AccountPath(owner, workspace, role) + ["mutation"]);
  }

  /**
   The four identities of an owner and workspace are digests of the quoted path that names them: which
   account, and whether it is the account or its creation marker.
   */
  lemma AccountTexts(digest: Digest, owner: string, workspace: string)
    requires Plain(owner) && Plain(workspace)
    ensures var i := NormalisedAccountIdentity(digest, owner, workspace);
            && i.emptyId == digest("[" + Listed(AccountPath(owner, workspace, "empty")) + "]")
            && i.populatedId == digest("[" + Listed(AccountPath(owner, workspace, "populated")) + "]")
            && i.emptyMutationKey == digest("[" + Listed(AccountPath(owner, workspace, "empty") + ["mutation"]) + "]")
            && i.populatedMutationKey
            == digest("[" + Listed(AccountPath(owner, workspace, "populated") + ["mutation"]) + "]")
  {
    hide AccountUuid, Listed, Plain, AccountPath;
    AccountText(digest, owner, workspace, "empty");
    AccountText(digest, owner, workspace, "populated");
  }

  /** The older markers: a prefix, the owner, the role and the word mutation, with colons between them. */
  lemma LegacyTexts(digest: Digest, normalise: string -> string, owner: string)
    ensures var legacy, n := LegacyVisualAccountIdentity(digest, normalise, owner), normalise(owner);
            && legacy.emptyMutationKey == digest("tradechemist-visual-v1:" + n + ":account:" + "empty" + ":mutation")
            && legacy.populatedMutationKey == digest("tradechemist-visual-v1:" + n + ":account:" + "populated" + ":mutation")
  {
    var n := normalise(owner);
    assert ":account:" + "empty" + ":mutation" == ":account:empty:mutation";
    assert ":account:" + "populated" + ":mutation" == ":account:populated:mutation";
    Joined("tradechemist-visual-v1:", n, ":account:", "empty", ":mutation");
    Joined("tradechemist-visual-v1:", n, ":account:", "populated", ":mutation");
  }

  lemma Joined(a: string, b: string, c: string, d: string, e: string)
    ensures a + b + c + d + e == a + (b + (c + d + e))
  {
  }
}
