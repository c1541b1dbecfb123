/**
 The admin audit list's query string: the pagination link that carries the filters, and the filter
 form that edits them.
 */
module AuditQuery {
  import opened Wrappers
  import opened UrlQuery

  // ---------------------------------------------------------- pagination link

  datatype AuditParams = AuditParams(
    action: string,
    reason: string,
    actor: string,
    subjectUser: string,
    subjectWorkspace: string,
    date: string,
    cursor: Option<string>)

  function Entries(p: AuditParams): seq<Entry> {
    var filters :=
      SetSome(
        SetSome(
          SetSome(
            SetSome(
              SetSome(
                SetSome([], "action", Picked(p.action)), "reason", Picked(p.reason)), "actor", Picked(p.actor)),
            "subjectUser", Picked(p.subjectUser)), "subjectWorkspace", Picked(p.subjectWorkspace)), "date", Picked(p.date));
    if p.cursor.None? then filters else Set(filters, "cursor", p.cursor.value)
  }

  method BuildHref(base: string, p: AuditParams) returns (href: string)
    ensures href == Href(base, Entries(p))
  {
    hide Set, Serialize;
    var search := new URLSearchParams([]);
    if p.action != "" { search.Put("action", p.action); }
    if p.reason != "" { search.Put("reason", p.reason); }
    if p.actor != "" { search.Put("actor", p.actor); }
    if p.subjectUser != "" { search.Put("subjectUser", p.subjectUser); }
    if p.subjectWorkspace != "" { search.Put("subjectWorkspace", p.subjectWorkspace); }
    if p.date != "" { search.Put("date", p.date); }
    if p.cursor.Some? { search.Put("cursor", p.cursor.value); }
    var query := search.ToString();
    return if query != "" then base + "?" + query else base;
  }

  /** How the page reads its query: an omitted filter is empty, an omitted cursor is absent. */
  function ReadParams(query: string): AuditParams {
    var list := Parse(query);
    AuditParams(
      Get(list, "action").GetOr(""),
      Get(list, "reason").GetOr(""),
      Get(list, "actor").GetOr(""),
      Get(list, "subjectUser").GetOr(""),
      Get(list, "subjectWorkspace").GetOr(""),
      Get(list, "date").GetOr(""),
      Get(list, "cursor"))
  }

  lemma FieldNames()
    ensures "action" != "reason" && "action" != "actor" && "action" != "date" && "action" != "cursor"
    ensures "reason" != "actor" && "reason" != "date" && "reason" != "cursor" && "actor" != "date"
    ensures "actor" != "cursor" && "date" != "cursor"
    ensures "subjectUser" !in {"action", "reason", "actor", "date", "cursor", "subjectWorkspace"}
    ensures "subjectWorkspace" !in {"action", "reason", "actor", "date", "cursor"}
  {
    assert |"action"| == 6 && |"reason"| == 6 && |"actor"| == 5 && |"date"| == 4 && |"cursor"| == 6;
    assert |"subjectUser"| == 11 && |"subjectWorkspace"| == 16;
    assert "action"[0] != "reason"[0] && "action"[0] != "cursor"[0] && "reason"[0] != "cursor"[0];
  }

  /** The entries of a link, one name at a time. */
  function Expected(p: AuditParams, name: string): Option<string> {
    if name == "action" then Picked(p.action)
    else if name == "reason" then Picked(p.reason)
    else if name == "actor" then Picked(p.actor)
    else if name == "subjectUser" then Picked(p.subjectUser)
    else if name == "subjectWorkspace" then Picked(p.subjectWorkspace)
    else if name == "date" then Picked(p.date)
    else if name == "cursor" then p.cursor
    else None
  }

  lemma EntriesHold(p: AuditParams, name: string)
    ensures Get(Entries(p), name) == Expected(p, name)
  {
    hide Set, SetSome;
    FieldNames();
    var l0: seq<Entry> := [];
    var l1 := SetSome(l0, "action", Picked(p.action));
    var l2 := SetSome(l1, "reason", Picked(p.reason));
    var l3 := SetSome(l2, "actor", Picked(p.actor));
    var l4 := SetSome(l3, "subjectUser", Picked(p.subjectUser));
    var l5 := SetSome(l4, "subjectWorkspace", Picked(p.subjectWorkspace));
    var l6 := SetSome(l5, "date", Picked(p.date));
    forall n
      ensures Get(l1, n) == if n == "action" then Expected(p, n) else None
    {
      SetSomeGet(l0, "action", Picked(p.action), n);
    }
    forall n
      ensures Get(l2, n) == if n == "reason" then Expected(p, n) else Get(l1, n)
    {
      SetSomeGet(l1, "reason", Picked(p.reason), n);
    }
    forall n
      ensures Get(l3, n) == if n == "actor" then Expected(p, n) else Get(l2, n)
    {
      SetSomeGet(l2, "actor", Picked(p.actor), n);
    }
    forall n
      ensures Get(l4, n) == if n == "subjectUser" then Expected(p, n) else Get(l3, n)
    {
      SetSomeGet(l3, "subjectUser", Picked(p.subjectUser), n);
    }
    forall n
      ensures Get(l5, n) == if n == "subjectWorkspace" then Expected(p, n) else Get(l4, n)
    {
      SetSomeGet(l4, "subjectWorkspace", Picked(p.subjectWorkspace), n);
    }
    forall n
      ensures Get(l6, n) == if n == "date" then Expected(p, n) else Get(l5, n)
    {
      SetSomeGet(l5, "date", Picked(p.date), n);
    }
    if p.cursor.Some? {
      GetAfterSet(l6, "cursor", p.cursor.value, name);
    }
  }

  /** Following a pagination link gives back exactly the six filters and the cursor, whatever they contain. */
  lemma LinkRoundTrip(base: string, p: AuditParams)
    requires '?' !in base
    ensures ReadParams(QueryOf(Href(base, Entries(p)))) == p
  {
    hide Entries, Serialize, Parse, Expected, Href, QueryOf;
    QueryOfHref(base, Entries(p));
    QueryRoundTrip(Entries(p));
    EntriesRead(p);
  }

  lemma EntriesRead(p: AuditParams)
    ensures Get(Entries(p), "action").GetOr("") == p.action
    ensures Get(Entries(p), "reason").GetOr("") == p.reason
    ensures Get(Entries(p), "actor").GetOr("") == p.actor
    ensures Get(Entries(p), "subjectUser").GetOr("") == p.subjectUser
    ensures Get(Entries(p), "subjectWorkspace").GetOr("") == p.subjectWorkspace
    ensures Get(Entries(p), "date").GetOr("") == p.date
    ensures Get(Entries(p), "cursor") == p.cursor
  {
    hide Entries, Get;
    FieldNames();
    EntriesHold(p, "action");
    EntriesHold(p, "reason");
    EntriesHold(p, "actor");
    EntriesHold(p, "subjectUser");
    EntriesHold(p, "subjectWorkspace");
    EntriesHold(p, "date");
    EntriesHold(p, "cursor");
  }

  // ------------------------------------------------------------- filter form

  /** WhiteSpace and LineTerminator of ECMA-262, what String.prototype.trim removes. */
  predicate Blank(c: char) {
    c in {'\t', '\n', '\U{000B}', '\U{000C}', '\r', ' ', '\U{00A0}', '\U{1680}', '\U{2028}', '\U{2029}', '\U{202F}',
          '\U{205F}', '\U{3000}', '\U{FEFF}'}
    || '\U{2000}' <= c <= '\U{200A}'
  }

  function TrimStart(s: string): string {
    if s != "" && Blank(s[0]) then TrimStart(s[1..]) else s
  }

  function TrimEnd(s: string): string {
    if s != "" && Blank(s[|s| - 1]) then TrimEnd(s[..|s| - 1]) else s
  }

  function Trim(s: string): string {
    TrimEnd(TrimStart(s))
  }

  /** Neither blank nor padded. */
  predicate CleanText(s: string) {
    s != "" && !Blank(s[0]) && !Blank(s[|s| - 1])
  }

  lemma TrimCleans(s: string)
    ensures Trim(s) == "" || CleanText(Trim(s))
    ensures CleanText(s) ==> Trim(s) == s
  {
    StartTrimmed(s);
    EndTrimmed(TrimStart(s));
  }

  lemma {:induction false} StartTrimmed(s: string)
    ensures TrimStart(s) == "" || !Blank(TrimStart(s)[0])
  {
    if s != "" && Blank(s[0]) {
      StartTrimmed(s[1..]);
    }
  }

  lemma {:induction false} EndTrimmed(s: string)
    ensures TrimEnd(s) == "" || (TrimEnd(s)[0] == s[0] && !Blank(TrimEnd(s)[|TrimEnd(s)| - 1]))
  {
    if s != "" && Blank(s[|s| - 1]) {
      EndTrimmed(s[..|s| - 1]);
    }
  }

  const TEXT_FIELDS: seq<string> := ["actor", "subjectUser", "subjectWorkspace"]
  const SELECT_FIELDS: seq<string> := ["action", "reason", "date"]

  datatype Fields = Fields(actor: string, subjectUser: string, subjectWorkspace: string)

  function ApplyText(list: seq<Entry>, f: Fields): seq<Entry> {
    Choosing(
      Choosing(
        Choosing(list, "actor", Picked(Trim(f.actor))), "subjectUser", Picked(Trim(f.subjectUser))),
      "subjectWorkspace", Picked(Trim(f.subjectWorkspace)))
  }

  datatype Edit =
    | Type(fields: Fields)
    | Choose(name: string, value: string)
    | Submit
    | Reset

  /** The form's own state and the address bar. */
  datatype FormState = FormState(fields: Fields, url: string)

  predicate Offers(e: Edit) {
    e.Choose? ==> e.name in SELECT_FIELDS
  }

  /** navigate, after its update: the cursor goes, and the rest becomes the address. */
  function Entered(pathname: string, list: seq<Entry>): string {
    Href(pathname, Delete(list, "cursor"))
  }

  function EditStep(pathname: string, s: FormState, e: Edit): FormState {
    match e
    case Type(fields) => s.(fields := fields)
    case Choose(name, value) => s.(url := Entered(pathname, Choosing(Parse(QueryOf(s.url)), name, Picked(value))))
    case Submit => s.(url := Entered(pathname, ApplyText(Parse(QueryOf(s.url)), s.fields)))
    case Reset => s.(url := pathname)
  }

  function EditRun(pathname: string, s: FormState, edits: seq<Edit>): FormState
    decreases |edits|
  {
    if edits == [] then s else EditRun(pathname, EditStep(pathname, s, edits[0]), edits[1..])
  }

  class AuditFilterForm {
    const pathname: string
    var url: string
    var actor: string
    var subjectUser: string
    var subjectWorkspace: string

    function Now(): FormState
      reads this
    {
      FormState(Fields(actor, subjectUser, subjectWorkspace), url)
    }

    constructor (pathname: string, url: string, fields: Fields)
      ensures this.pathname == pathname && Now() == FormState(fields, url)
    {
      this.pathname, this.url := pathname, url;
      actor, subjectUser, subjectWorkspace := fields.actor, fields.subjectUser, fields.subjectWorkspace;
    }

    /** The end of navigate: params is the updated copy of the current query. */
    method Replace(params: URLSearchParams)
      modifies this`url, params
      ensures url == Entered(pathname, old(params.list))
    {
      params.Remove("cursor");
      var query := params.ToString();
      url := if query != "" then pathname + "?" + query else pathname;
    }

    method Update(params: URLSearchParams, name: string, value: string)
      modifies params
      ensures params.list == Choosing(old(params.list), name, Picked(value))
    {
      if value == "" {
        params.Remove(name);
      } else {
        params.Put(name, value);
      }
    }

    method HandleChange(name: string, value: string)
      modifies this`url
      ensures Now() == EditStep(pathname, old(Now()), Choose(name, value))
    {
      hide Parse, QueryOf, Choosing, Entered;
      var params := new URLSearchParams(Parse(QueryOf(url)));
      Update(params, name, value);
      Replace(params);
    }

    method HandleSubmit()
      modifies this`url
      ensures Now() == EditStep(pathname, old(Now()), Submit)
    {
      hide Parse, QueryOf, Choosing, Entered, Trim;
      var params := new URLSearchParams(Parse(QueryOf(url)));
      Update(params, "actor", Trim(actor));
      Update(params, "subjectUser", Trim(subjectUser));
      Update(params, "subjectWorkspace", Trim(subjectWorkspace));
      Replace(params);
    }
  }

  // ----------------------------------------------------- what a run leaves

  function ListOf(url: string): seq<Entry> {
    Parse(QueryOf(url))
  }

  predicate HasCursor(list: seq<Entry>) {
    exists e | e in list :: e.0 == "cursor"
  }

  predicate CleanList(list: seq<Entry>) {
    forall e | e in list && e.0 in TEXT_FIELDS :: CleanText(e.1)
  }

  lemma {:induction false} DeleteMembers(list: seq<Entry>, name: string)
    ensures forall e :: e in Delete(list, name) <==> e in list && e.0 != name
  {
    if list != [] {
      DeleteMembers(list[1..], name);
      assert forall e :: e in list <==> e == list[0] || e in list[1..];
    }
  }

  lemma {:induction false} SetMembers(list: seq<Entry>, name: string, value: string)
    ensures forall e :: e in Set(list, name, value) <==> (e in list && e.0 != name) || e == (name, value)
  {
    if list != [] {
      DeleteMembers(list[1..], name);
      SetMembers(list[1..], name, value);
      assert forall e :: e in list <==> e == list[0] || e in list[1..];
    }
  }

  lemma ChoosingMembers(list: seq<Entry>, name: string, value: string)
    ensures forall e :: e in Choosing(list, name, Picked(value)) <==>
              (e in list && e.0 != name) || (value != "" && e == (name, value))
  {
    DeleteMembers(list, name);
    SetMembers(list, name, value);
    hide Delete, Set;
  }

  lemma EnteredList(pathname: string, list: seq<Entry>)
    requires '?' !in pathname
    ensures ListOf(Entered(pathname, list)) == Delete(list, "cursor")
  {
    hide Href, QueryOf, Parse, Serialize, Delete;
    QueryOfHref(pathname, Delete(list, "cursor"));
    QueryRoundTrip(Delete(list, "cursor"));
  }

  lemma NoQuestionMark(pathname: string)
    requires '?' !in pathname
    ensures ListOf(pathname) == []
  {
    assert IndexOf(pathname, '?') == |pathname|;
  }

  predicate Navigates(e: Edit) {
    !e.Type?
  }

  /** An edit that rewrites or drops all three text filters. */
  predicate Cleanses(e: Edit) {
    e.Submit? || e.Reset?
  }

  lemma EntryNames()
    ensures forall name | name in SELECT_FIELDS :: name !in TEXT_FIELDS && name != "cursor"
    ensures "cursor" !in TEXT_FIELDS
    ensures "actor" in TEXT_FIELDS && "subjectUser" in TEXT_FIELDS && "subjectWorkspace" in TEXT_FIELDS
    ensures forall name | name in TEXT_FIELDS :: name in {"actor", "subjectUser", "subjectWorkspace"}
  {
    FieldNames();
    assert TEXT_FIELDS[0] == "actor" && TEXT_FIELDS[1] == "subjectUser" && TEXT_FIELDS[2] == "subjectWorkspace";
    assert SELECT_FIELDS[0] == "action" && SELECT_FIELDS[1] == "reason" && SELECT_FIELDS[2] == "date";
  }

  lemma StepCursor(pathname: string, s: FormState, e: Edit)
    requires '?' !in pathname
    ensures HasCursor(ListOf(EditStep(pathname, s, e).url)) <==> !Navigates(e) && HasCursor(ListOf(s.url))
  {
    hide Parse, QueryOf, Choosing, ApplyText, Entered, Delete;
    match e
    case Type(_) =>
    case Reset => NoQuestionMark(pathname);
    case Choose(name, value) =>
      var list := Choosing(ListOf(s.url), name, Picked(value));
      EnteredList(pathname, list);
      DeleteMembers(list, "cursor");
    case Submit =>
      var list := ApplyText(ListOf(s.url), s.fields);
      EnteredList(pathname, list);
      DeleteMembers(list, "cursor");
  }

  lemma ChooseKeepsText(pathname: string, s: FormState, name: string, value: string)
    requires '?' !in pathname && name in SELECT_FIELDS
    ensures CleanList(ListOf(EditStep(pathname, s, Choose(name, value)).url)) <==> CleanList(ListOf(s.url))
  {
    hide Parse, QueryOf, Choosing, Entered, Delete, CleanText, TEXT_FIELDS, SELECT_FIELDS;
    var list := Choosing(ListOf(s.url), name, Picked(value));
    EntryNames();
    ChoosingMembers(ListOf(s.url), name, value);
    EnteredList(pathname, list);
    DeleteMembers(list, "cursor");
  }

  lemma SubmitCleans(pathname: string, s: FormState)
    requires '?' !in pathname
    ensures CleanList(ListOf(EditStep(pathname, s, Submit).url))
  {
    hide Parse, QueryOf, Choosing, Entered, Delete, CleanText, TEXT_FIELDS, Trim;
    var l0 := ListOf(s.url);
    var a, u, w := Trim(s.fields.actor), Trim(s.fields.subjectUser), Trim(s.fields.subjectWorkspace);
    var l1 := Choosing(l0, "actor", Picked(a));
    var l2 := Choosing(l1, "subjectUser", Picked(u));
    var l3 := Choosing(l2, "subjectWorkspace", Picked(w));
    EntryNames();
    TrimCleans(s.fields.actor);
    TrimCleans(s.fields.subjectUser);
    TrimCleans(s.fields.subjectWorkspace);
    ChoosingMembers(l0, "actor", a);
    ChoosingMembers(l1, "subjectUser", u);
    ChoosingMembers(l2, "subjectWorkspace", w);
    EnteredList(pathname, l3);
    DeleteMembers(l3, "cursor");
  }

  lemma StepClean(pathname: string, s: FormState, e: Edit)
    requires '?' !in pathname && Offers(e)
    ensures CleanList(ListOf(EditStep(pathname, s, e).url)) <==> Cleanses(e) || CleanList(ListOf(s.url))
  {
    hide ListOf, CleanList, Entered, Choosing, ApplyText, QueryOf, Parse;
    match e
    case Type(_) =>
    case Choose(name, value) => ChooseKeepsText(pathname, s, name, value);
    case Submit => SubmitCleans(pathname, s);
    case Reset =>
      NoQuestionMark(pathname);
      EmptyIsClean();
  }

  lemma EmptyIsClean()
    ensures CleanList([]) && !HasCursor([])
  {
  }

  /** A cursor survives a run of edits exactly when no edit navigated. */
  lemma {:induction false} CursorIff(pathname: string, s: FormState, edits: seq<Edit>)
    requires '?' !in pathname
    ensures HasCursor(ListOf(EditRun(pathname, s, edits).url)) <==>
              HasCursor(ListOf(s.url)) && forall e | e in edits :: !Navigates(e)
    decreases |edits|
  {
    hide ListOf, HasCursor, EditStep, Navigates;
    if edits != [] {
      StepCursor(pathname, s, edits[0]);
      CursorIff(pathname, EditStep(pathname, s, edits[0]), edits[1..]);
      assert forall e :: e in edits <==> e == edits[0] || e in edits[1..];
    }
  }

  /**
   The text filters are free of blank and padded values after a run of edits exactly when they were
   before it or the run submitted the form or reset it. A select change copies the current query,
   so a padded value that came with the address stays.
   */
  lemma {:induction false} CleanIff(pathname: string, s: FormState, edits: seq<Edit>)
    requires '?' !in pathname && forall e | e in edits :: Offers(e)
    ensures CleanList(ListOf(EditRun(pathname, s, edits).url)) <==>
              CleanList(ListOf(s.url)) || exists e | e in edits :: Cleanses(e)
    decreases |edits|
  {
    hide ListOf, CleanList, EditStep, Cleanses;
    if edits != [] {
      assert edits[0] in edits;
      StepClean(pathname, s, edits[0]);
      CleanIff(pathname, EditStep(pathname, s, edits[0]), edits[1..]);
      assert forall e :: e in edits <==> e == edits[0] || e in edits[1..];
    }
  }

  /** The smallest such run: one select change on an address whose actor is padded. */
  lemma PaddedActorSurvives(fields: Fields)
    ensures var s := FormState(fields, Href("/admin/audit", [("actor", " x")]));
            !CleanList(ListOf(EditRun("/admin/audit", s, [Choose("date", "30d")]).url))
  {
    hide EditRun, Parse, Serialize, Href, QueryOf, TEXT_FIELDS, SELECT_FIELDS;
    var list: seq<Entry> := [("actor", " x")];
    var s := FormState(fields, Href("/admin/audit", list));
    EntryNames();
    SelectsOfferDate();
    QueryOfHref("/admin/audit", list);
    QueryRoundTrip(list);
    assert list[0] in list && !CleanText(" x");
    CleanIff("/admin/audit", s, [Choose("date", "30d")]);
  }

  lemma SelectsOfferDate()
    ensures "date" in SELECT_FIELDS
  {
    assert SELECT_FIELDS[2] == "date";
  }
}
