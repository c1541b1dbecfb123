/**
 What the audit page reads after each edit of its filter form, and after any run of edits: the last
 choice of a select and the last submitted text decide, and every navigation drops the cursor.
 */
module AuditEdits {
  import opened Wrappers
  import opened UrlQuery
  import opened AuditQuery

  const NOTHING: AuditParams := AuditParams("", "", "", "", "", "", None)

  function ReadAt(url: string): AuditParams {
    ReadParams(QueryOf(url))
  }

  /** One select changed and the cursor dropped. */
  function Chosen(p: AuditParams, name: string, value: string): AuditParams {
    var q := p.(cursor := None);
    if name == "action" then q.(action := value)
    else if name == "reason" then q.(reason := value)
    else if name == "date" then q.(date := value)
    else q
  }

  /** What an edit makes of the reading, by the edit and the text in the form. */
  function Edited(p: AuditParams, fields: Fields, e: Edit): AuditParams {
    match e
    case Type(_) => p
    case Choose(name, value) => Chosen(p, name, value)
    case Submit =>
      p.(actor := Trim(fields.actor), subjectUser := Trim(fields.subjectUser),
      subjectWorkspace := Trim(fields.subjectWorkspace), cursor := None)
    case Reset => NOTHING
  }

  lemma ChosenNames(name: string)
    requires name in SELECT_FIELDS
    ensures name in {"action", "reason", "date"}
  {
    assert SELECT_FIELDS[0] == "action" && SELECT_FIELDS[1] == "reason" && SELECT_FIELDS[2] == "date";
  }

  /** The page's reading of a navigation's list, without its cursor. */
  lemma EnteredRead(pathname: string, list: seq<Entry>)
    requires '?' !in pathname
    ensures var p := ReadAt(Entered(pathname, list));
            && p.cursor == None
            && p.action == Get(list, "action").GetOr("") && p.reason == Get(list, "reason").GetOr("")
            && p.actor == Get(list, "actor").GetOr("") && p.subjectUser == Get(list, "subjectUser").GetOr("")
            && p.subjectWorkspace == Get(list, "subjectWorkspace").GetOr("") && p.date == Get(list, "date").GetOr("")
  {
    hide Entered, QueryOf, Parse, Delete, Get;
    FieldNames();
    EnteredList(pathname, list);
    GetAfterDelete(list, "cursor", "action");
    GetAfterDelete(list, "cursor", "reason");
    GetAfterDelete(list, "cursor", "actor");
    GetAfterDelete(list, "cursor", "subjectUser");
    GetAfterDelete(list, "cursor", "subjectWorkspace");
    GetAfterDelete(list, "cursor", "date");
    GetAfterDelete(list, "cursor", "cursor");
  }

  lemma ChooseRead(pathname: string, s: FormState, name: string, value: string)
    requires '?' !in pathname && name in {"action", "reason", "date"}
    ensures ReadAt(EditStep(pathname, s, Choose(name, value)).url) == Chosen(ReadAt(s.url), name, value)
  {
    hide Entered, QueryOf, Parse, Choosing, Get;
    FieldNames();
    var before := Parse(QueryOf(s.url));
    var list := Choosing(before, name, Picked(value));
    EnteredRead(pathname, list);
    forall n
      ensures Get(list, n) == if n == name then Picked(value) else Get(before, n)
    {
      ChoosingGet(before, name, Picked(value), n);
    }
  }

  lemma SubmitRead(pathname: string, s: FormState)
    requires '?' !in pathname
    ensures ReadAt(EditStep(pathname, s, Submit).url) == Edited(ReadAt(s.url), s.fields, Submit)
  {
    hide Entered, QueryOf, Parse, Choosing, Get, Trim;
    FieldNames();
    var a, u, w := Trim(s.fields.actor), Trim(s.fields.subjectUser), Trim(s.fields.subjectWorkspace);
    var l0 := Parse(QueryOf(s.url));
    var l1 := Choosing(l0, "actor", Picked(a));
    var l2 := Choosing(l1, "subjectUser", Picked(u));
    var l3 := Choosing(l2, "subjectWorkspace", Picked(w));
    forall n
      ensures Get(l1, n) == if n == "actor" then Picked(a) else Get(l0, n)
      ensures Get(l2, n) == if n == "subjectUser" then Picked(u) else Get(l1, n)
      ensures Get(l3, n) == if n == "subjectWorkspace" then Picked(w) else Get(l2, n)
    {
      ChoosingGet(l0, "actor", Picked(a), n);
      ChoosingGet(l1, "subjectUser", Picked(u), n);
      ChoosingGet(l2, "subjectWorkspace", Picked(w), n);
    }
    EnteredRead(pathname, l3);
  }

  lemma NothingRead()
    ensures Parse("") == [] && forall name :: Get([], name) == None
  {
  }

  lemma ResetRead(pathname: string, s: FormState)
    requires '?' !in pathname
    ensures ReadAt(EditStep(pathname, s, Reset).url) == NOTHING
  {
    NoQuestionMark(pathname);
    NothingRead();
    hide QueryOf, Parse, Get;
  }

  /** After every edit the page reads what it read before with exactly that edit made. */
  lemma EditRead(pathname: string, s: FormState, e: Edit)
    requires '?' !in pathname && Offers(e)
    ensures ReadAt(EditStep(pathname, s, e).url) == Edited(ReadAt(s.url), s.fields, e)
    ensures EditStep(pathname, s, e).fields == if e.Type? then e.fields else s.fields
  {
    hide Entered, QueryOf, Parse, Choosing, ApplyText, ReadAt, Trim;
    match e
    case Type(_) =>
    case Choose(name, value) =>
      ChosenNames(name);
      ChooseRead(pathname, s, name, value);
    case Submit => SubmitRead(pathname, s);
    case Reset => ResetRead(pathname, s);
  }

  // --------------------------------------------------------------------- runs

  predicate AllOffered(edits: seq<Edit>) {
    forall e | e in edits :: Offers(e)
  }

  lemma {:induction false} RunSplits(pathname: string, s: FormState, a: seq<Edit>, b: seq<Edit>)
    ensures EditRun(pathname, s, a + b) == EditRun(pathname, EditRun(pathname, s, a), b)
    decreases |a|
  {
    hide EditStep;
    if a == [] {
      assert a + b == b;
    } else {
      assert (a + b)[0] == a[0] && (a + b)[1..] == a[1..] + b;
      RunSplits(pathname, EditStep(pathname, s, a[0]), a[1..], b);
    }
  }

  /** The value of one select. */
  function SelectOf(p: AuditParams, name: string): string {
    if name == "action" then p.action else if name == "reason" then p.reason else p.date
  }

  predicate Selects(e: Edit, name: string) {
    e.Reset? || (e.Choose? && e.name == name)
  }

  /** An edit that is neither a choice of this select nor a reset leaves its value alone. */
  lemma {:induction false} SelectKept(pathname: string, s: FormState, edits: seq<Edit>, name: string)
    requires '?' !in pathname && AllOffered(edits) && name in SELECT_FIELDS
    requires forall e | e in edits :: !Selects(e, name)
    ensures SelectOf(ReadAt(EditRun(pathname, s, edits).url), name) == SelectOf(ReadAt(s.url), name)
    decreases |edits|
  {
    hide EditStep, ReadAt, Trim, SELECT_FIELDS;
    if edits != [] {
      var e := edits[0];
      assert e in edits && !Selects(e, name) && Offers(e);
      EditRead(pathname, s, e);
      ChosenNames(name);
      if e.Choose? {
        ChosenNames(e.name);
      }
      assert forall d | d in edits[1..] :: d in edits;
      SelectKept(pathname, EditStep(pathname, s, e), edits[1..], name);
    }
  }

  /** The three text filters. */
  function TextOf(p: AuditParams): Fields {
    Fields(p.actor, p.subjectUser, p.subjectWorkspace)
  }

  lemma {:induction false} TextKept(pathname: string, s: FormState, edits: seq<Edit>)
    requires '?' !in pathname && AllOffered(edits) && forall e | e in edits :: !Cleanses(e)
    ensures TextOf(ReadAt(EditRun(pathname, s, edits).url)) == TextOf(ReadAt(s.url))
    decreases |edits|
  {
    hide EditStep, ReadAt, Trim, SELECT_FIELDS;
    if edits != [] {
      var e := edits[0];
      assert e in edits && !Cleanses(e) && Offers(e);
      EditRead(pathname, s, e);
      assert forall d | d in edits[1..] :: d in edits;
      TextKept(pathname, EditStep(pathname, s, e), edits[1..]);
    }
  }

  /** What stands in the text boxes after a run: the last thing typed, or what was there at the start. */
  function Typed(fields: Fields, edits: seq<Edit>): Fields {
    if edits == [] then fields
    else if edits[|edits| - 1].Type? then edits[|edits| - 1].fields
    else Typed(fields, edits[..|edits| - 1])
  }

  lemma {:induction false} FieldsTyped(pathname: string, s: FormState, edits: seq<Edit>)
    requires '?' !in pathname && AllOffered(edits)
    ensures EditRun(pathname, s, edits).fields == Typed(s.fields, edits)
    decreases |edits|
  {
    hide EditStep, ReadAt, Trim, Edited;
    if edits != [] {
      var before, e := edits[..|edits| - 1], edits[|edits| - 1];
      assert edits == before + [e] && Offers(e);
      assert forall d | d in before :: d in edits;
      RunSplits(pathname, s, before, [e]);
      FieldsTyped(pathname, s, before);
      OneEdit(pathname, EditRun(pathname, s, before), e);
      EditRead(pathname, EditRun(pathname, s, before), e);
    }
  }

  lemma OneEdit(pathname: string, s: FormState, e: Edit)
    ensures EditRun(pathname, s, [e]) == EditStep(pathname, s, e)
  {
    hide EditStep;
    assert [e][1..] == [];
  }

  lemma CutAt(pathname: string, s: FormState, edits: seq<Edit>, k: nat)
    requires k < |edits|
    ensures var before := EditRun(pathname, s, edits[..k]);
            EditRun(pathname, s, edits) == EditRun(pathname, EditStep(pathname, before, edits[k]), edits[k + 1..])
  {
    hide EditStep;
    var before := EditRun(pathname, s, edits[..k]);
    assert edits == edits[..k] + edits[k..] && edits[k..][0] == edits[k] && edits[k..][1..] == edits[k + 1..];
    RunSplits(pathname, s, edits[..k], edits[k..]);
  }

  /** The last choice of a select decides what the page reads for it, whatever else the run does. */
  lemma LastChoiceDecides(pathname: string, s: FormState, edits: seq<Edit>, k: nat)
    requires '?' !in pathname && AllOffered(edits) && k < |edits| && edits[k].Choose?
    requires forall i | k < i < |edits| :: !Selects(edits[i], edits[k].name)
    ensures SelectOf(ReadAt(EditRun(pathname, s, edits).url), edits[k].name) == edits[k].value
  {
    hide EditStep, ReadAt, EditRun, SELECT_FIELDS, Trim;
    var before, e := EditRun(pathname, s, edits[..k]), edits[k];
    assert Offers(e);
    CutAt(pathname, s, edits, k);
    EditRead(pathname, before, e);
    ChosenNames(e.name);
    assert forall d | d in edits[k + 1..] :: d in edits;
    SelectKept(pathname, EditStep(pathname, before, e), edits[k + 1..], e.name);
  }

  /** The last submission decides the three text filters: each is the trimmed text of its own box at that moment. */
  lemma LastSubmitDecides(pathname: string, s: FormState, edits: seq<Edit>, k: nat)
    requires '?' !in pathname && AllOffered(edits) && k < |edits| && edits[k].Submit?
    requires forall i | k < i < |edits| :: !Cleanses(edits[i])
    ensures TextOf(ReadAt(EditRun(pathname, s, edits).url))
         == Fields(Trim(Typed(s.fields, edits[..k]).actor), Trim(Typed(s.fields, edits[..k]).subjectUser),
                   Trim(Typed(s.fields, edits[..k]).subjectWorkspace))
  {
    hide EditStep, ReadAt, EditRun, Trim, Typed;
    var before := EditRun(pathname, s, edits[..k]);
    assert forall d | d in edits[..k] :: d in edits;
    FieldsTyped(pathname, s, edits[..k]);
    CutAt(pathname, s, edits, k);
    EditRead(pathname, before, edits[k]);
    assert forall d | d in edits[k + 1..] :: d in edits;
    TextKept(pathname, EditStep(pathname, before, edits[k]), edits[k + 1..]);
  }

  /** A reset empties every filter, and only later edits fill them again. */
  lemma ResetEmpties(pathname: string, s: FormState, edits: seq<Edit>, k: nat, name: string)
    requires '?' !in pathname && AllOffered(edits) && k < |edits| && edits[k].Reset? && name in SELECT_FIELDS
    ensures (forall i | k < i < |edits| :: !Selects(edits[i], name)) ==>
              SelectOf(ReadAt(EditRun(pathname, s, edits).url), name) == ""
    ensures (forall i | k < i < |edits| :: !Cleanses(edits[i])) ==>
              TextOf(ReadAt(EditRun(pathname, s, edits).url)) == Fields("", "", "")
  {
    hide EditStep, ReadAt, EditRun, Trim, SELECT_FIELDS;
    var before := EditRun(pathname, s, edits[..k]);
    var after := EditStep(pathname, before, Reset);
    CutAt(pathname, s, edits, k);
    EditRead(pathname, before, Reset);
    assert forall d | d in edits[k + 1..] :: d in edits;
    if forall i | k < i < |edits| :: !Selects(edits[i], name) {
      SelectKept(pathname, after, edits[k + 1..], name);
    }
    if forall i | k < i < |edits| :: !Cleanses(edits[i]) {
      TextKept(pathname, after, edits[k + 1..]);
    }
  }
}
