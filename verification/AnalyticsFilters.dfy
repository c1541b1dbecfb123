/**
 The analytics filter bar: a selection that lives in the URL, option lists narrowed by it, and
 handlers that write a new URL which the page parses back.
 */
module AnalyticsFilters {
  import opened Wrappers
  import opened UrlQuery

  datatype Selection = Selection(
    range: string,
    from: Option<string>,
    until: Option<string>,
    account: Option<string>,
    strategy: Option<string>,
    setup: Option<string>,
    version: Option<string>)

  /** A setup or a strategy version, with the strategy it belongs to. */
  datatype Choice = Choice(id: string, strategyId: string)

  datatype Options = Options(accounts: seq<string>, strategies: seq<string>, setups: seq<Choice>, versions: seq<Choice>)

  /** The two format checks of the schema: uuid, and a canonical calendar date. */
  datatype Formats = Formats(isUuid: string -> bool, isDate: string -> bool)

  // --------------------------------------------------------------- narrowing

  function Find(choices: seq<Choice>, id: Option<string>): Option<Choice> {
    if choices == [] then None
    else if id == Some(choices[0].id) then Some(choices[0])
    else Find(choices[1..], id)
  }

  function StrategyOf(choices: seq<Choice>, id: Option<string>): Option<string> {
    match Find(choices, id)
    case None => None
    case Some(choice) => Some(choice.strategyId)
  }

  function DependentStrategy(o: Options, s: Selection): Option<string> {
    if s.strategy.Some? then s.strategy
    else if StrategyOf(o.setups, s.setup).Some? then StrategyOf(o.setups, s.setup)
    else StrategyOf(o.versions, s.version)
  }

  function Narrowed(choices: seq<Choice>, strategy: Option<string>): seq<Choice> {
    if choices == [] then []
    else (if strategy in {None, Some(choices[0].strategyId)} then [choices[0]] else []) + Narrowed(choices[1..], strategy)
  }

  lemma {:induction false} NarrowedMembers(choices: seq<Choice>, strategy: Option<string>)
    ensures forall c :: c in Narrowed(choices, strategy) <==> c in choices && strategy in {None, Some(c.strategyId)}
  {
    if choices != [] {
      NarrowedMembers(choices[1..], strategy);
      assert forall c :: c in choices <==> c == choices[0] || c in choices[1..];
    }
  }

  ghost predicate DistinctIds(choices: seq<Choice>) {
    forall c, d | c in choices && d in choices && c.id == d.id :: c == d
  }

  lemma {:induction false} FindMember(choices: seq<Choice>, c: Choice)
    requires c in choices && DistinctIds(choices)
    ensures Find(choices, Some(c.id)) == Some(c)
  {
    if choices[0].id == c.id {
      assert choices[0] in choices;
    } else {
      assert forall d | d in choices[1..] :: d in choices;
      FindMember(choices[1..], c);
    }
  }

  // ----------------------------------------------------------------- changes

  datatype Change =
    | Range(preset: string)
    | Account(id: Option<string>)
    | Strategy(id: Option<string>)
    | Setup(id: Option<string>)
    | Version(id: Option<string>)

  /** What the controls let a user pick. */
  predicate Offered(o: Options, s: Selection, change: Change) {
    match change
    case Range(preset) => preset in {"30d", "90d", "all"}
    case Account(id) => id in {None, Some("all")} || id.value in o.accounts
    case Strategy(id) => id.None? || id.value in o.strategies
    case Setup(id) => id.None? || exists c | c in Narrowed(o.setups, s.strategy) :: c.id == id.value
    case Version(id) => id.None? || exists c | c in Narrowed(o.versions, DependentStrategy(o, s)) :: c.id == id.value
  }

  function CurrentParams(view: string, s: Selection): seq<Entry> {
    SetSome(
      SetSome(
        SetSome(
          SetSome(
            SetSome(
              SetSome(
                Set(Set([], "view", view), "range", s.range), "from", s.from), "to", s.until), "account", s.account),
          "strategy", s.strategy), "setup", s.setup), "version", s.version)
  }

  function Changed(list: seq<Entry>, change: Change): seq<Entry> {
    match change
    case Range(preset) => Delete(Delete(Set(list, "range", preset), "from"), "to")
    case Account(id) => Choosing(list, "account", id)
    case Strategy(id) => Delete(Delete(Choosing(list, "strategy", id), "setup"), "version")
    case Setup(id) => Delete(Choosing(list, "setup", id), "version")
    case Version(id) => Choosing(list, "version", id)
  }

  // ------------------------------------------------------------------ parser

  const PRESETS: set<string> := {"today", "week", "month", "30d", "90d", "quarter", "ytd", "all", "custom"}
  const FILTER_KEYS: set<string> := {"range", "from", "to", "account", "strategy", "setup", "version"}

  predicate Before(a: string, b: string) {
    b != "" && (a == "" || a[0] < b[0] || (a[0] == b[0] && Before(a[1..], b[1..])))
  }

  predicate EachOnce(list: seq<Entry>) {
    forall i, j | 0 <= i < j < |list| && list[i].0 in FILTER_KEYS :: list[i].0 != list[j].0
  }

  predicate Passes(value: Option<string>, test: string -> bool) {
    value.Some? ==> test(value.value)
  }

  function Read(list: seq<Entry>): Selection {
    Selection(Get(list, "range").GetOr("90d"), Get(list, "from"), Get(list, "to"), Get(list, "account"),
              Get(list, "strategy"), Get(list, "setup"), Get(list, "version"))
  }

  /** AnalyticsFilterInputSchema. */
  predicate Acceptable(f: Formats, s: Selection) {
    && s.range in PRESETS
    && Passes(s.from, f.isDate) && Passes(s.until, f.isDate)
    && (s.account == Some("all") || Passes(s.account, f.isUuid))
    && Passes(s.strategy, f.isUuid) && Passes(s.setup, f.isUuid) && Passes(s.version, f.isUuid)
    && (if s.range == "custom" then s.from.Some? && s.until.Some? && !Before(s.until.value, s.from.value)
        else s.from.None? && s.until.None?)
  }

  /** parseAnalyticsUrlFilters on the page's query: view is dropped, a repeated key reads as an array. */
  function ParseFilters(f: Formats, list: seq<Entry>): Option<Selection> {
    if (exists e | e in list :: e.0 != "view" && e.0 !in FILTER_KEYS) || !EachOnce(list) then None
    else if !Acceptable(f, Read(list)) then None
    else Some(Read(list))
  }

  // -------------------------------------------------------------- round trip

  lemma KeysDiffer()
    ensures "range" !in {"from", "to", "account", "strategy", "setup", "version", "view"}
    ensures "from" !in {"to", "account", "strategy", "setup", "version", "view"}
    ensures "to" !in {"account", "strategy", "setup", "version", "view"}
    ensures "account" !in {"strategy", "setup", "version", "view"}
    ensures "strategy" !in {"setup", "version", "view"} && "setup" !in {"version", "view"} && "version" != "view"
  {
    assert |"range"| == 5 && |"from"| == 4 && |"to"| == 2 && |"account"| == 7 && |"strategy"| == 8;
    assert |"setup"| == 5 && |"version"| == 7 && |"view"| == 4;
    assert "range"[0] != "setup"[0] && "from"[0] != "view"[0] && "account"[0] != "version"[0];
  }

  /** Known names, each at most once. */
  ghost predicate Tidy(list: seq<Entry>) {
    && (forall e | e in list :: e.0 == "view" || e.0 in FILTER_KEYS)
    && forall i, j | 0 <= i < j < |list| :: list[i].0 != list[j].0
  }

  lemma {:induction false} DeleteTidy(list: seq<Entry>, name: string)
    requires Tidy(list)
    ensures Tidy(Delete(list, name)) && forall e | e in Delete(list, name) :: e in list && e.0 != name
  {
    hide FILTER_KEYS;
    if list != [] {
      TailTidy(list);
      DeleteTidy(list[1..], name);
    }
  }

  lemma TailTidy(list: seq<Entry>)
    requires list != [] && Tidy(list)
    ensures Tidy(list[1..]) && forall e | e in list[1..] :: e in list && e.0 != list[0].0
  {
    hide FILTER_KEYS;
    forall e | e in list[1..]
      ensures e in list && e.0 != list[0].0
    {
      var j :| 0 <= j < |list[1..]| && list[1..][j] == e;
      assert e == list[j + 1];
    }
  }

  lemma {:induction false} SetTidy(list: seq<Entry>, name: string, value: string)
    requires Tidy(list) && (name == "view" || name in FILTER_KEYS)
    ensures Tidy(Set(list, name, value))
    ensures forall e | e in Set(list, name, value) :: e in list || e.0 == name
  {
    hide FILTER_KEYS;
    if list != [] {
      TailTidy(list);
      DeleteTidy(list[1..], name);
      SetTidy(list[1..], name, value);
    }
  }

  lemma ChoosingTidy(list: seq<Entry>, name: string, id: Option<string>)
    requires Tidy(list) && name in FILTER_KEYS
    ensures Tidy(Choosing(list, name, id)) && Tidy(SetSome(list, name, id))
  {
    DeleteTidy(list, name);
    if id.Some? {
      SetTidy(list, name, id.value);
    }
  }

  lemma FilterKeys()
    ensures forall key | key in FILTER_KEYS ::
              key in {"range", "from", "to", "account", "strategy", "setup", "version"}
    ensures forall key | key in {"range", "from", "to", "account", "strategy", "setup", "version"} :: key in FILTER_KEYS
  {
  }

  lemma CurrentParamsTidy(view: string, s: Selection)
    ensures Tidy(CurrentParams(view, s))
  {
    hide Set, SetSome, FILTER_KEYS;
    FilterKeys();
    EmptyTidy();
    var l0: seq<Entry> := [];
    SetTidy(l0, "view", view);
    var l1 := Set(l0, "view", view);
    SetTidy(l1, "range", s.range);
    var l2 := Set(l1, "range", s.range);
    ChoosingTidy(l2, "from", s.from);
    var l3 := SetSome(l2, "from", s.from);
    ChoosingTidy(l3, "to", s.until);
    var l4 := SetSome(l3, "to", s.until);
    ChoosingTidy(l4, "account", s.account);
    var l5 := SetSome(l4, "account", s.account);
    ChoosingTidy(l5, "strategy", s.strategy);
    var l6 := SetSome(l5, "strategy", s.strategy);
    ChoosingTidy(l6, "setup", s.setup);
    ChoosingTidy(SetSome(l6, "setup", s.setup), "version", s.version);
  }

  lemma EmptyTidy()
    ensures Tidy([])
  {
  }

  lemma ChangedTidy(list: seq<Entry>, change: Change)
    requires Tidy(list)
    ensures Tidy(Changed(list, change))
  {
    hide Set, Delete, Choosing, FILTER_KEYS, Tidy;
    FilterKeys();
    match change
    case Range(preset) =>
      SetTidy(list, "range", preset);
      DeleteTidy(Set(list, "range", preset), "from");
      DeleteTidy(Delete(Set(list, "range", preset), "from"), "to");
    case Account(id) => ChoosingTidy(list, "account", id);
    case Strategy(id) =>
      ChoosingTidy(list, "strategy", id);
      DeleteTidy(Choosing(list, "strategy", id), "setup");
      DeleteTidy(Delete(Choosing(list, "strategy", id), "setup"), "version");
    case Setup(id) =>
      ChoosingTidy(list, "setup", id);
      DeleteTidy(Choosing(list, "setup", id), "version");
    case Version(id) => ChoosingTidy(list, "version", id);
  }

  lemma CurrentParamsRead(view: string, s: Selection)
    ensures Read(CurrentParams(view, s)) == s
  {
    hide Set, SetSome;
    KeysDiffer();
    var l0: seq<Entry> := [];
    var l1 := Set(l0, "view", view);
    var l2 := Set(l1, "range", s.range);
    var l3 := SetSome(l2, "from", s.from);
    var l4 := SetSome(l3, "to", s.until);
    var l5 := SetSome(l4, "account", s.account);
    var l6 := SetSome(l5, "strategy", s.strategy);
    var l7 := SetSome(l6, "setup", s.setup);
    forall n
      ensures n != "view" ==> Get(l1, n) == None
      ensures n != "view" ==> Get(l2, n) == if n == "range" then Some(s.range) else None
    {
      GetAfterSet(l0, "view", view, n);
      GetAfterSet(l1, "range", s.range, n);
    }
    forall n ensures Get(l3, n) == if n == "from" then s.from else Get(l2, n) { SetSomeGet(l2, "from", s.from, n); }
    forall n ensures Get(l4, n) == if n == "to" then s.until else Get(l3, n) { SetSomeGet(l3, "to", s.until, n); }
    forall n ensures Get(l5, n) == if n == "account" then s.account else Get(l4, n) {
      SetSomeGet(l4, "account", s.account, n);
    }
    forall n ensures Get(l6, n) == if n == "strategy" then s.strategy else Get(l5, n) {
      SetSomeGet(l5, "strategy", s.strategy, n);
    }
    forall n ensures Get(l7, n) == if n == "setup" then s.setup else Get(l6, n) {
      SetSomeGet(l6, "setup", s.setup, n);
    }
    forall n ensures Get(CurrentParams(view, s), n) == if n == "version" then s.version else Get(l7, n) {
      SetSomeGet(l7, "version", s.version, n);
    }
    hide Get;
  }

  /** The selection a change leads to. */
  function Updated(s: Selection, change: Change): Selection {
    match change
    case Range(preset) => s.(range := preset, from := None, until := None)
    case Account(id) => s.(account := id)
    case Strategy(id) => s.(strategy := id, setup := None, version := None)
    case Setup(id) => s.(setup := id, version := None)
    case Version(id) => s.(version := id)
  }

  lemma ChangedRead(list: seq<Entry>, change: Change)
    ensures Read(Changed(list, change)) == Updated(Read(list), change)
  {
    hide Set, Delete, Choosing, Get;
    KeysDiffer();
    forall n
      ensures Get(Changed(list, change), n) == ExpectedGet(list, change, n)
    {
      ChangedGet(list, change, n);
    }
  }

  function ExpectedGet(list: seq<Entry>, change: Change, n: string): Option<string> {
    match change
    case Range(preset) => if n in {"from", "to"} then None else if n == "range" then Some(preset) else Get(list, n)
    case Account(id) => if n == "account" then id else Get(list, n)
    case Strategy(id) => if n in {"setup", "version"} then None else if n == "strategy" then id else Get(list, n)
    case Setup(id) => if n == "version" then None else if n == "setup" then id else Get(list, n)
    case Version(id) => if n == "version" then id else Get(list, n)
  }

  lemma ChangedGet(list: seq<Entry>, change: Change, n: string)
    ensures Get(Changed(list, change), n) == ExpectedGet(list, change, n)
  {
    hide Set, Delete, Choosing, Get;
    match change
    case Range(preset) =>
      GetAfterSet(list, "range", preset, n);
      GetAfterDelete(Set(list, "range", preset), "from", n);
      GetAfterDelete(Delete(Set(list, "range", preset), "from"), "to", n);
    case Account(id) => ChoosingGet(list, "account", id, n);
    case Strategy(id) =>
      ChoosingGet(list, "strategy", id, n);
      GetAfterDelete(Choosing(list, "strategy", id), "setup", n);
      GetAfterDelete(Delete(Choosing(list, "strategy", id), "setup"), "version", n);
    case Setup(id) =>
      ChoosingGet(list, "setup", id, n);
      GetAfterDelete(Choosing(list, "setup", id), "version", n);
    case Version(id) => ChoosingGet(list, "version", id, n);
  }

  // --------------------------------------------------------------- navigation

  const PAGE: string := "/app/analytics"

  function NextUrl(view: string, s: Selection, change: Change): string {
    Href(PAGE, Changed(CurrentParams(view, s), change))
  }

  class FilterBar {
    const view: string
    const selection: Selection
    var url: string

    constructor (view: string, selection: Selection, url: string)
      ensures this.view == view && this.selection == selection && this.url == url
    {
      this.view, this.selection, this.url := view, selection, url;
    }

    method BuildParams() returns (params: URLSearchParams)
      ensures fresh(params) && params.list == CurrentParams(view, selection)
    {
      hide Set;
      params := new URLSearchParams([]);
      params.Put("view", view);
      params.Put("range", selection.range);
      if selection.from.Some? { params.Put("from", selection.from.value); }
      if selection.until.Some? { params.Put("to", selection.until.value); }
      if selection.account.Some? { params.Put("account", selection.account.value); }
      if selection.strategy.Some? { params.Put("strategy", selection.strategy.value); }
      if selection.setup.Some? { params.Put("setup", selection.setup.value); }
      if selection.version.Some? { params.Put("version", selection.version.value); }
    }

    method Navigate(params: URLSearchParams)
      modifies this
      ensures url == Href(PAGE, params.list)
    {
      var query := params.ToString();
      url := if query != "" then PAGE + "?" + query else PAGE;
    }

    method PickRange(preset: string)
      modifies this
      ensures url == NextUrl(view, selection, Range(preset))
    {
      hide Set, Delete, CurrentParams, Href;
      var params := BuildParams();
      params.Put("range", preset);
      params.Remove("from");
      params.Remove("to");
      Navigate(params);
    }

    method PickAccount(id: string)
      modifies this
      ensures url == NextUrl(view, selection, Account(Picked(id)))
    {
      hide Set, Delete, CurrentParams, Href;
      var params := BuildParams();
      if id == "" { params.Remove("account"); } else { params.Put("account", id); }
      Navigate(params);
    }

    method PickStrategy(id: string)
      modifies this
      ensures url == NextUrl(view, selection, Strategy(Picked(id)))
    {
      hide Set, Delete, CurrentParams, Href;
      var params := BuildParams();
      if id == "" { params.Remove("strategy"); } else { params.Put("strategy", id); }
      params.Remove("setup");
      params.Remove("version");
      Navigate(params);
    }

    method PickSetup(id: string)
      modifies this
      ensures url == NextUrl(view, selection, Setup(Picked(id)))
    {
      hide Set, Delete, CurrentParams, Href;
      var params := BuildParams();
      if id == "" { params.Remove("setup"); } else { params.Put("setup", id); }
      params.Remove("version");
      Navigate(params);
    }

    method PickVersion(id: string)
      modifies this
      ensures url == NextUrl(view, selection, Version(Picked(id)))
    {
      hide Set, Delete, CurrentParams, Href;
      var params := BuildParams();
      if id == "" { params.Remove("version"); } else { params.Put("version", id); }
      Navigate(params);
    }
  }

  function SelectionAt(f: Formats, url: string): Option<Selection> {
    ParseFilters(f, Parse(QueryOf(url)))
  }

  /** What the page reads after a change is the updated selection, or nothing if the schema rejects it. */
  lemma ChangeRoundTrip(f: Formats, view: string, s: Selection, change: Change)
    ensures SelectionAt(f, NextUrl(view, s, change))
         == if Acceptable(f, Updated(s, change)) then Some(Updated(s, change)) else None
  {
    hide Acceptable, Changed, CurrentParams, Href, QueryOf, Parse, Serialize, Read, Updated, FILTER_KEYS, PAGE;
    var list := Changed(CurrentParams(view, s), change);
    PageHasNoQuery();
    QueryOfHref(PAGE, list);
    QueryRoundTrip(list);
    CurrentParamsTidy(view, s);
    CurrentParamsRead(view, s);
    ChangedTidy(CurrentParams(view, s), change);
    ChangedRead(CurrentParams(view, s), change);
    TidyPasses(list);
  }

  lemma PageHasNoQuery()
    ensures '?' !in PAGE
  {
  }

  lemma TidyPasses(list: seq<Entry>)
    requires Tidy(list)
    ensures EachOnce(list) && forall e | e in list :: e.0 == "view" || e.0 in FILTER_KEYS
  {
    hide FILTER_KEYS;
  }

  /** Whatever address the page accepts, the parameters it rebuilds from what it read are read the same again. */
  lemma AcceptedReadsBack(f: Formats, view: string, url: string)
    requires SelectionAt(f, url).Some?
    ensures SelectionAt(f, Href(PAGE, CurrentParams(view, SelectionAt(f, url).value))) == SelectionAt(f, url)
  {
    hide Acceptable, CurrentParams, Href, QueryOf, Parse, Serialize, Read, FILTER_KEYS, PAGE, EachOnce;
    var s := SelectionAt(f, url).value;
    var list := CurrentParams(view, s);
    PageHasNoQuery();
    QueryOfHref(PAGE, list);
    QueryRoundTrip(list);
    CurrentParamsTidy(view, s);
    CurrentParamsRead(view, s);
    TidyPasses(list);
  }

  /** Each of the nine ranges is accepted: the presets on their own, the custom one with two dates in order. */
  lemma EveryRange(f: Formats, range: string, from: string, until: string)
    requires f.isDate(from) && f.isDate(until) && !Before(until, from)
    ensures range in {"today", "week", "month", "30d", "90d", "quarter", "ytd", "all"} ==>
              Acceptable(f, Selection(range, None, None, None, None, None, None))
    ensures Acceptable(f, Selection("custom", Some(from), Some(until), None, None, None, None))
  {
    assert |"custom"| == 6 && |"today"| == 5 && |"week"| == 4 && |"month"| == 5 && |"30d"| == 3 && |"90d"| == 3;
    assert |"quarter"| == 7 && |"ytd"| == 3 && |"all"| == 3;
  }

  /** The order of two dates is decided by the first character in which they differ. */
  lemma {:induction false} FirstDifference(p: string, a: string, b: string)
    ensures Before(p + a, p + b) <==> Before(a, b)
    ensures a != "" && b != "" && a[0] < b[0] ==> Before(p + a, p + b) && !Before(p + b, p + a)
    decreases |p|
  {
    if p == "" {
      assert p + a == a && p + b == b;
    } else {
      assert (p + a)[1..] == p[1..] + a && (p + b)[1..] == p[1..] + b;
      FirstDifference(p[1..], a, b);
      FirstDifference(p[1..], b, a);
    }
  }

  lemma {:induction false} BeforeIsTotal(a: string, b: string)
    ensures !(Before(a, b) && Before(b, a))
    ensures a != b ==> Before(a, b) || Before(b, a)
    decreases |a|
  {
    if a != "" && b != "" {
      BeforeIsTotal(a[1..], b[1..]);
      if a[0] == b[0] && a[1..] == b[1..] {
        assert a == [a[0]] + a[1..] && b == [b[0]] + b[1..];
      }
    }
  }

  /**
   What the page refuses: a name it does not know, a filter given twice, a date without a custom range,
   a custom range without both dates or with them the wrong way round, and an id that is no uuid.
   */
  lemma RefusedAddresses(f: Formats, list: seq<Entry>)
    ensures (exists e | e in list :: e.0 != "view" && e.0 !in FILTER_KEYS) ==> ParseFilters(f, list).None?
    ensures (exists i, j :: 0 <= i < j < |list| && list[i].0 == list[j].0 && list[i].0 in FILTER_KEYS) ==>
              ParseFilters(f, list).None?
    ensures Read(list).range != "custom" && (Read(list).from.Some? || Read(list).until.Some?) ==> ParseFilters(f, list).None?
    ensures Read(list).range == "custom" && (Read(list).from.None? || Read(list).until.None?) ==> ParseFilters(f, list).None?
    ensures Read(list).from.Some? && Read(list).until.Some? && Before(Read(list).until.value, Read(list).from.value) ==>
              ParseFilters(f, list).None?
    ensures forall id | id in {Read(list).strategy, Read(list).setup, Read(list).version} && id.Some? && !f.isUuid(id.value) ::
              ParseFilters(f, list).None?
    ensures Read(list).account.Some? && Read(list).account.value != "all" && !f.isUuid(Read(list).account.value) ==>
              ParseFilters(f, list).None?
  {
    hide Read, FILTER_KEYS, Before;
  }

  // ---------------------------------------------------------------- coherence

  /** Whatever of strategy, setup and version is set is known, and they agree on the strategy. */
  ghost predicate Coherent(o: Options, s: Selection) {
    && (s.setup.Some? ==> StrategyOf(o.setups, s.setup).Some?)
    && (s.version.Some? ==> StrategyOf(o.versions, s.version).Some?)
    && (s.strategy.Some? && s.setup.Some? ==> StrategyOf(o.setups, s.setup) == s.strategy)
    && (s.strategy.Some? && s.version.Some? ==> StrategyOf(o.versions, s.version) == s.strategy)
    && (s.setup.Some? && s.version.Some? ==> StrategyOf(o.setups, s.setup) == StrategyOf(o.versions, s.version))
  }

  /** Ids are unique and well-formed, as the queries behind the options return them. */
  ghost predicate ValidOptions(f: Formats, o: Options) {
    && DistinctIds(o.setups) && DistinctIds(o.versions)
    && (forall a | a in o.accounts :: f.isUuid(a)) && (forall a | a in o.strategies :: f.isUuid(a))
    && (forall c | c in o.setups :: f.isUuid(c.id)) && (forall c | c in o.versions :: f.isUuid(c.id))
  }

  lemma PickedChoice(choices: seq<Choice>, strategy: Option<string>, id: string)
    requires DistinctIds(choices) && exists c | c in Narrowed(choices, strategy) :: c.id == id
    ensures StrategyOf(choices, Some(id)).Some?
    ensures strategy.Some? ==> StrategyOf(choices, Some(id)) == strategy
    ensures exists c | c in choices :: c.id == id
  {
    var c :| c in Narrowed(choices, strategy) && c.id == id;
    NarrowedMembers(choices, strategy);
    FindMember(choices, c);
  }

  lemma ChangeIsCoherent(f: Formats, o: Options, s: Selection, change: Change)
    requires ValidOptions(f, o) && Coherent(o, s) && Offered(o, s, change)
    ensures Coherent(o, Updated(s, change))
  {
    hide Narrowed, StrategyOf, DistinctIds;
    NoChoice(o.setups);
    NoChoice(o.versions);
    match change
    case Setup(Some(id)) => PickedChoice(o.setups, s.strategy, id);
    case Version(Some(id)) => PickedChoice(o.versions, DependentStrategy(o, s), id);
    case _ =>
  }

  lemma {:induction false} NoChoice(choices: seq<Choice>)
    ensures StrategyOf(choices, None) == None
  {
    if choices != [] {
      NoChoice(choices[1..]);
    }
  }

  lemma ChangeIsAcceptable(f: Formats, o: Options, s: Selection, change: Change)
    requires ValidOptions(f, o) && Acceptable(f, s) && Offered(o, s, change)
    ensures Acceptable(f, Updated(s, change))
  {
    hide Narrowed, StrategyOf, DistinctIds;
    match change
    case Setup(Some(id)) => PickedChoice(o.setups, s.strategy, id);
    case Version(Some(id)) => PickedChoice(o.versions, DependentStrategy(o, s), id);
    case _ =>
  }

  /** A preset is acceptable only without the custom dates, which is why choosing one clears them. */
  lemma PresetNeedsNoDates(f: Formats, s: Selection, preset: string)
    requires Acceptable(f, s) && preset in {"30d", "90d", "all"}
    ensures Acceptable(f, s.(range := preset)) <==> s.range != "custom"
  {
    assert preset != "custom" by {
      assert |"custom"| == 6 && |preset| <= 3;
    }
    assert preset in PRESETS;
  }

  /** A user's run: every change is one the page offers for the address it is at. */
  function RunUrl(f: Formats, view: string, url: string, changes: seq<Change>): string
    decreases |changes|
  {
    if changes == [] || SelectionAt(f, url).None? then url
    else RunUrl(f, view, NextUrl(view, SelectionAt(f, url).value, changes[0]), changes[1..])
  }

  predicate RunOffered(f: Formats, o: Options, view: string, url: string, changes: seq<Change>)
    decreases |changes|
  {
    changes != [] && SelectionAt(f, url).Some? ==>
      && Offered(o, SelectionAt(f, url).value, changes[0])
      && RunOffered(f, o, view, NextUrl(view, SelectionAt(f, url).value, changes[0]), changes[1..])
  }

  /**
   From a coherent address every run stays at addresses the page accepts, with a coherent selection;
   a custom range is left exactly when the start had one and no preset was chosen.
   */
  lemma {:induction false} RunsAreCoherent(f: Formats, o: Options, view: string, url: string, changes: seq<Change>)
    requires ValidOptions(f, o) && RunOffered(f, o, view, url, changes)
    requires SelectionAt(f, url).Some? && Coherent(o, SelectionAt(f, url).value)
    ensures var end := SelectionAt(f, RunUrl(f, view, url, changes));
            && end.Some? && Coherent(o, end.value)
            && (end.value.range == "custom" <==>
                  SelectionAt(f, url).value.range == "custom" && forall c | c in changes :: !c.Range?)
            && (end.value.from.Some? <==> end.value.range == "custom")
            && (end.value.until.Some? <==> end.value.range == "custom")
    decreases |changes|
  {
    hide ValidOptions, Coherent, Offered, NextUrl, Parse, QueryOf, Acceptable, Read, EachOnce;
    var s := SelectionAt(f, url).value;
    AcceptedDates(f, s);
    if changes != [] {
      ChangeRoundTrip(f, view, s, changes[0]);
      ChangeIsAcceptable(f, o, s, changes[0]);
      ChangeIsCoherent(f, o, s, changes[0]);
      CustomKept(o, s, changes[0]);
      RunsAreCoherent(f, o, view, NextUrl(view, s, changes[0]), changes[1..]);
      assert forall c :: c in changes <==> c == changes[0] || c in changes[1..];
    }
  }

  lemma AcceptedDates(f: Formats, s: Selection)
    requires Acceptable(f, s)
    ensures (s.from.Some? <==> s.range == "custom") && (s.until.Some? <==> s.range == "custom")
  {
  }

  lemma CustomKept(o: Options, s: Selection, change: Change)
    requires Offered(o, s, change)
    ensures Updated(s, change).range == "custom" <==> s.range == "custom" && !change.Range?
  {
    hide Narrowed;
    assert |"custom"| == 6 && |"30d"| == 3 && |"90d"| == 3 && |"all"| == 3;
  }
}
