/**
 Where a request ends up: the proxy's redirects, the locale prefix rule, and the redirects of the
 layouts and of the login, register and onboarding pages. A path is in the URL parser's normal form;
 a query is kept unescaped beyond what its author escaped, which does not change what it parses to.
 */
module Proxy {
  import opened Wrappers
  import opened Utf8
  import opened UrlQuery

  const LOCALES: set<string> := {"en", "th"}
  const DEFAULT_LOCALE: string := "en"

  /** search is what follows the question mark. */
  datatype Request = Request(path: string, search: string)

  /** sameOrigin is the URL parser's verdict on a path that starts with one slash. */
  datatype Visitor = Visitor(
    cookie: bool,
    session: bool,
    admin: bool,
    onboarded: bool,
    preferred: string,
    sameOrigin: string -> bool)

  predicate StartsWith(s: string, prefix: string) {
    |prefix| <= |s| && s[..|prefix|] == prefix
  }

  /** prefix followed by the end or a slash. */
  predicate UnderPath(path: string, prefix: string) {
    StartsWith(path, prefix) && (|path| == |prefix| || path[|prefix|] == '/')
  }

  predicate AppPath(path: string) {
    UnderPath(path, "/en/app") || UnderPath(path, "/th/app")
  }

  predicate AdminPath(path: string) {
    UnderPath(path, "/admin")
  }

  /** path.split('/')[1], empty where that is undefined. */
  function FirstSegment(path: string): string {
    if path == "" || path[0] != '/' then "" else path[1..][..IndexOf(path[1..], '/')]
  }

  function LocaleFromPathname(path: string): string {
    if FirstSegment(path) in LOCALES then FirstSegment(path) else DEFAULT_LOCALE
  }

  lemma SegmentOfAppPath(path: string, locale: string)
    requires |locale| == 2 && '/' !in locale && UnderPath(path, "/" + locale + "/app")
    ensures FirstSegment(path) == locale
  {
    var prefix := "/" + locale + "/app";
    assert path[..7] == prefix;
    assert path[0] == prefix[0] && path[3] == prefix[3] == '/';
    assert path[1] == prefix[1] == locale[0] && path[2] == prefix[2] == locale[1];
    var rest := path[1..];
    assert rest[0] == locale[0] && rest[1] == locale[1] && rest[2] == '/';
    assert rest[..2] == locale;
  }

  /** Every app path gets its own locale, never the fallback. */
  lemma AppPathHasItsLocale(path: string)
    requires AppPath(path)
    ensures FirstSegment(path) in LOCALES && LocaleFromPathname(path) == FirstSegment(path)
    ensures UnderPath(path, "/" + LocaleFromPathname(path) + "/app")
  {
    assert "/" + "en" + "/app" == "/en/app" && "/" + "th" + "/app" == "/th/app";
    if UnderPath(path, "/en/app") {
      SegmentOfAppPath(path, "en");
    } else {
      SegmentOfAppPath(path, "th");
    }
  }

  // ------------------------------------------------------------------ routes

  datatype Route = Login | Register | Main | Onboarding | Settings | Public | Dashboard | Missing

  const MAIN_PAGES: set<string> :=
    {"/app", "/app/accounts", "/app/accounts/new", "/app/analytics", "/app/billing", "/app/checkout", "/app/plan",
     "/app/strategies", "/app/trades", "/app/trades/new"}
  const PUBLIC_PAGES: set<string> :=
    {"", "/auth-error", "/demo", "/forgot-password", "/pricing", "/reset-password", "/verify-email",
     "/verify-email/complete"}
  const ADMIN_PAGES: set<string> := {"", "/audit", "/users", "/vat", "/workspaces"}

  /** before, one segment, after. */
  predicate OneSegmentBetween(path: string, before: string, after: string) {
    && StartsWith(path, before) && |before| + |after| < |path| && path[|path| - |after|..] == after
    && '/' !in path[|before|..|path| - |after|]
  }

  function LocalRoute(rest: string): Route {
    if rest == "/login" then Login
    else if rest == "/register" then Register
    else if rest == "/app/onboarding" then Onboarding
    else if rest == "/app/settings" then Settings
    else if rest in MAIN_PAGES || OneSegmentBetween(rest, "/app/accounts/", "/edit") then Main
    else if rest in PUBLIC_PAGES then Public
    else Missing
  }

  predicate Prefixed(path: string) {
    FirstSegment(path) in LOCALES
  }

  function RouteOf(path: string): Route {
    if AdminPath(path) then
      var rest := path[6..];
      if rest in ADMIN_PAGES || OneSegmentBetween(rest, "/users/", "") || OneSegmentBetween(rest, "/workspaces/", "")
      then Dashboard else Missing
    else if Prefixed(path) && |path| >= 3 then LocalRoute(path[3..])
    else Missing
  }

  // ------------------------------------------------------------------- steps

  function Written(r: Request): string {
    if r.search == "" then r.path else r.path + "?" + r.search
  }

  function Upto(s: string, c: char): string {
    s[..IndexOf(s, c)]
  }

  function Beyond(s: string, c: char): string {
    if IndexOf(s, c) == |s| then "" else s[IndexOf(s, c) + 1..]
  }

  /** The request a redirect to a relative reference makes; the fragment is not sent. */
  function Target(href: string): Request {
    Request(Upto(Upto(href, '#'), '?'), Beyond(Upto(href, '#'), '?'))
  }

  /** next-intl puts the locale before whatever it is given. */
  function Localised(locale: string, href: string): string {
    "/" + locale + if href == "/" || StartsWith(href, "/?") then href[1..] else href
  }

  function LoginFor(locale: string, r: Request): Request {
    Request("/" + locale + "/login", Serialize([("callbackUrl", Written(r))]))
  }

  datatype Decision = Next | Redirect(to: Request)

  /** The config matcher. */
  predicate Matched(path: string) {
    StartsWith(path, "/") && '.' !in path
    && !StartsWith(path, "/api") && !StartsWith(path, "/_next") && !StartsWith(path, "/_vercel")
  }

  function ProxyDecision(v: Visitor, r: Request): Decision {
    if AdminPath(r.path) then
      if !v.cookie then Redirect(LoginFor(DEFAULT_LOCALE, r)) else Next
    else if !Prefixed(r.path) then
      Redirect(Request(Localised(v.preferred, r.path), r.search))
    else if AppPath(r.path) && !v.cookie then Redirect(LoginFor(LocaleFromPathname(r.path), r))
    else Next
  }

  method ProxyRequest(v: Visitor, r: Request) returns (d: Decision)
    ensures d == ProxyDecision(v, r)
  {
    hide Serialize;
    if AdminPath(r.path) {
      if !v.cookie {
        var loginUrl := "/" + DEFAULT_LOCALE + "/login";
        var searchParams := new URLSearchParams([]);
        searchParams.Put("callbackUrl", Written(r));
        var query := searchParams.ToString();
        return Redirect(Request(loginUrl, query));
      }
      return Next;
    }
    if !Prefixed(r.path) {
      return Redirect(Request(Localised(v.preferred, r.path), r.search));
    }
    if AppPath(r.path) && !v.cookie {
      var locale := LocaleFromPathname(r.path);
      var searchParams := new URLSearchParams([]);
      searchParams.Put("callbackUrl", Written(r));
      var query := searchParams.ToString();
      return Redirect(Request("/" + locale + "/login", query));
    }
    return Next;
  }

  function SafeCallbackPath(v: Visitor, candidate: Option<string>): Option<string> {
    match candidate
    case None => None
    case Some(c) =>
      if !StartsWith(c, "/") || StartsWith(c, "//") || !v.sameOrigin(c) then None else Some(c)
  }

  function Destination(v: Visitor, search: string): string {
    SafeCallbackPath(v, Get(Parse(search), "callbackUrl")).GetOr("/app")
  }

  datatype Outcome = Rendered(route: Route) | NotFound | Moved(to: Request)

  /** Layouts, outermost first, then the page. */
  function PageOutcome(v: Visitor, r: Request): Outcome {
    var locale := LocaleFromPathname(r.path);
    match RouteOf(r.path)
    case Missing => NotFound
    case Public => Rendered(Public)
    case Login =>
      if !v.session then Rendered(Login)
      else if StartsWith(Destination(v, r.search), "/admin") then Moved(Target(Destination(v, r.search)))
      else Moved(Target(Localised(locale, Destination(v, r.search))))
    case Register =>
      if !v.session then Rendered(Register) else Moved(Request(Localised(locale, "/app"), ""))
    case Dashboard =>
      if !v.session then Moved(Request("/en/login", "callbackUrl=/admin"))
      else if !v.admin then NotFound else Rendered(Dashboard)
    case Main =>
      if !v.session then Moved(Request(Localised(locale, "/login"), ""))
      else if !v.onboarded then Moved(Request(Localised(locale, "/app/onboarding"), ""))
      else Rendered(Main)
    case Onboarding =>
      if !v.session then Moved(Request(Localised(locale, "/login"), ""))
      else if v.onboarded then Moved(Request(Localised(locale, "/app"), ""))
      else Rendered(Onboarding)
    case Settings =>
      if !v.session then Moved(Request(Localised(locale, "/login"), "")) else Rendered(Settings)
  }

  function Step(v: Visitor, r: Request): Outcome {
    if Matched(r.path) && ProxyDecision(v, r).Redirect? then Moved(ProxyDecision(v, r).to) else PageOutcome(v, r)
  }

  // ------------------------------------------------- decoding never lengthens

  /** A decoded character takes the bytes of as many source characters, or of one whole character. */
  lemma {:induction false} Advance(s: string, k: nat) returns (t: string)
    requires k <= |Unescape(s)| && forall i | 0 <= i < k :: Continuation(Unescape(s)[i])
    ensures Unescape(t) == Unescape(s)[k..] && |t| + k <= |s|
    decreases k
  {
    if k == 0 {
      return s;
    }
    var first := Unescape(s);
    assert Continuation(first[0]);
    LeadsDiffer(s);
    assert first[1..] == Unescape(s[3..]);
    assert forall i | 0 <= i < k - 1 :: Unescape(s[3..])[i] == first[i + 1];
    t := Advance(s[3..], k - 1);
    assert first[k..] == first[1..][k - 1..];
  }

  /** Only a percent escape can start with a continuation byte. */
  lemma LeadsDiffer(s: string)
    requires s != "" && Unescape(s) != [] && Continuation(Unescape(s)[0])
    ensures |s| >= 3 && Unescape(s) == [Unescape(s)[0]] + Unescape(s[3..])
  {
    LeadByte(s[0]);
  }

  lemma LeadByte(c: char)
    ensures !Continuation(EncodeChar(c)[0])
  {
  }

  lemma {:induction false} DecodingShrinks(s: string)
    ensures |DecodeText(s)| <= |s|
    decreases |s|
  {
    if s != "" {
      var bytes := Unescape(s);
      UnescapeHead(s);
      var (c, k) := DecodeChar(bytes);
      if s[0] != '+' && !(s[0] == '%' && |s| >= 3 && HexDigit(s[1]) && HexDigit(s[2])) {
        CharRoundTrip(s[0], Unescape(s[1..]));
        assert bytes[k..] == Unescape(s[1..]);
        DecodingShrinks(s[1..]);
      } else {
        var rest := if s[0] == '+' then s[1..] else s[3..];
        TakenAreContinuations(bytes);
        assert bytes[1..] == Unescape(rest);
        assert forall i | 0 <= i < k - 1 :: Unescape(rest)[i] == bytes[i + 1];
        var t := Advance(rest, k - 1);
        assert bytes[k..] == bytes[1..][k - 1..];
        DecodingShrinks(t);
      }
    }
  }

  lemma UnescapeHead(s: string)
    requires s != ""
    ensures Unescape(s) != []
    ensures (s[0] == '+' ==> |Unescape(s)| >= 1 && Unescape(s)[1..] == Unescape(s[1..]))
    ensures s[0] == '%' && |s| >= 3 && HexDigit(s[1]) && HexDigit(s[2]) ==> Unescape(s)[1..] == Unescape(s[3..])
  {
    hide EncodeChar, HexValue;
  }

  lemma TakenAreContinuations(bytes: seq<Byte>)
    requires bytes != []
    ensures forall i | 1 <= i < DecodeChar(bytes).1 :: Continuation(bytes[i])
  {
  }

  lemma {:induction false} EntriesFit(query: string)
    ensures forall e | e in Parse(query) :: |e.0| + |e.1| <= |query|
    decreases |query|
  {
    if query != "" {
      hide DecodeText;
      var i := IndexOf(query, '&');
      EntryFits(query[..i]);
      if i < |query| {
        EntriesFit(query[i + 1..]);
      }
    }
  }

  lemma EntryFits(s: string)
    ensures |ParseEntry(s).0| + |ParseEntry(s).1| <= |s|
  {
    hide DecodeText;
    var i := IndexOf(s, '=');
    DecodingShrinks(s[..i]);
    if i < |s| {
      DecodingShrinks(s[i + 1..]);
    }
  }

  lemma {:induction false} GetIsMember(list: seq<Entry>, name: string)
    ensures Get(list, name).Some? ==> (name, Get(list, name).value) in list
  {
    if list != [] && list[0].0 != name {
      GetIsMember(list[1..], name);
    }
  }

  /** A callback is shorter than the query it came in. */
  lemma CallbackFits(search: string)
    ensures Get(Parse(search), "callbackUrl").Some? ==> |Get(Parse(search), "callbackUrl").value| + 11 <= |search|
  {
    EntriesFit(search);
    GetIsMember(Parse(search), "callbackUrl");
    assert |"callbackUrl"| == 11;
  }

  // ------------------------------------------------------------- termination

  /** A session is read from its cookie. */
  predicate Consistent(v: Visitor) {
    v.preferred in LOCALES && (v.session ==> v.cookie)
  }

  function Rank(v: Visitor, path: string): nat {
    if !AdminPath(path) && !Prefixed(path) then 3
    else if v.session then
      match RouteOf(path)
      case Login => 2
      case Register => 2
      case Main => if v.onboarded then 0 else 1
      case Onboarding => if v.onboarded then 1 else 0
      case _ => 0
    else if AdminPath(path) || AppPath(path) then 2
    else 0
  }

  /** A signed-in visitor's redirects use up nested callbacks; anyone else's only go down in rank. */
  function Measure(v: Visitor, r: Request): nat {
    (if v.session then 4 * |r.search| else 0) + Rank(v, r.path)
  }

  lemma LocaleNames()
    ensures forall l | l in LOCALES :: |l| == 2 && '/' !in l && l != ""
    ensures DEFAULT_LOCALE in LOCALES
  {
  }

  lemma NotAdmin(path: string)
    requires |path| >= 2 && path[1] != 'a'
    ensures !AdminPath(path)
  {
    assert "/admin"[1] == 'a';
    if |path| >= 6 {
      assert path[..6][1] == path[1];
    }
  }

  lemma SegmentAfterLocale(locale: string, rest: string)
    requires locale in LOCALES && (rest == "" || rest[0] in {'/', '?'})
    ensures rest == "" || rest[0] == '/' ==>
              && FirstSegment("/" + locale + rest) == locale && !AdminPath("/" + locale + rest)
              && ("/" + locale + rest)[3..] == rest && LocaleFromPathname("/" + locale + rest) == locale
  {
    var path := "/" + locale + rest;
    LocaleNames();
    assert path[1..] == locale + rest && path[1] == locale[0];
    NotAdmin(path);
    if rest == "" || rest[0] == '/' {
      assert (locale + rest)[..2] == locale;
    }
  }

  lemma FixedRoutes(locale: string)
    requires locale in LOCALES
    ensures Localised(locale, "/app") == "/" + locale + "/app" && Localised(locale, "/login") == "/" + locale + "/login"
    ensures Localised(locale, "/app/onboarding") == "/" + locale + "/app/onboarding"
    ensures RouteOf("/" + locale + "/app") == Main && RouteOf("/" + locale + "/login") == Login
    ensures RouteOf("/" + locale + "/app/onboarding") == Onboarding
    ensures Prefixed("/" + locale + "/app") && Prefixed("/" + locale + "/login")
    ensures Prefixed("/" + locale + "/app/onboarding")
    ensures !AdminPath("/" + locale + "/login") && !AppPath("/" + locale + "/login")
  {
    SegmentAfterLocale(locale, "/app");
    SegmentAfterLocale(locale, "/login");
    SegmentAfterLocale(locale, "/app/onboarding");
    assert "/app"[1] != '?' && "/login"[1] != '?' && "/app/onboarding"[1] != '?';
    assert |"/login"| == 6 && |"/register"| == 9 && |"/app/onboarding"| == 15 && |"/app/settings"| == 13 && |"/app"| == 4;
    assert ("/" + locale + "/login")[3..] == "/login";
    assert ("/" + locale + "/login")[4] == 'l' && "/en/app"[4] == 'a' && "/th/app"[4] == 'a';
  }

  lemma {:induction false} IndexAfter(a: string, b: string, c: char)
    requires c !in a
    ensures IndexOf(a + b, c) == |a| + IndexOf(b, c)
  {
    if a == "" {
      assert a + b == b;
    } else {
      assert (a + b)[1..] == a[1..] + b;
      IndexAfter(a[1..], b, c);
    }
  }

  lemma CutAfter(a: string, b: string, c: char)
    requires c !in a
    ensures Upto(a + b, c) == a + Upto(b, c) && Beyond(a + b, c) == Beyond(b, c)
  {
    IndexAfter(a, b, c);
    var i := IndexOf(b, c);
    hide IndexOf;
    assert (a + b)[..|a| + i] == a + b[..i];
    if i < |b| {
      assert (a + b)[|a| + i + 1..] == b[i + 1..];
    }
  }

  lemma CutAbsent(s: string, c: char)
    requires c !in s
    ensures Upto(s, c) == s && Beyond(s, c) == ""
  {
    assert IndexOf(s, c) == |s|;
  }

  lemma TargetAfter(prefix: string, h: string)
    requires '?' !in prefix && '#' !in prefix
    ensures Target(prefix + h) == Request(prefix + Target(h).path, Target(h).search)
  {
    hide Upto, Beyond;
    CutAfter(prefix, h, '#');
    CutAfter(prefix, Upto(h, '#'), '?');
  }

  lemma TargetFits(href: string)
    ensures |Target(href).search| <= |href| && (href != "" ==> |Target(href).search| < |href|)
    ensures |Target(href).path| <= |href| && href[..|Target(href).path|] == Target(href).path
    ensures '?' !in href && '#' !in href ==> Target(href) == Request(href, "")
  {
  }

  /** A local destination leads to a prefixed path, with less query than the destination is long. */
  lemma LocalisedFits(locale: string, href: string)
    requires locale in LOCALES && href != "" && href[0] == '/'
    ensures |Target(Localised(locale, href)).search| < |href|
    ensures Prefixed(Target(Localised(locale, href)).path) && !AdminPath(Target(Localised(locale, href)).path)
  {
    var h := if href == "/" || StartsWith(href, "/?") then href[1..] else href;
    LocaleChars(locale);
    TargetAfter("/" + locale, h);
    TargetFits(h);
    assert Localised(locale, href) == "/" + locale + h;
    var rest := Target(h).path;
    assert rest != "" ==> rest[0] == h[0];
    RestStartsWithSlash(href, h);
    SegmentAfterLocale(locale, rest);
  }

  lemma LocaleChars(locale: string)
    requires locale in LOCALES
    ensures '?' !in "/" + locale && '#' !in "/" + locale
  {
  }

  lemma RestStartsWithSlash(href: string, h: string)
    requires href != "" && href[0] == '/'
    requires h == if href == "/" || StartsWith(href, "/?") then href[1..] else href
    ensures Target(h).path == "" || Target(h).path[0] == '/'
  {
    if StartsWith(href, "/?") {
      assert href[1] == href[..2][1] == '?';
      assert h[0] == '?';
    }
    TargetFits(h);
  }

  lemma LoginMoves(v: Visitor, r: Request)
    requires v.session && RouteOf(r.path) == Login
    ensures PageOutcome(v, r) == Moved(
              if StartsWith(Destination(v, r.search), "/admin") then Target(Destination(v, r.search))
              else Target(Localised(LocaleFromPathname(r.path), Destination(v, r.search))))
  {
    hide RouteOf, Destination, Target, Localised, LocaleFromPathname, StartsWith;
  }

  lemma RankBound(v: Visitor, path: string)
    ensures Rank(v, path) <= 3
  {
    hide RouteOf, AdminPath, Prefixed, AppPath;
  }

  lemma NoCallback(v: Visitor, r: Request)
    requires Consistent(v) && SafeCallbackPath(v, Get(Parse(r.search), "callbackUrl")).None?
    ensures Destination(v, r.search) == "/app" && !StartsWith("/app", "/admin")
    ensures var to := Target(Localised(LocaleFromPathname(r.path), "/app"));
            to.search == "" && Rank(v, to.path) <= if v.session then 1 else 2
  {
    hide Parse, Target, Localised, SafeCallbackPath, RouteOf, AdminPath, Prefixed;
    var locale := LocaleFromPathname(r.path);
    LocaleNames();
    FixedRoutes(locale);
    AppIsLocal();
    PlainTarget("/" + locale + "/app");
  }

  lemma SignedInLogin(v: Visitor, r: Request)
    requires Consistent(v) && v.session && RouteOf(r.path) == Login
    ensures PageOutcome(v, r).Moved? && Measure(v, PageOutcome(v, r).to) < Measure(v, r)
  {
    hide Parse, Target, Localised, AdminPath, StartsWith, Rank, RouteOf, Destination, SafeCallbackPath, PageOutcome;
    hide LOCALES, FirstSegment;
    LoginMoves(v, r);
    var d, to := Destination(v, r.search), PageOutcome(v, r).to;
    LocaleNames();
    DestinationIs(v, r.search);
    LoginRank(v, r.path);
    RankBound(v, to.path);
    if SafeCallbackPath(v, Get(Parse(r.search), "callbackUrl")).None? {
      NoCallback(v, r);
    } else {
      TargetFits(d);
      LocalisedFits(LocaleFromPathname(r.path), d);
    }
  }

  lemma PlainTarget(path: string)
    requires |path| == 7 && path[0] == '/' && path[3..] == "/app" && path[1..3] in LOCALES
    ensures Target(path) == Request(path, "")
  {
    LocaleChars(path[1..3]);
    assert path == "/" + path[1..3] + "/app";
    TargetFits(path);
  }

  lemma AppIsLocal()
    ensures !StartsWith("/app", "/admin")
  {
    assert |"/app"| < |"/admin"|;
  }

  lemma DestinationIs(v: Visitor, search: string)
    ensures var d := Destination(v, search); d != "" && d[0] == '/'
    ensures SafeCallbackPath(v, Get(Parse(search), "callbackUrl")).Some? ==>
              |Destination(v, search)| + 11 <= |search|
  {
    hide Parse;
    CallbackFits(search);
  }

  lemma LoginRank(v: Visitor, path: string)
    requires RouteOf(path) == Login && v.session
    ensures Rank(v, path) == 2
  {
  }

  /** What the URL parser makes of any request line. */
  predicate WellFormed(r: Request) {
    r.path != "" && r.path[0] == '/' && '?' !in r.path && '#' !in r.path
  }

  lemma LoginPage(v: Visitor, locale: string)
    requires locale in LOCALES && !v.session
    ensures Rank(v, "/" + locale + "/login") == 0
  {
    FixedRoutes(locale);
    hide RouteOf;
  }

  lemma AppPage(v: Visitor, locale: string)
    requires locale in LOCALES && v.session
    ensures Rank(v, "/" + locale + "/app") == if v.onboarded then 0 else 1
    ensures Rank(v, "/" + locale + "/app/onboarding") == if v.onboarded then 1 else 0
  {
    FixedRoutes(locale);
    SegmentAfterLocale(locale, "/app");
    SegmentAfterLocale(locale, "/app/onboarding");
    hide RouteOf;
  }

  lemma FixedPaths(locale: string, search: string)
    requires locale in LOCALES
    ensures WellFormed(Request("/" + locale + "/login", search)) && WellFormed(Request("/" + locale + "/app", search))
    ensures WellFormed(Request("/" + locale + "/app/onboarding", search))
  {
    LocaleChars(locale);
  }

  lemma LocaleIsKnown(path: string)
    ensures LocaleFromPathname(path) in LOCALES
  {
    LocaleNames();
  }

  lemma PrefixedSplits(path: string)
    requires Prefixed(path)
    ensures |path| >= 3 && path[1..3] == FirstSegment(path) && path == "/" + path[1..3] + path[3..]
    ensures path[3..] == "" || path[3] == '/'
  {
    LocaleNames();
    assert path[1..3] == path[1..][..2];
  }

  /** The pages behind the app layout are exactly where the proxy looks for a cookie. */
  lemma AppRoutes(path: string)
    requires RouteOf(path) in {Main, Onboarding, Settings}
    ensures AppPath(path) && Prefixed(path) && !AdminPath(path)
  {
    PrefixedSplits(path);
    var rest := path[3..];
    AppRests(rest);
    UnderLocale(path);
  }

  lemma AppRests(rest: string)
    requires LocalRoute(rest) in {Main, Onboarding, Settings}
    ensures UnderPath(rest, "/app")
  {
    EditIsUnderApp(rest);
    hide OneSegmentBetween;
  }

  lemma EditIsUnderApp(rest: string)
    ensures OneSegmentBetween(rest, "/app/accounts/", "/edit") ==> UnderPath(rest, "/app")
  {
    if |rest| >= 14 {
      assert rest[..4] == rest[..14][..4] && rest[4] == rest[..14][4];
    }
  }

  lemma UnderLocale(path: string)
    requires Prefixed(path) && |path| >= 3 && UnderPath(path[3..], "/app")
    ensures AppPath(path)
  {
    PrefixedSplits(path);
    assert path[..7] == path[..3] + path[3..][..4];
    assert path[..3] == "/" + path[1..3];
    assert "/en" + "/app" == "/en/app" && "/th" + "/app" == "/th/app";
  }

  lemma PrefixesOnce(v: Visitor, r: Request)
    requires Consistent(v) && WellFormed(r) && !Prefixed(r.path) && !AdminPath(r.path)
    ensures var to := Request(Localised(v.preferred, r.path), r.search);
            WellFormed(to) && Prefixed(to.path) && Measure(v, to) < Measure(v, r)
  {
    var rest := if r.path == "/" then "" else r.path;
    assert Localised(v.preferred, r.path) == "/" + v.preferred + rest;
    LocaleChars(v.preferred);
    SegmentAfterLocale(v.preferred, rest);
    hide RouteOf;
  }

  lemma ProxyStep(v: Visitor, r: Request)
    requires Consistent(v) && WellFormed(r) && ProxyDecision(v, r).Redirect?
    ensures WellFormed(ProxyDecision(v, r).to) && Measure(v, ProxyDecision(v, r).to) < Measure(v, r)
  {
    hide RouteOf, Serialize, StartsWith, UnderPath, LOCALES, DEFAULT_LOCALE, Written;
    LocaleNames();
    LocaleIsKnown(r.path);
    if !AdminPath(r.path) && !Prefixed(r.path) {
      PrefixesOnce(v, r);
    } else {
      var locale := if AdminPath(r.path) then DEFAULT_LOCALE else LocaleFromPathname(r.path);
      LoginPage(v, locale);
      FixedPaths(locale, Serialize([("callbackUrl", Written(r))]));
    }
  }

  lemma PageStep(v: Visitor, r: Request)
    requires Consistent(v) && WellFormed(r) && PageOutcome(v, r).Moved?
    ensures WellFormed(PageOutcome(v, r).to) && Measure(v, PageOutcome(v, r).to) < Measure(v, r)
  {
    hide PageOutcome, WellFormed, Consistent, Measure, RouteOf;
    if !v.session {
      SignedOutPage(v, r);
    } else if RouteOf(r.path) == Login {
      SignedInLogin(v, r);
      LoginTargetWellFormed(v, r);
    } else {
      SignedInPage(v, r);
    }
  }

  /** Signed in, the other pages only move between the app and its onboarding. */
  lemma SignedInMoves(v: Visitor, r: Request)
    requires v.session && RouteOf(r.path) != Login && PageOutcome(v, r).Moved?
    ensures RouteOf(r.path) in {Register, Main, Onboarding}
    ensures PageOutcome(v, r).to
         == Request(Localised(LocaleFromPathname(r.path), if RouteOf(r.path) == Main then "/app/onboarding" else "/app"), "")
    ensures RouteOf(r.path) == Main ==> !v.onboarded
    ensures RouteOf(r.path) == Onboarding ==> v.onboarded
  {
    hide RouteOf, Localised, LocaleFromPathname, Parse;
  }

  lemma SignedInTarget(v: Visitor, locale: string, page: string)
    requires locale in LOCALES && v.session && page in {"/app", "/app/onboarding"}
    ensures var to := Request(Localised(locale, page), "");
            WellFormed(to) && Measure(v, to) == if (page == "/app") == v.onboarded then 0 else 1
  {
    hide RouteOf, WellFormed, Localised, Rank, LOCALES;
    FixedRoutes(locale);
    AppPage(v, locale);
    FixedPaths(locale, "");
    assert |"/app"| == 4 && |"/app/onboarding"| == 15;
  }

  lemma SignedInPage(v: Visitor, r: Request)
    requires v.session && RouteOf(r.path) != Login && PageOutcome(v, r).Moved?
    ensures WellFormed(PageOutcome(v, r).to) && Measure(v, PageOutcome(v, r).to) < Measure(v, r)
  {
    hide PageOutcome, RouteOf, Localised, LocaleFromPathname, WellFormed, LOCALES, Rank;
    SignedInMoves(v, r);
    RegisterRank(v, r.path);
    LocaleIsKnown(r.path);
    assert |"/app"| == 4 && |"/app/onboarding"| == 15;
    SignedInTarget(v, LocaleFromPathname(r.path), if RouteOf(r.path) == Main then "/app/onboarding" else "/app");
  }

  lemma RegisterRank(v: Visitor, path: string)
    requires v.session
    ensures RouteOf(path) == Register ==> Rank(v, path) == 2
    ensures RouteOf(path) == Main ==> Rank(v, path) == if v.onboarded then 0 else 1
    ensures RouteOf(path) == Onboarding ==> Rank(v, path) == if v.onboarded then 1 else 0
  {
    hide LocalRoute;
  }

  lemma SignedOutMoves(v: Visitor, r: Request)
    requires !v.session && PageOutcome(v, r).Moved?
    ensures RouteOf(r.path) in {Dashboard, Main, Onboarding, Settings}
    ensures PageOutcome(v, r).to
         == if RouteOf(r.path) == Dashboard then Request("/en/login", "callbackUrl=/admin")
            else Request(Localised(LocaleFromPathname(r.path), "/login"), "")
  {
    hide RouteOf, Localised, LocaleFromPathname, Parse;
  }

  lemma SignedOutRank(v: Visitor, path: string)
    requires !v.session && RouteOf(path) in {Dashboard, Main, Onboarding, Settings}
    ensures Rank(v, path) == 2
  {
    hide RouteOf, AdminPath, Prefixed, AppPath;
    if RouteOf(path) == Dashboard {
      DashboardIsAdmin(path);
    } else {
      AppRoutes(path);
    }
  }

  lemma DashboardIsAdmin(path: string)
    requires RouteOf(path) == Dashboard
    ensures AdminPath(path)
  {
  }

  lemma SignedOutTarget(v: Visitor, locale: string, search: string)
    requires locale in LOCALES && !v.session
    ensures var to := Request("/" + locale + "/login", search); WellFormed(to) && Measure(v, to) == 0
    ensures Localised(locale, "/login") == "/" + locale + "/login"
  {
    hide RouteOf, WellFormed, Localised, Rank, LOCALES;
    FixedRoutes(locale);
    LoginPage(v, locale);
    FixedPaths(locale, search);
  }

  lemma EnglishLogin()
    ensures "/" + DEFAULT_LOCALE + "/login" == "/en/login" && DEFAULT_LOCALE in LOCALES
  {
  }

  lemma SignedOutPage(v: Visitor, r: Request)
    requires !v.session && PageOutcome(v, r).Moved?
    ensures WellFormed(PageOutcome(v, r).to) && Measure(v, PageOutcome(v, r).to) < Measure(v, r)
  {
    hide PageOutcome, RouteOf, Localised, LocaleFromPathname, WellFormed, LOCALES, Rank, DEFAULT_LOCALE;
    SignedOutMoves(v, r);
    SignedOutRank(v, r.path);
    LocaleIsKnown(r.path);
    EnglishLogin();
    SignedOutTarget(v, LocaleFromPathname(r.path), "");
    SignedOutTarget(v, DEFAULT_LOCALE, "callbackUrl=/admin");
  }

  lemma LoginTargetWellFormed(v: Visitor, r: Request)
    requires Consistent(v) && v.session && RouteOf(r.path) == Login
    ensures WellFormed(PageOutcome(v, r).to)
  {
    hide Parse, Localised, RouteOf, Destination, PageOutcome, StartsWith, SafeCallbackPath;
    LoginMoves(v, r);
    LocaleIsKnown(r.path);
    DestinationIs(v, r.search);
    TargetWellFormed(Destination(v, r.search));
    LocalisedStarts(LocaleFromPathname(r.path), Destination(v, r.search));
    TargetWellFormed(Localised(LocaleFromPathname(r.path), Destination(v, r.search)));
  }

  lemma LocalisedStarts(locale: string, href: string)
    ensures Localised(locale, href) != "" && Localised(locale, href)[0] == '/'
  {
  }

  lemma TargetWellFormed(href: string)
    requires href != "" && href[0] == '/'
    ensures WellFormed(Target(href))
  {
  }

  lemma StepDecreases(v: Visitor, r: Request)
    requires Consistent(v) && WellFormed(r) && Step(v, r).Moved?
    ensures WellFormed(Step(v, r).to) && Measure(v, Step(v, r).to) < Measure(v, r)
  {
    hide ProxyDecision, PageOutcome, Measure, Consistent, WellFormed, Matched;
    if Matched(r.path) && ProxyDecision(v, r).Redirect? {
      ProxyStep(v, r);
    } else {
      PageStep(v, r);
    }
  }

  // -------------------------------------------------------------- the chain

  /** The redirect chain from a request to what is finally shown; it ends because every redirect decreases. */
  function Follow(v: Visitor, r: Request): (end: Outcome)
    requires Consistent(v) && WellFormed(r)
    ensures !end.Moved?
    decreases Measure(v, r)
  {
    if Step(v, r).Moved? then
      StepDecreases(v, r);
      Follow(v, Step(v, r).to)
    else Step(v, r)
  }

  /** Who sees what, at the end of any chain from any request. */
  predicate Permitted(v: Visitor, end: Outcome) {
    match end
    case Rendered(Login) => !v.session
    case Rendered(Register) => !v.session
    case Rendered(Main) => v.session && v.onboarded
    case Rendered(Onboarding) => v.session && !v.onboarded
    case Rendered(Settings) => v.session
    case Rendered(Dashboard) => v.session && v.admin
    case _ => true
  }

  lemma StepIsPermitted(v: Visitor, r: Request)
    requires !Step(v, r).Moved?
    ensures Permitted(v, Step(v, r))
  {
    hide ProxyDecision, RouteOf, Parse, Target, Localised, Matched;
  }

  /** Protected pages are rendered only for the visitors they are for, whatever the starting path and query. */
  lemma {:induction false} ChainIsPermitted(v: Visitor, r: Request)
    requires Consistent(v) && WellFormed(r)
    ensures Permitted(v, Follow(v, r))
    decreases Measure(v, r)
  {
    hide Step, Measure, WellFormed, Consistent, Permitted;
    if Step(v, r).Moved? {
      StepDecreases(v, r);
      ChainIsPermitted(v, Step(v, r).to);
    } else {
      StepIsPermitted(v, r);
    }
  }

  /** How many redirects a chain has. */
  function Hops(v: Visitor, r: Request): nat
    requires Consistent(v) && WellFormed(r)
    decreases Measure(v, r)
  {
    if Step(v, r).Moved? then
      StepDecreases(v, r);
      1 + Hops(v, Step(v, r).to)
    else 0
  }

  lemma {:induction false} HopsBounded(v: Visitor, r: Request)
    requires Consistent(v) && WellFormed(r)
    ensures Hops(v, r) <= Measure(v, r)
    ensures !v.session ==> Hops(v, r) <= 3
    decreases Measure(v, r)
  {
    RankBound(v, r.path);
    hide Step, Rank, WellFormed, Consistent;
    if Step(v, r).Moved? {
      StepDecreases(v, r);
      HopsBounded(v, Step(v, r).to);
    }
  }

  // ---------------------------------------------------- where it would loop

  /** The request after n redirects, if there are that many. */
  function After(v: Visitor, r: Request, n: nat): Outcome {
    if n == 0 then Moved(r)
    else match After(v, r, n - 1) { case Moved(to) => Step(v, to) case end => end }
  }

  lemma CallbackOfLogin(locale: string, r: Request)
    ensures Get(Parse(LoginFor(locale, r).search), "callbackUrl") == Some(Written(r))
  {
    QueryRoundTrip([("callbackUrl", Written(r))]);
    hide Parse, Serialize;
  }

  lemma TargetOfWritten(r: Request)
    requires WellFormed(r) && '#' !in r.search
    ensures Target(Written(r)) == r
  {
    hide Upto, Beyond;
    CutAbsent(Written(r), '#');
    if r.search == "" {
      CutAbsent(r.path, '?');
    } else {
      assert "?" + r.search == ['?'] + r.search;
      assert Written(r) == r.path + ("?" + r.search);
      CutAfter(r.path, "?" + r.search, '?');
      CutFirst('?', r.search);
    }
  }

  lemma CutFirst(c: char, rest: string)
    ensures Upto([c] + rest, c) == "" && Beyond([c] + rest, c) == rest
  {
  }

  /** With a cookie the login page is always reached. */
  lemma LoginIsServed(v: Visitor, locale: string, search: string)
    requires locale in LOCALES && v.cookie
    ensures var r := Request("/" + locale + "/login", search);
            Step(v, r) == PageOutcome(v, r) && RouteOf(r.path) == Login && LocaleFromPathname(r.path) == locale
  {
    FixedRoutes(locale);
    SegmentAfterLocale(locale, "/login");
    hide RouteOf, PageOutcome, Matched;
  }

  /** Signed in, the login address that an admin path was sent to leads back to that path and query. */
  lemma AdminCallbackReturns(v: Visitor, r: Request)
    requires v.cookie && v.session && WellFormed(r) && '#' !in r.search && AdminPath(r.path)
    requires v.sameOrigin(Written(r))
    ensures Step(v, LoginFor(DEFAULT_LOCALE, r)) == Moved(r)
  {
    hide RouteOf, Serialize, Parse, Target, Localised, Written, StartsWith, AdminPath, Step, PageOutcome;
    LocaleNames();
    LoginIsServed(v, DEFAULT_LOCALE, LoginFor(DEFAULT_LOCALE, r).search);
    CallbackOfLogin(DEFAULT_LOCALE, r);
    TargetOfWritten(r);
    WrittenStarts(r);
    LoginMoves(v, LoginFor(DEFAULT_LOCALE, r));
  }

  lemma SecondCharacter(path: string)
    ensures AdminPath(path) ==> |path| >= 2 && path[1] == 'a'
    ensures AppPath(path) ==> |path| >= 2 && path[1] in {'e', 't'}
  {
    assert "/admin"[1] == 'a' && "/en/app"[1] == 'e' && "/th/app"[1] == 't';
    if |path| >= 7 {
      assert path[..7][1] == path[1];
    }
    if |path| >= 6 {
      assert path[..6][1] == path[1];
    }
  }

  lemma WrittenStarts(r: Request)
    requires WellFormed(r) && (AdminPath(r.path) || AppPath(r.path))
    ensures StartsWith(Written(r), "/") && !StartsWith(Written(r), "//")
    ensures AdminPath(r.path) ==> StartsWith(Written(r), "/admin")
    ensures AppPath(r.path) ==> !StartsWith(Written(r), "/admin") && !StartsWith(Written(r), "/?") && Written(r) != "/"
  {
    var w := Written(r);
    SecondCharacter(r.path);
    assert w[1] == r.path[1];
    assert "/admin"[1] == 'a' && "//"[1] == '/' && "/?"[1] == '?';
    assert w[..2][1] == w[1] && (|w| >= 6 ==> w[..6][1] == w[1]);
    if AdminPath(r.path) {
      assert w[..6] == r.path[..6];
    }
  }

  /**
   An app path comes back with its locale twice, because the destination already has one and
   next-intl's redirect adds another; no page is there.
   */
  lemma AppCallbackIsDoubled(v: Visitor, r: Request)
    requires Consistent(v) && v.session && WellFormed(r) && '#' !in r.search && AppPath(r.path)
    requires v.sameOrigin(Written(r))
    ensures var locale := LocaleFromPathname(r.path);
            && Step(v, LoginFor(locale, r)) == Moved(Request("/" + locale + r.path, r.search))
            && Step(v, Request("/" + locale + r.path, r.search)) == NotFound
  {
    hide *;
    var locale := LocaleFromPathname(r.path);
    LocaleIsKnown(r.path);
    SignedInHasCookie(v);
    SegmentOfLogin(locale, r);
    LoginIsServed(v, locale, LoginFor(locale, r).search);
    DestinationIsWritten(v, locale, r);
    WrittenStarts(r);
    LocalisedWritten(locale, r);
    LoginMoves(v, LoginFor(locale, r));
    DoubledIsMissing(locale, r.path);
    StaysMissing(v, Request("/" + locale + r.path, r.search));
  }

  /**
   For every request the proxy sends to a login address: a visitor who is signed in there is sent back
   to that request exactly when it was for an admin path.
   */
  lemma CallbackReturnsIff(sent: Visitor, v: Visitor, r: Request, locale: string)
    requires ProxyDecision(sent, r) == Redirect(LoginFor(locale, r))
    requires Consistent(v) && v.session && WellFormed(r) && '#' !in r.search && v.sameOrigin(Written(r))
    ensures Step(v, LoginFor(locale, r)) == Moved(r) <==> AdminPath(r.path)
  {
    hide Step, LoginFor, AdminPath, AppPath, Prefixed, WellFormed, Consistent, Written;
    SignedInHasCookie(v);
    SentFrom(sent, r, locale);
    if AdminPath(r.path) {
      AdminCallbackReturns(v, r);
    } else {
      AppCallbackIsDoubled(v, r);
    }
  }

  /** Adding a locale to a path is no way to its own login address: the callback would not fit in the query. */
  lemma SentFrom(sent: Visitor, r: Request, locale: string)
    requires ProxyDecision(sent, r) == Redirect(LoginFor(locale, r))
    ensures AdminPath(r.path) ==> LoginFor(locale, r) == LoginFor(DEFAULT_LOCALE, r)
    ensures !AdminPath(r.path) ==> AppPath(r.path) && LoginFor(locale, r) == LoginFor(LocaleFromPathname(r.path), r)
  {
    hide AdminPath, AppPath, Prefixed, Serialize, Parse, Localised;
    CallbackOfLogin(locale, r);
    CallbackFits(LoginFor(locale, r).search);
  }

  lemma SignedInHasCookie(v: Visitor)
    requires Consistent(v) && v.session
    ensures v.cookie
  {
  }

  lemma SegmentOfLogin(locale: string, r: Request)
    ensures LoginFor(locale, r) == Request("/" + locale + "/login", LoginFor(locale, r).search)
  {
  }

  lemma DestinationIsWritten(v: Visitor, locale: string, r: Request)
    requires WellFormed(r) && AppPath(r.path) && v.sameOrigin(Written(r))
    ensures Destination(v, LoginFor(locale, r).search) == Written(r) && !StartsWith(Written(r), "/admin")
  {
    hide Parse, Written, LoginFor, StartsWith, AppPath;
    CallbackOfLogin(locale, r);
    WrittenStarts(r);
  }

  lemma LocalisedWritten(locale: string, r: Request)
    requires locale in LOCALES && WellFormed(r) && AppPath(r.path) && '#' !in r.search
    ensures Target(Localised(locale, Written(r))) == Request("/" + locale + r.path, r.search)
  {
    hide Written, Target, AppPath, LOCALES, StartsWith;
    WrittenStarts(r);
    LocaleChars(locale);
    TargetOfWritten(r);
    TargetAfter("/" + locale, Written(r));
  }

  lemma StaysMissing(v: Visitor, r: Request)
    requires v.cookie && RouteOf(r.path) == Missing && Prefixed(r.path) && !AdminPath(r.path)
    ensures Step(v, r) == NotFound
  {
    hide RouteOf, Prefixed, AdminPath, AppPath, Matched;
  }

  lemma DoubledIsMissing(locale: string, path: string)
    requires locale in LOCALES && AppPath(path)
    ensures RouteOf("/" + locale + path) == Missing && Prefixed("/" + locale + path)
    ensures !AdminPath("/" + locale + path) && '?' !in "/" + locale && '#' !in "/" + locale
  {
    LocaleChars(locale);
    SegmentAfterLocale(locale, path);
    SecondCharacter(path);
    PageStarts(path);
  }

  lemma PageStarts(rest: string)
    requires |rest| >= 2 && rest[1] in {'e', 't'}
    ensures LocalRoute(rest) == Missing
  {
    NoMainPage(rest);
    NoPublicPage(rest);
    hide MAIN_PAGES, PUBLIC_PAGES, OneSegmentBetween;
    assert "/login"[1] == 'l' && "/register"[1] == 'r' && "/app/onboarding"[1] == 'a' && "/app/settings"[1] == 'a';
  }

  lemma NoMainPage(rest: string)
    requires |rest| >= 2 && rest[1] in {'e', 't'}
    ensures rest !in MAIN_PAGES && !OneSegmentBetween(rest, "/app/accounts/", "/edit")
  {
    assert forall page | page in MAIN_PAGES :: page[1] == 'a';
    if |rest| >= 14 {
      assert rest[..14][1] == rest[1] && "/app/accounts/"[1] == 'a';
    }
  }

  lemma NoPublicPage(rest: string)
    requires |rest| >= 2 && rest[1] in {'e', 't'}
    ensures rest !in PUBLIC_PAGES
  {
    assert forall page | page in PUBLIC_PAGES :: page == "" || page[1] !in {'e', 't'};
  }

  ghost predicate Ends(v: Visitor, r: Request) {
    exists n: nat :: !After(v, r, n).Moved?
  }

  lemma {:induction false} AfterShift(v: Visitor, r: Request, n: nat)
    requires Step(v, r).Moved?
    ensures After(v, Step(v, r).to, n) == After(v, r, n + 1)
  {
    hide Step;
    if n > 0 {
      AfterShift(v, r, n - 1);
    } else {
      assert After(v, r, 0) == Moved(r);
    }
  }

  lemma {:induction false} FollowEnds(v: Visitor, r: Request)
    requires Consistent(v) && WellFormed(r)
    ensures Ends(v, r)
    decreases Measure(v, r)
  {
    hide Step, Measure, WellFormed, Consistent;
    if Step(v, r).Moved? {
      StepDecreases(v, r);
      FollowEnds(v, Step(v, r).to);
      var n: nat :| !After(v, Step(v, r).to, n).Moved?;
      AfterShift(v, r, n);
    } else {
      assert After(v, r, 0) == Moved(r);
      assert After(v, r, 1) == Step(v, r);
    }
  }

  /** Without its cookie a session would send /admin to the login page and the login page back, for ever. */
  lemma {:induction false} AdminLoops(v: Visitor, n: nat)
    requires v.session && !v.cookie && v.sameOrigin("/admin")
    ensures After(v, Request("/admin", ""), n)
         == Moved(if n % 2 == 0 then Request("/admin", "") else LoginFor(DEFAULT_LOCALE, Request("/admin", "")))
  {
    hide Step, LoginFor;
    if n > 0 {
      AdminLoops(v, n - 1);
      AdminThere(v);
      AdminBack(v);
    }
  }

  lemma AdminThere(v: Visitor)
    requires !v.cookie
    ensures Step(v, Request("/admin", "")) == Moved(LoginFor(DEFAULT_LOCALE, Request("/admin", "")))
  {
    hide LoginFor, PageOutcome;
    assert "/admin"[..6] == "/admin" && '.' !in "/admin";
    assert "/admin"[..4] != "/api" by {
      assert "/admin"[..4][2] == 'd' && "/api"[2] == 'p';
    }
    assert |"/_vercel"| == 8 && |"/_next"| == 6;
    assert "/_next"[1] == '_' && "/admin"[..6][1] == 'a';
  }

  lemma AdminBack(v: Visitor)
    requires v.session && v.sameOrigin("/admin")
    ensures Step(v, LoginFor(DEFAULT_LOCALE, Request("/admin", ""))) == Moved(Request("/admin", ""))
  {
    hide RouteOf, Serialize, Parse, Target, Localised, Written, StartsWith, AdminPath, Step, PageOutcome;
    var r := Request("/admin", "");
    AdminIsAdmin();
    LocaleNames();
    LoginIsServedAnyway(v, LoginFor(DEFAULT_LOCALE, r).search);
    CallbackOfLogin(DEFAULT_LOCALE, r);
    TargetOfWritten(r);
    WrittenStarts(r);
    LoginMoves(v, LoginFor(DEFAULT_LOCALE, r));
  }

  lemma AdminIsAdmin()
    ensures AdminPath("/admin") && WellFormed(Request("/admin", "")) && Written(Request("/admin", "")) == "/admin"
  {
  }

  lemma LoginIsServedAnyway(v: Visitor, search: string)
    ensures var r := Request("/" + DEFAULT_LOCALE + "/login", search);
            Step(v, r) == PageOutcome(v, r) && RouteOf(r.path) == Login
  {
    FixedRoutes(DEFAULT_LOCALE);
    hide RouteOf, PageOutcome, Matched;
  }

  /** Every chain from every request ends exactly when a session always comes with its cookie. */
  lemma ChainsEndIff(v: Visitor)
    requires v.preferred in LOCALES && v.sameOrigin("/admin")
    ensures (forall r | WellFormed(r) :: Ends(v, r)) <==> (v.session ==> v.cookie)
  {
    hide LOCALES, WellFormed;
    AdminIsAdmin();
    if v.session && !v.cookie {
      forall n: nat
        ensures After(v, Request("/admin", ""), n).Moved?
      {
        AdminLoops(v, n);
      }
    } else {
      forall r | WellFormed(r)
        ensures Ends(v, r)
      {
        FollowEnds(v, r);
      }
    }
  }

  // ------------------------------------------------------- the rule removed

  /** An earlier proxy also sent a visitor with a cookie from the login and register pages to the app. */
  function OldStep(v: Visitor, r: Request): Outcome {
    if v.cookie && RouteOf(r.path) in {Login, Register}
    then Moved(Request("/" + LocaleFromPathname(r.path) + "/app", ""))
    else Step(v, r)
  }

  /** With a cookie whose session is gone, that rule and the app layout bounce the visitor between them. */
  lemma OldRuleLoops(v: Visitor, locale: string)
    requires locale in LOCALES && v.cookie && !v.session
    ensures var app, login := Request("/" + locale + "/app", ""), Request("/" + locale + "/login", "");
            && OldStep(v, app) == Moved(login) && OldStep(v, login) == Moved(app)
            && Step(v, login) == Rendered(Login)
  {
    FixedRoutes(locale);
    SegmentAfterLocale(locale, "/app");
    SegmentAfterLocale(locale, "/login");
    hide RouteOf, Matched;
  }
}
