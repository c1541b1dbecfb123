/**
 Where every request ends up: what the proxy does with it, and what is shown at the end of its
 redirect chain, decided by the requested page and by who is asking.
 */
module Arrivals {
  import opened Wrappers
  import opened UrlQuery
  import opened Proxy

  // ----------------------------------------------------------------- the proxy

  /** The locale of the login page for a protected path: the path's own, or the default under /admin. */
  function LoginLocale(path: string): string {
    if AdminPath(path) then DEFAULT_LOCALE else FirstSegment(path)
  }

  lemma AdminIsNotApp(path: string)
    ensures !(AdminPath(path) && AppPath(path))
  {
    SecondCharacter(path);
  }

  lemma AppIsPrefixed(path: string)
    requires AppPath(path)
    ensures Prefixed(path) && LocaleFromPathname(path) == FirstSegment(path) && FirstSegment(path) in LOCALES
  {
    AppPathHasItsLocale(path);
  }

  /**
   A visitor without a cookie who asks for any app or admin path is moved at once to a login page, in the
   path's own locale, with the whole requested path and query in its callback.
   */
  lemma SentToLogin(v: Visitor, r: Request)
    requires Matched(r.path) && !v.cookie && (AppPath(r.path) || AdminPath(r.path))
    ensures Step(v, r).Moved?
    ensures var to := Step(v, r).to;
            && to.path == "/" + LoginLocale(r.path) + "/login" && LoginLocale(r.path) in LOCALES
            && RouteOf(to.path) == Login && FirstSegment(to.path) == LoginLocale(r.path)
            && Get(Parse(to.search), "callbackUrl") == Some(Written(r))
  {
    hide Matched, AppPath, AdminPath, RouteOf, Serialize, Parse, FirstSegment, Prefixed, LOCALES, PageOutcome;
    AdminIsNotApp(r.path);
    LocaleNames();
    var locale := LoginLocale(r.path);
    if AppPath(r.path) {
      AppIsPrefixed(r.path);
    }
    FixedRoutes(locale);
    SegmentAfterLocale(locale, "/login");
    CallbackOfLogin(locale, r);
  }

  /** The matcher lets the proxy see every protected path without a dot, and no static file, API or framework path. */
  lemma MatcherSees(path: string)
    ensures (AppPath(path) || AdminPath(path)) && '.' !in path ==> Matched(path)
    ensures '.' in path || StartsWith(path, "/api") || StartsWith(path, "/_next") || StartsWith(path, "/_vercel") ==>
              !Matched(path)
  {
    if AppPath(path) || AdminPath(path) {
      ProtectedStarts(path);
      NotStartsWith(path, "/_next", 1);
      NotStartsWith(path, "/_vercel", 1);
      NotStartsWith(path, "/api", if path[1] == 'a' then 2 else 1);
      OneSlashHere(path);
    }
    hide AppPath, AdminPath, StartsWith;
  }

  lemma ProtectedStarts(path: string)
    requires AppPath(path) || AdminPath(path)
    ensures |path| >= 6 && path[0] == '/' && path[1] in {'a', 'e', 't'} && (path[1] == 'a' ==> path[2] == 'd')
  {
    SecondCharacter(path);
    if AdminPath(path) {
      assert "/admin"[2] == 'd' && path[..6][2] == path[2] && path[..6][0] == path[0];
    } else {
      assert path[..7][0] == path[0];
    }
  }

  lemma NotStartsWith(s: string, prefix: string, i: nat)
    requires i < |s| && i < |prefix| && s[i] != prefix[i]
    ensures !StartsWith(s, prefix)
  {
    if |prefix| <= |s| {
      assert s[..|prefix|][i] == s[i];
    }
  }

  lemma OneSlashHere(path: string)
    requires path != "" && path[0] == '/'
    ensures StartsWith(path, "/")
  {
    assert path[..1] == [path[0]];
  }

  /**
   Everything else the proxy does: with a cookie it leaves app and admin paths alone, it never touches
   another path that names its locale, and it puts the preferred locale before one that does not.
   */
  lemma ProxyOtherwise(v: Visitor, r: Request)
    requires WellFormed(r) && v.preferred in LOCALES
    ensures (AppPath(r.path) || AdminPath(r.path)) && v.cookie ==> ProxyDecision(v, r) == Next
    ensures Prefixed(r.path) && !AppPath(r.path) && !AdminPath(r.path) ==> ProxyDecision(v, r) == Next
    ensures !Prefixed(r.path) && !AdminPath(r.path) ==>
              && ProxyDecision(v, r).Redirect? && ProxyDecision(v, r).to.search == r.search
              && FirstSegment(ProxyDecision(v, r).to.path) == v.preferred
              && ProxyDecision(v, r).to.path[3..] == if r.path == "/" then "" else r.path
  {
    hide AppPath, AdminPath, FirstSegment, Serialize, LOCALES;
    AdminIsNotApp(r.path);
    if AppPath(r.path) {
      AppIsPrefixed(r.path);
    }
    PrefixedHere(v, r);
  }

  lemma NoQueryInside(path: string)
    requires '?' !in path
    ensures !StartsWith(path, "/?")
  {
    if |path| >= 2 {
      assert path[..2][1] == path[1] && "/?"[1] == '?';
    }
  }

  lemma PrefixedHere(v: Visitor, r: Request)
    requires WellFormed(r) && v.preferred in LOCALES
    ensures var path := Localised(v.preferred, r.path);
            FirstSegment(path) == v.preferred && |path| >= 3 && path[3..] == if r.path == "/" then "" else r.path
  {
    var rest := if r.path == "/" then "" else r.path;
    NoQueryInside(r.path);
    assert Localised(v.preferred, r.path) == "/" + v.preferred + rest;
    LocaleChars(v.preferred);
    SegmentAfterLocale(v.preferred, rest);
    LocaleNames();
  }

  // ------------------------------------------------------------- the whole chain

  /** The page a signed-in visitor starts from. */
  function Home(v: Visitor): Outcome {
    Rendered(if v.onboarded then Main else Onboarding)
  }

  /** Which page the visitor is for, by the page asked for. */
  function ShownFor(v: Visitor, route: Route): Outcome {
    match route
    case Missing => NotFound
    case Public => Rendered(Public)
    case Login => if v.session then Home(v) else Rendered(Login)
    case Register => if v.session then Home(v) else Rendered(Register)
    case Main => if v.session then Home(v) else Rendered(Login)
    case Onboarding => if v.session then Home(v) else Rendered(Login)
    case Settings => Rendered(if v.session then Settings else Login)
    case Dashboard => if !v.session then Rendered(Login) else if v.admin then Rendered(Dashboard) else NotFound
  }

  lemma FollowStays(v: Visitor, r: Request)
    requires Consistent(v) && WellFormed(r) && !Step(v, r).Moved?
    ensures Follow(v, r) == Step(v, r)
  {
    hide Step, Consistent, WellFormed;
  }

  lemma FollowMoves(v: Visitor, r: Request)
    requires Consistent(v) && WellFormed(r) && Step(v, r).Moved?
    ensures WellFormed(Step(v, r).to) && Follow(v, r) == Follow(v, Step(v, r).to)
  {
    hide Step, Consistent, WellFormed, Measure;
    StepDecreases(v, r);
  }

  lemma PageUnlessRedirected(v: Visitor, r: Request)
    requires ProxyDecision(v, r) == Next
    ensures Step(v, r) == PageOutcome(v, r)
  {
    hide ProxyDecision, PageOutcome, Matched;
  }

  lemma ProxyPasses(v: Visitor, path: string, search: string)
    requires (Prefixed(path) || AdminPath(path)) && (v.cookie || (!AppPath(path) && !AdminPath(path)))
    ensures ProxyDecision(v, Request(path, search)) == Next
  {
    hide AppPath, AdminPath, Prefixed, Serialize;
  }

  lemma PageFor(v: Visitor, r: Request)
    requires RouteOf(r.path) in {Missing, Public, Settings, Dashboard, Main, Onboarding, Register} || !v.session
    ensures PageOutcome(v, r)
         == match RouteOf(r.path)
            case Missing => NotFound
            case Public => Rendered(Public)
            case Login => Rendered(Login)
            case Register =>
              if v.session then Moved(Request(Localised(LocaleFromPathname(r.path), "/app"), "")) else Rendered(Register)
            case Dashboard =>
              if !v.session then Moved(Request("/en/login", "callbackUrl=/admin"))
              else if v.admin then Rendered(Dashboard) else NotFound
            case Settings =>
              if v.session then Rendered(Settings) else Moved(Request(Localised(LocaleFromPathname(r.path), "/login"), ""))
            case Main =>
              if !v.session then Moved(Request(Localised(LocaleFromPathname(r.path), "/login"), ""))
              else if v.onboarded then Rendered(Main)
              else Moved(Request(Localised(LocaleFromPathname(r.path), "/app/onboarding"), ""))
            case Onboarding =>
              if !v.session then Moved(Request(Localised(LocaleFromPathname(r.path), "/login"), ""))
              else if v.onboarded then Moved(Request(Localised(LocaleFromPathname(r.path), "/app"), ""))
              else Rendered(Onboarding)
  {
    hide RouteOf, Localised, LocaleFromPathname, Parse;
  }

  /** A visitor without a session stays on any login page. */
  lemma LoginShown(v: Visitor, locale: string, search: string)
    requires Consistent(v) && !v.session && locale in LOCALES
    ensures WellFormed(Request("/" + locale + "/login", search))
    ensures Follow(v, Request("/" + locale + "/login", search)) == Rendered(Login)
  {
    hide RouteOf, WellFormed, Consistent, LOCALES, Step, AdminPath, AppPath, Prefixed, ProxyDecision, PageOutcome;
    var r := Request("/" + locale + "/login", search);
    FixedRoutes(locale);
    FixedPaths(locale, search);
    ProxyPasses(v, r.path, search);
    PageUnlessRedirected(v, r);
    PageFor(v, r);
    FollowStays(v, r);
  }

  /** Either of the two pages a signed-in visitor is sent to leads to the one that is theirs. */
  lemma HomeShown(v: Visitor, locale: string, page: string)
    requires Consistent(v) && v.session && locale in LOCALES && page in {"/app", "/app/onboarding"}
    ensures WellFormed(Request(Localised(locale, page), ""))
    ensures Follow(v, Request(Localised(locale, page), "")) == Home(v)
  {
    SignedInHasCookie(v);
    hide RouteOf, WellFormed, Consistent, LOCALES, Step, AdminPath, AppPath, Prefixed, ProxyDecision, PageOutcome, Localised;
    OwnPage(v, locale);
    var other := if v.onboarded then "/app/onboarding" else "/app";
    var r := Request(Localised(locale, other), "");
    FixedRoutes(locale);
    FixedPaths(locale, "");
    LocaleOfFixed(locale);
    ProxyPasses(v, r.path, "");
    PageUnlessRedirected(v, r);
    PageFor(v, r);
    FollowMoves(v, r);
  }

  lemma LocaleOfFixed(locale: string)
    requires locale in LOCALES
    ensures LocaleFromPathname("/" + locale + "/app") == locale
    ensures LocaleFromPathname("/" + locale + "/app/onboarding") == locale
  {
    SegmentAfterLocale(locale, "/app");
    SegmentAfterLocale(locale, "/app/onboarding");
  }

  lemma OwnPage(v: Visitor, locale: string)
    requires Consistent(v) && v.session && v.cookie && locale in LOCALES
    ensures var r := Request(Localised(locale, if v.onboarded then "/app" else "/app/onboarding"), "");
            WellFormed(r) && Follow(v, r) == Home(v)
  {
    hide RouteOf, WellFormed, Consistent, LOCALES, Step, AdminPath, AppPath, Prefixed, ProxyDecision, PageOutcome, Localised;
    var r := Request(Localised(locale, if v.onboarded then "/app" else "/app/onboarding"), "");
    FixedRoutes(locale);
    FixedPaths(locale, "");
    ProxyPasses(v, r.path, "");
    PageUnlessRedirected(v, r);
    PageFor(v, r);
    FollowStays(v, r);
  }

  /** Where a page that was not redirected by the proxy ends. */
  lemma PageEnds(v: Visitor, r: Request)
    requires Consistent(v) && WellFormed(r) && Step(v, r) == PageOutcome(v, r)
    requires RouteOf(r.path) != Login || !v.session
    ensures Follow(v, r) == ShownFor(v, RouteOf(r.path))
  {
    hide RouteOf, WellFormed, Consistent, LOCALES, Step, PageOutcome, Localised, LocaleFromPathname;
    LocaleIsKnown(r.path);
    LocaleNames();
    PageFor(v, r);
    var locale := LocaleFromPathname(r.path);
    if !PageOutcome(v, r).Moved? {
      FollowStays(v, r);
    } else {
      FollowMoves(v, r);
      if v.session {
        HomeShown(v, locale, "/app");
        HomeShown(v, locale, "/app/onboarding");
      } else {
        LoginAddresses(locale);
        LoginShown(v, locale, "");
        LoginShown(v, DEFAULT_LOCALE, "callbackUrl=/admin");
      }
    }
  }

  lemma LoginAddresses(locale: string)
    requires locale in LOCALES
    ensures Localised(locale, "/login") == "/" + locale + "/login" && "/" + DEFAULT_LOCALE + "/login" == "/en/login"
  {
    FixedRoutes(locale);
    EnglishLogin();
  }

  /**
   The end of every redirect chain, for every visitor and every path with a locale or under /admin: a
   visitor without a cookie is asked to sign in before anything under the app or admin paths, and
   otherwise sees the page that is for them, as decided by the page asked for. Only a signed-in visit to
   the login page depends on more, namely on its callback.
   */
  lemma EndsWhere(v: Visitor, r: Request)
    requires Consistent(v) && WellFormed(r) && (Prefixed(r.path) || AdminPath(r.path))
    requires RouteOf(r.path) != Login || !v.session
    ensures Follow(v, r)
         == if Matched(r.path) && !v.cookie && (AppPath(r.path) || AdminPath(r.path)) then Rendered(Login)
            else ShownFor(v, RouteOf(r.path))
  {
    hide RouteOf, WellFormed, LOCALES, Step, AdminPath, AppPath, Prefixed, PageOutcome, ShownFor, Parse, FirstSegment;
    if Matched(r.path) && !v.cookie && (AppPath(r.path) || AdminPath(r.path)) {
      SentToLogin(v, r);
      FollowMoves(v, r);
      LoginShown(v, LoginLocale(r.path), Step(v, r).to.search);
    } else {
      NotSent(v, r);
      PageEnds(v, r);
    }
  }

  lemma NotSent(v: Visitor, r: Request)
    requires Prefixed(r.path) || AdminPath(r.path)
    requires !(Matched(r.path) && !v.cookie && (AppPath(r.path) || AdminPath(r.path)))
    ensures Step(v, r) == PageOutcome(v, r)
  {
    hide Matched, AppPath, AdminPath, Prefixed, PageOutcome, Serialize;
  }

  /** A path without a locale ends where the same path in the visitor's own locale does. */
  lemma UnprefixedEnds(v: Visitor, r: Request)
    requires Consistent(v) && WellFormed(r) && Matched(r.path) && !Prefixed(r.path) && !AdminPath(r.path)
    ensures var to := Request("/" + v.preferred + (if r.path == "/" then "" else r.path), r.search);
            WellFormed(to) && Follow(v, r) == Follow(v, to)
  {
    hide RouteOf, LOCALES, AdminPath, AppPath, Prefixed, PageOutcome, Measure, StartsWith, Serialize;
    UnprefixedMoves(v, r);
    FollowMoves(v, r);
  }

  lemma UnprefixedMoves(v: Visitor, r: Request)
    requires WellFormed(r) && Matched(r.path) && !Prefixed(r.path) && !AdminPath(r.path)
    ensures Step(v, r) == Moved(Request("/" + v.preferred + (if r.path == "/" then "" else r.path), r.search))
  {
    NoQueryInside(r.path);
    hide AdminPath, AppPath, Prefixed, PageOutcome, Matched, Serialize, StartsWith;
  }

  /** A signed-in visitor who opens the login page without a usable callback goes home. */
  lemma LoginGoesHome(v: Visitor, r: Request)
    requires Consistent(v) && v.session && WellFormed(r) && Prefixed(r.path) && RouteOf(r.path) == Login
    requires SafeCallbackPath(v, Get(Parse(r.search), "callbackUrl")).None?
    ensures Follow(v, r) == Home(v)
  {
    SignedInHasCookie(v);
    hide RouteOf, WellFormed, Consistent, LOCALES, Step, AdminPath, AppPath, Prefixed, PageOutcome, Localised;
    hide LocaleFromPathname, Parse, SafeCallbackPath, Target, StartsWith, ProxyDecision;
    LocaleIsKnown(r.path);
    var locale := LocaleFromPathname(r.path);
    ProxyPasses(v, r.path, r.search);
    PageUnlessRedirected(v, r);
    LoginMoves(v, r);
    NoCallback(v, r);
    FixedRoutes(locale);
    AppTarget(locale);
    FollowMoves(v, r);
    HomeShown(v, locale, "/app");
  }

  lemma AppTarget(locale: string)
    requires locale in LOCALES
    ensures Target("/" + locale + "/app") == Request("/" + locale + "/app", "")
  {
    LocaleNames();
    assert ("/" + locale + "/app")[1..3] == locale && ("/" + locale + "/app")[3..] == "/app";
    PlainTarget("/" + locale + "/app");
  }

  // -------------------------------------------------------------- the callback

  /**
   Wherever the login page sends a signed-in visitor, it is a path on this site: it opens with one slash
   and not with two, the URL parser agrees, and it is the callback itself whenever the callback is such a path.
   */
  lemma DestinationIsLocal(v: Visitor, search: string)
    ensures var d := Destination(v, search);
            && d != "" && d[0] == '/' && (|d| >= 2 ==> d[1] != '/')
            && (d == "/app" || (v.sameOrigin(d) && Get(Parse(search), "callbackUrl") == Some(d)))
    ensures var c := Get(Parse(search), "callbackUrl");
            c.Some? && c.value != "" && c.value[0] == '/' && (|c.value| >= 2 ==> c.value[1] != '/') && v.sameOrigin(c.value)
            ==> Destination(v, search) == c.value
  {
    hide Parse;
    var c := Get(Parse(search), "callbackUrl");
    if c.Some? {
      OneSlash(c.value);
    }
    assert "/app"[1] == 'a';
  }

  lemma OneSlash(c: string)
    ensures StartsWith(c, "/") <==> c != "" && c[0] == '/'
    ensures StartsWith(c, "//") <==> |c| >= 2 && c[0] == '/' && c[1] == '/'
  {
    if |c| >= 1 {
      assert c[..1] == [c[0]];
    }
    if |c| >= 2 {
      assert c[..2] == [c[0], c[1]];
    }
  }

  // ------------------------------------------------------------ known addresses

  /** Where the addresses the application itself links to lead, in either locale. */
  lemma KnownRoutes(locale: string)
    requires locale in LOCALES
    ensures RouteOf("/" + locale) == Public && RouteOf("/" + locale + "/pricing") == Public
    ensures RouteOf("/" + locale + "/login") == Login && RouteOf("/" + locale + "/register") == Register
    ensures RouteOf("/" + locale + "/app") == Main && RouteOf("/" + locale + "/app/trades") == Main
    ensures RouteOf("/" + locale + "/app/onboarding") == Onboarding && RouteOf("/" + locale + "/app/settings") == Settings
    ensures RouteOf("/admin") == Dashboard && RouteOf("/admin/audit") == Dashboard
  {
    hide RouteOf, LocalRoute, LOCALES;
    LocalPage(locale, "");
    LocalPage(locale, "/pricing");
    LocalPage(locale, "/login");
    LocalPage(locale, "/register");
    LocalPage(locale, "/app");
    LocalPage(locale, "/app/trades");
    LocalPage(locale, "/app/onboarding");
    LocalPage(locale, "/app/settings");
    LocalPages();
    AdminPages();
    assert "/" + locale + "" == "/" + locale;
  }

  lemma LocalPage(locale: string, rest: string)
    requires locale in LOCALES && (rest == "" || rest[0] == '/')
    ensures RouteOf("/" + locale + rest) == LocalRoute(rest)
  {
    SegmentAfterLocale(locale, rest);
    LocaleNames();
    hide LocalRoute, FirstSegment, AdminPath;
  }

  lemma LocalPages()
    ensures LocalRoute("") == Public && LocalRoute("/pricing") == Public
    ensures LocalRoute("/login") == Login && LocalRoute("/register") == Register
    ensures LocalRoute("/app") == Main && LocalRoute("/app/trades") == Main
    ensures LocalRoute("/app/onboarding") == Onboarding && LocalRoute("/app/settings") == Settings
  {
    assert |"/login"| == 6 && |"/register"| == 9 && |"/app/settings"| == 13 && |"/app/onboarding"| == 15;
    assert |"/app"| == 4 && |"/app/trades"| == 11;
    ShortPages("");
    ShortPages("/pricing");
  }

  lemma ShortPages(rest: string)
    requires rest == "" || rest == "/pricing"
    ensures LocalRoute(rest) == Public
  {
    assert forall page | page in MAIN_PAGES :: page != "" && page[1] == 'a';
    assert "/pricing"[1] == 'p' && |"/pricing"| == 8 && |"/app/accounts/"| == 14;
    assert |"/login"| == 6 && |"/register"| == 9 && |"/app/settings"| == 13 && |"/app/onboarding"| == 15;
  }

  lemma AdminPages()
    ensures RouteOf("/admin") == Dashboard && RouteOf("/admin/audit") == Dashboard
  {
    hide OneSegmentBetween, LocalRoute, FirstSegment;
    assert "/admin"[6..] == "" && "/admin/audit"[6..] == "/audit" && "/admin/audit"[..6] == "/admin";
  }
}
