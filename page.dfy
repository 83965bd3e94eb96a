/**
 * The single-page app's shell: which view a path shows, and the gate in front of it (a
 * spinner until the configuration fetch settles, then the sign-in screen when the
 * server asks for OIDC and the visitor is not signed in).
 */
module Page {
  import opened Wrappers
  import opened Strings
  import opened Types

  /** The `route` state. */
  datatype View = DashboardView | EndpointView(key: string) | SuiteView(key: string)

  /** The characters a regular expression's `.` does not match. */
  predicate IsLineTerminator(c: char)
  {
    c == '\n' || c == '\r' || c == '\U{2028}' || c == '\U{2029}'
  }

  /** `path.match(/^prefix(.+)$/)`: the captured rest, when `path` starts with `prefix`
      and goes on with one or more characters, none of them a line terminator. */
  function MatchRest(path: string, prefix: string): (m: Option<string>)
    ensures m.Some? <==>
      StartsWith(path, prefix) && |path| > |prefix|
      && forall i :: |prefix| <= i < |path| ==> !IsLineTerminator(path[i])
    ensures m.Some? ==> prefix + m.value == path && m.value != ""
  {
    if StartsWith(path, prefix) && |path| > |prefix|
      && forall i :: |prefix| <= i < |path| ==> !IsLineTerminator(path[i])
    then
      assert prefix + path[|prefix|..] == path;
      Some(path[|prefix|..])
    else None
  }

  const EndpointsPrefix: string := "/endpoints/"
  const SuitesPrefix: string := "/suites/"

  /** `resolveRoute`: the endpoint pattern first, then the suite pattern, else the dashboard. */
  function ResolveRoute(path: string): View
  {
    match MatchRest(path, EndpointsPrefix)
    case Some(key) => EndpointView(key)
    case None =>
      match MatchRest(path, SuitesPrefix)
      case Some(key) => SuiteView(key)
      case None => DashboardView
  }

  /** A key without line terminators. */
  predicate RouteKey(key: string)
  {
    key != "" && forall i :: 0 <= i < |key| ==> !IsLineTerminator(key[i])
  }

  /** The path of a view; the dashboard lives at "/". */
  function PathOf(v: View): string
  {
    match v
    case DashboardView => "/"
    case EndpointView(key) => EndpointsPrefix + key
    case SuiteView(key) => SuitesPrefix + key
  }

  /** Resolving the path of a view gives the view back, whatever the key holds ('/' included). */
  lemma ResolvePathOf(v: View)
    requires !v.DashboardView? ==> RouteKey(v.key)
    ensures ResolveRoute(PathOf(v)) == v
  {
    match v
    case DashboardView =>
      assert !StartsWith("/", EndpointsPrefix) && !StartsWith("/", SuitesPrefix);
    case EndpointView(key) =>
      var p := EndpointsPrefix + key;
      assert p[..|EndpointsPrefix|] == EndpointsPrefix;
      assert forall i :: |EndpointsPrefix| <= i < |p| ==> p[i] == key[i - |EndpointsPrefix|];
      assert p[|EndpointsPrefix|..] == key;
    case SuiteView(key) =>
      var p := SuitesPrefix + key;
      assert p[..|SuitesPrefix|] == SuitesPrefix;
      assert forall i :: |SuitesPrefix| <= i < |p| ==> p[i] == key[i - |SuitesPrefix|];
      assert p[|SuitesPrefix|..] == key;
      assert !StartsWith(p, EndpointsPrefix) by {
        assert p[1] == 's';
      }
  }

  /** The route depends on the path alone, and every path the two patterns reject, or
      cut short, shows the dashboard. */
  lemma ResolveRouteMeaning(path: string)
    ensures ResolveRoute(path).EndpointView? <==> MatchRest(path, EndpointsPrefix).Some?
    ensures ResolveRoute(path).SuiteView? <==> MatchRest(path, SuitesPrefix).Some?
    ensures ResolveRoute(path).DashboardView? <==>
      MatchRest(path, EndpointsPrefix).None? && MatchRest(path, SuitesPrefix).None?
    ensures !ResolveRoute(path).DashboardView? ==> PathOf(ResolveRoute(path)) == path
  {
    PrefixesExclusive(path);
  }

  /** No path starts with both prefixes, so the order of the two tests never matters. */
  lemma PrefixesExclusive(path: string)
    ensures !(StartsWith(path, EndpointsPrefix) && StartsWith(path, SuitesPrefix))
  {
    if StartsWith(path, EndpointsPrefix) {
      assert path[1] == EndpointsPrefix[1] == 'e';
    }
  }

  /** The anchored patterns in action: neither a bare prefix nor a prefix further in
      selects a detail page. */
  lemma BarePrefixShowsDashboard()
    ensures ResolveRoute("/") == DashboardView
    ensures ResolveRoute("/endpoints/") == DashboardView
    ensures ResolveRoute("/suites/") == DashboardView
  {
    assert "/"[..] == "/";
    assert !StartsWith("/endpoints/", SuitesPrefix) by {
      assert "/endpoints/"[1] == 'e';
    }
  }

  lemma InnerPrefixShowsDashboard()
    ensures ResolveRoute("/x/endpoints/a") == DashboardView
  {
    var p := "/x/endpoints/a";
    assert !StartsWith(p, EndpointsPrefix) && !StartsWith(p, SuitesPrefix) by {
      assert p[1] == 'x';
    }
  }

  lemma KeyWithSlashExample()
    ensures ResolveRoute("/endpoints/core_api/v2") == EndpointView("core_api/v2")
  {
    var key := "core_api/v2";
    assert RouteKey(key);
    ResolvePathOf(EndpointView(key));
    assert PathOf(EndpointView(key)) == "/endpoints/core_api/v2";
  }

  /** What the app renders. The suite page takes no announcements. */
  datatype Screen =
    | LoadingScreen
    | LoginScreen
    | DashboardScreen(announcements: seq<Announcement>)
    | EndpointScreen(key: string, announcements: seq<Announcement>)
    | SuiteScreen(key: string)

  /** The state of the app shell. */
  class App {
    var config: Option<AppConfig>
    var configLoaded: bool
    var route: View

    /** Before any effect has run: no configuration, the dashboard route. */
    constructor()
      ensures config.None? && !configLoaded && route == DashboardView
    {
      config, configLoaded, route := None, false, DashboardView;
    }

    /** `resolveRoute` on mount and on every 'popstate', of which `navigate` raises one
        after pushing the path. */
    method Navigate(path: string)
      modifies this`route
      ensures route == ResolveRoute(path)
    {
      var m := MatchRest(path, EndpointsPrefix);
      if m.Some? {
        route := EndpointView(m.value);
        return;
      }
      var s := MatchRest(path, SuitesPrefix);
      if s.Some? {
        route := SuiteView(s.value);
        return;
      }
      route := DashboardView;
    }

    /** The first configuration fetch settling: a configuration, or `None` when it failed. */
    method ConfigSettled(c: Option<AppConfig>)
      modifies this`config, this`configLoaded
      ensures configLoaded
      ensures c.Some? ==> config == c
      ensures c.None? ==> config == old(config)
    {
      if c.Some? {
        config := c;
      }
      configLoaded := true;
    }

    /** The ten-minute refresh of the configuration; a failure changes nothing. */
    method ConfigRefreshed(c: Option<AppConfig>)
      modifies this`config
      ensures c.Some? ==> config == c
      ensures c.None? ==> config == old(config)
    {
      if c.Some? {
        config := c;
      }
    }

    /** The announcements the pages get: none without a configuration. */
    function Announcements(): seq<Announcement>
      reads this
    {
      if config.None? then [] else config.value.announcements
    }

    /** `config?.oidc && !config.authenticated`. */
    predicate NeedsLogin()
      reads this
    {
      config.Some? && config.value.oidc && !config.value.authenticated
    }

    function Render(): (s: Screen)
      reads this
      ensures s.LoadingScreen? <==> !configLoaded
      ensures s.LoginScreen? <==> configLoaded && NeedsLogin()
      ensures configLoaded && !NeedsLogin() ==> match route
        case DashboardView => s == DashboardScreen(Announcements())
        case EndpointView(key) => s == EndpointScreen(key, Announcements())
        case SuiteView(key) => s == SuiteScreen(key)
    {
      if !configLoaded then LoadingScreen
      else if NeedsLogin() then LoginScreen
      else match route
        case DashboardView => DashboardScreen(Announcements())
        case EndpointView(key) => EndpointScreen(key, Announcements())
        case SuiteView(key) => SuiteScreen(key)
    }
  }

  /** A failed first fetch still ends the spinner, with no sign-in screen and no
      announcements. */
  method FailedFetchShowsRoute(path: string) returns (s: Screen)
    ensures s != LoadingScreen && s != LoginScreen
    ensures ResolveRoute(path) == DashboardView ==> s == DashboardScreen([])
  {
    var app := new App();
    app.Navigate(path);
    app.ConfigSettled(None);
    s := app.Render();
  }
}
