/** The application shell (App.jsx): the route table, the `ProtectedRoute`
    guard, and the rule that shows the fixed navigation bar. */
module AppRoutes {
  import opened Common
  import AuthSession

  datatype Page =
    | Landing
    | GetStarted
    | Movies
    | NowPlaying
    | MovieDetails(tmdbId: string)
    | Profile
    | TopCharts
    | VerifyEmail

  /** What the router renders for a location. */
  datatype View = Loading | RedirectTo(path: string) | Show(page: Page) | Blank

  datatype Pattern = Exact(path: string) | MovieDetailsPattern

  /** A `<Route>`: its path pattern and whether it is wrapped in `ProtectedRoute`. */
  datatype Route = Route(pattern: Pattern, guarded: bool)

  const GetStartedPath: string := "/get-started"

  /** The `<Routes>` of `AppContent`, in source order. */
  const Routes: seq<Route> := [
    Route(Exact("/"), false),
    Route(Exact("/get-started"), false),
    Route(Exact("/movies"), true),
    Route(Exact("/now-playing"), true),
    Route(MovieDetailsPattern, true),
    Route(Exact("/profile"), true),
    Route(Exact("/top-charts"), true),
    Route(Exact("/verify-email"), false)
  ]

  /** `fixedNavbarPaths`. */
  const FixedNavbarPaths: seq<string> := ["/movies", "/top-charts", "/now-playing"]

  /** `/movies/:tmdbId`: one non-empty segment after `/movies/`. */
  predicate IsMovieDetailsPath(path: string) {
    |path| > 8 && path[..8] == "/movies/" && '/' !in path[8..]
  }

  predicate Matches(p: Pattern, path: string) {
    match p
    case Exact(q) => path == q
    case MovieDetailsPattern => IsMovieDetailsPath(path)
  }

  /** The page a matching pattern renders. */
  function PageOf(p: Pattern, path: string): Page
    requires Matches(p, path)
  {
    match p
    case MovieDetailsPattern => MovieDetails(path[8..])
    case Exact(q) =>
      if q == "/" then Landing
      else if q == "/get-started" then GetStarted
      else if q == "/movies" then Movies
      else if q == "/now-playing" then NowPlaying
      else if q == "/profile" then Profile
      else if q == "/top-charts" then TopCharts
      else VerifyEmail
  }

  /** The route a location selects; the patterns do not overlap, so at most
      one matches. */
  function Resolve(path: string): (r: Option<nat>)
    ensures r.Some? ==> r.value < |Routes| && Matches(Routes[r.value].pattern, path)
    ensures r.None? ==> forall i :: 0 <= i < |Routes| ==> !Matches(Routes[i].pattern, path)
  {
    FindFirst(Routes, (rt: Route) => Matches(rt.pattern, path))
  }

  /** `ProtectedRoute`: loading takes precedence over the authentication test. */
  function ProtectedRoute(s: AuthSession.Session, page: Page): (v: View)
    ensures s.isLoading ==> v == Loading
    ensures !s.isLoading && !s.isAuthenticated ==> v == RedirectTo(GetStartedPath)
    ensures !s.isLoading && s.isAuthenticated ==> v == Show(page)
  {
    if s.isLoading then Loading
    else if !s.isAuthenticated then RedirectTo(GetStartedPath)
    else Show(page)
  }

  /** `AppContent`: the screen for a location — whether the fixed navigation
      bar is shown, and the routed view. */
  datatype Screen = Screen(navBar: bool, view: View)

  function AppContent(s: AuthSession.Session, path: string): (sc: Screen)
    ensures s.isLoading ==> sc == Screen(false, Loading)
    ensures sc.navBar <==> !s.isLoading && s.isAuthenticated && path in FixedNavbarPaths
  {
    if s.isLoading then Screen(false, Loading)
    else
      var nav := s.isAuthenticated && path in FixedNavbarPaths;
      match Resolve(path)
      case None => Screen(nav, Blank)
      case Some(i) =>
        var page := PageOf(Routes[i].pattern, path);
        Screen(nav, if Routes[i].guarded then ProtectedRoute(s, page) else Show(page))
  }

  /** The public pages are exactly the landing page, the sign-in page and
      the verification page; every other route is guarded. */
  lemma GuardedExactlyTheAppPages(path: string)
    requires Resolve(path).Some?
    ensures
      var rt := Routes[Resolve(path).value];
      var page := PageOf(rt.pattern, path);
      !rt.guarded <==> page in {Landing, GetStarted, VerifyEmail}
  {
  }

  /** Once loading has finished, a guarded page is shown exactly to an
      authenticated session and everyone else is sent to the sign-in page;
      public pages are shown to everyone. */
  lemma SettledSessionRouting(s: AuthSession.Session, path: string)
    requires !s.isLoading && Resolve(path).Some?
    ensures
      var rt := Routes[Resolve(path).value];
      var v := AppContent(s, path).view;
      && (rt.guarded && !s.isAuthenticated ==> v == RedirectTo(GetStartedPath))
      && (rt.guarded && s.isAuthenticated ==> v.Show?)
      && (!rt.guarded ==> v.Show?)
      && v != Loading
  {
  }

  /** The navigation bar appears on the three list pages only, never on a
      movie's detail page. */
  lemma NavBarNotOnDetailPages(s: AuthSession.Session, id: string)
    requires |id| > 0 && '/' !in id
    ensures AppContent(s, "/movies/" + id).view != Blank || s.isLoading
    ensures !AppContent(s, "/movies/" + id).navBar
  {
    var path := "/movies/" + id;
    assert path[..8] == "/movies/" && path[8..] == id;
    assert Matches(Routes[4].pattern, path);
    assert path[1] == 'm' && |path| > |"/movies"|;
    assert path !in FixedNavbarPaths;
  }

  /** Once the mount check has settled, the guard never shows the loading
      screen: a guarded page is shown exactly when the check succeeded, and
      otherwise the visitor is sent to the sign-in page. */
  lemma InitializedSessionGuards(s: AuthSession.Session, check: AuthSession.Outcome, page: Page)
    ensures var v := ProtectedRoute(AuthSession.InitializeAuth(s, check), page);
      && v != Loading
      && (v == Show(page) <==> check.Ok?)
      && (v == RedirectTo(GetStartedPath) <==> !check.Ok?)
  {
  }
}
