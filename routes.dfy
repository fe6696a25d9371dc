/** The routing of src/App.jsx: which page each path shows, the two route
    guards, and where a visitor ends up once the redirects have been
    followed. */
module Routes {
  import opened Wrappers
  import opened Domain
  import Admin
  import Dashboard

  const LandingPath: string := "/"
  const DashboardPath: string := "/dashboard"
  const SubmitFeedbackPath: string := "/submit-feedback"
  const AdminPath: string := "/admin"
  const FeedbackPrefix: string := "/feedback/"

  datatype Page = Landing | DashboardPage | SubmitFeedbackPage | FeedbackDetailPage(id: string) | AdminPage

  /** `PublicRoute` or `ProtectedRoute`. */
  datatype Guard = Public | Protected

  datatype Route = Route(guard: Guard, page: Page)

  /** What a route renders: the loading screen, a page, or a `<Navigate>`. */
  datatype Element = LoadingScreen | Show(page: Page) | NavigateTo(path: string)

  /** What the authentication context provides. */
  datatype AuthState = AuthState(currentUser: Option<User>, userRole: string, loading: bool)

  /** A value for the `:id` parameter: one non-empty path segment. */
  predicate IsSegment(s: string) {
    s != [] && '/' !in s
  }

  /** The guard every page is declared with: only the landing page is public. */
  function GuardOf(p: Page): (g: Guard)
    ensures g.Public? <==> p.Landing?
  {
    if p.Landing? then Public else Protected
  }

  /** The path that shows a page. */
  function PathOf(p: Page): string {
    match p
    case Landing => LandingPath
    case DashboardPage => DashboardPath
    case SubmitFeedbackPage => SubmitFeedbackPath
    case FeedbackDetailPage(id) => FeedbackPrefix + id
    case AdminPage => AdminPath
  }

  /** The declared routes, matched exactly; `None` stands for the catch-all. */
  function MatchRoute(path: string): (r: Option<Route>)
    ensures r.Some? ==> r.value.guard == GuardOf(r.value.page) && PathOf(r.value.page) == path
    ensures r.Some? && r.value.page.FeedbackDetailPage? ==> IsSegment(r.value.page.id)
  {
    if path == LandingPath then Some(Route(Public, Landing))
    else if path == DashboardPath then Some(Route(Protected, DashboardPage))
    else if path == SubmitFeedbackPath then Some(Route(Protected, SubmitFeedbackPage))
    else if path == AdminPath then Some(Route(Protected, AdminPage))
    else if |path| > |FeedbackPrefix| && path[..|FeedbackPrefix|] == FeedbackPrefix && '/' !in path[|FeedbackPrefix|..] then
      assert FeedbackPrefix + path[|FeedbackPrefix|..] == path;
      Some(Route(Protected, FeedbackDetailPage(path[|FeedbackPrefix|..])))
    else None
  }

  /** Every page is reached through its own path, under its own guard. */
  lemma MatchPathOf(p: Page)
    requires p.FeedbackDetailPage? ==> IsSegment(p.id)
    ensures MatchRoute(PathOf(p)) == Some(Route(GuardOf(p), p))
  {
    if p.FeedbackDetailPage? {
      var path := PathOf(p);
      assert path[..|FeedbackPrefix|] == FeedbackPrefix;
      assert path[|FeedbackPrefix|..] == p.id;
      assert path[1] == 'f';
    }
  }

  /** `ProtectedRoute`: wait while loading, then the page for a signed-in
      user and the landing page for anyone else. */
  function ProtectedRoute(auth: AuthState, page: Page): (e: Element)
    ensures auth.loading ==> e == LoadingScreen
    ensures !auth.loading ==> (e == Show(page) <==> auth.currentUser.Some?)
    ensures !auth.loading && auth.currentUser.None? ==> e == NavigateTo(LandingPath)
  {
    if auth.loading then LoadingScreen
    else if auth.currentUser.Some? then Show(page)
    else NavigateTo(LandingPath)
  }

  /** `PublicRoute`: wait while loading, then the dashboard for a signed-in
      user and the page for anyone else. */
  function PublicRoute(auth: AuthState, page: Page): (e: Element)
    ensures auth.loading ==> e == LoadingScreen
    ensures !auth.loading ==> (e == Show(page) <==> auth.currentUser.None?)
    ensures !auth.loading && auth.currentUser.Some? ==> e == NavigateTo(DashboardPath)
  {
    if auth.loading then LoadingScreen
    else if auth.currentUser.Some? then NavigateTo(DashboardPath)
    else Show(page)
  }

  /** Once the authentication state is known, exactly one of the two
      guards renders its page. */
  lemma GuardsComplementary(auth: AuthState, p: Page, q: Page)
    requires !auth.loading
    ensures (ProtectedRoute(auth, p) == Show(p)) != (PublicRoute(auth, q) == Show(q))
  {
  }

  /** What the router renders for a path; an unknown path navigates to `/`. */
  function Resolve(auth: AuthState, path: string): Element {
    match MatchRoute(path)
    case None => NavigateTo(LandingPath)
    case Some(Route(Public, page)) => PublicRoute(auth, page)
    case Some(Route(Protected, page)) => ProtectedRoute(auth, page)
  }

  /** Follows at most `hops` redirects. */
  function Settle(auth: AuthState, path: string, hops: nat): Element
    decreases hops
  {
    match Resolve(auth, path)
    case NavigateTo(next) => if hops == 0 then NavigateTo(next) else Settle(auth, next, hops - 1)
    case e => e
  }

  /** Once the authentication state is known, signed-out visitors are always
      taken to the landing page, and signed-in users never see it: they get
      the protected page they asked for, or the dashboard. */
  lemma {:induction false} WhereVisitorsLand(auth: AuthState, path: string)
    requires !auth.loading
    ensures auth.currentUser.None? ==> Settle(auth, path, 2) == Show(Landing)
    ensures auth.currentUser.Some? ==>
              Settle(auth, path, 2) == Show(
                if MatchRoute(path).Some? && MatchRoute(path).value.guard.Protected?
                then MatchRoute(path).value.page else DashboardPage)
  {
    MatchPathOf(Landing);
    MatchPathOf(DashboardPage);
    if auth.currentUser.Some? && (MatchRoute(path).None? || MatchRoute(path).value.guard.Public?) {
      if MatchRoute(path).None? {
        assert Settle(auth, path, 2) == Settle(auth, LandingPath, 1);
      }
      assert Settle(auth, LandingPath, 1) == Settle(auth, DashboardPath, 0);
    }
  }

  /** The landing page shows exactly to signed-out visitors. */
  lemma LandingOnlySignedOut(auth: AuthState, path: string)
    requires !auth.loading
    ensures Settle(auth, path, 2) == Show(Landing) <==> auth.currentUser.None?
  {
    WhereVisitorsLand(auth, path);
  }

  /** While the authentication state loads, every declared route waits. */
  lemma LoadingWaits(auth: AuthState, path: string)
    requires auth.loading && MatchRoute(path).Some?
    ensures Resolve(auth, path) == LoadingScreen
  {
  }

  /** The admin panel's content shows exactly to a signed-in user whose role
      is `admin` at `/admin`: the route guard and the page's own role check
      together. */
  lemma AdminPanelAccess(auth: AuthState, path: string)
    requires !auth.loading
    ensures (Settle(auth, path, 2) == Show(AdminPage) && Admin.GateFor(auth.userRole).Panel?)
            <==> (auth.currentUser.Some? && path == AdminPath && auth.userRole == Admin.AdminRole)
  {
    WhereVisitorsLand(auth, path);
    MatchPathOf(AdminPage);
  }

  /** A dashboard card opens the detail page of its feedback. */
  lemma CardOpensDetail(auth: AuthState, id: string)
    requires !auth.loading && auth.currentUser.Some? && IsSegment(id)
    ensures Settle(auth, Dashboard.FeedbackPath(id), 2) == Show(FeedbackDetailPage(id))
  {
    MatchPathOf(FeedbackDetailPage(id));
    WhereVisitorsLand(auth, Dashboard.FeedbackPath(id));
  }
}
