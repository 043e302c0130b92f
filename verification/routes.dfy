/** The route table and the `Protected` guard: which page a path shows for
    a given authentication state. */
module Routes {
  import opened Wrappers
  import Auth
  import Domain

  datatype Page = IndexPage | DashboardPage | MapPage | IssuesPage | DepartmentsPage | AnalyticsPage | NotFoundPage

  /** A route either renders a page or redirects (replacing the history entry). */
  datatype Outcome = Render(page: Page) | Redirect(to: string)

  /** `Protected`: the child when signed in, otherwise a redirect to "/". */
  function Protected(a: Auth.AuthState, p: Page): (o: Outcome)
    ensures o == Render(p) <==> a.isAuthenticated
    ensures !a.isAuthenticated ==> o == Redirect("/")
  {
    if a.isAuthenticated then Render(p) else Redirect("/")
  }

  /** The path each page is declared at; the not-found page is the
      catch-all `*` and has none of its own. */
  function PathOf(p: Page): Option<string> {
    match p
    case IndexPage => Some("/")
    case DashboardPage => Some("/dashboard")
    case MapPage => Some("/map")
    case IssuesPage => Some("/issues")
    case DepartmentsPage => Some("/departments")
    case AnalyticsPage => Some("/analytics")
    case NotFoundPage => None
  }

  /** The paths wrapped in `Protected`, with their pages: the page declared
      at that path, never the sign-in or the not-found page. */
  function GuardedPage(path: string): (p: Page)
    requires path in GuardedPaths
    ensures PathOf(p) == Some(path)
    ensures p != IndexPage && p != NotFoundPage
  {
    if path == "/dashboard" then DashboardPage
    else if path == "/map" then MapPage
    else if path == "/issues" then IssuesPage
    else if path == "/departments" then DepartmentsPage
    else AnalyticsPage
  }

  const GuardedPaths: seq<string> := ["/dashboard", "/map", "/issues", "/departments", "/analytics"]

  /** The `<Routes>` table: "/" is public, the five pages are guarded, and
      any other path is the not-found page whatever the session. */
  function Resolve(path: string, a: Auth.AuthState): (o: Outcome)
    ensures path == "/" ==> o == Render(IndexPage)
    ensures path in GuardedPaths ==> (o.Render? <==> a.isAuthenticated)
    ensures path in GuardedPaths && !a.isAuthenticated ==> o == Redirect("/")
    ensures path != "/" && path !in GuardedPaths ==> o == Render(NotFoundPage)
    ensures o.Render? && o.page != IndexPage && o.page != NotFoundPage ==> a.isAuthenticated
  {
    if path == "/" then Render(IndexPage)
    else if path in GuardedPaths then Protected(a, GuardedPage(path))
    else Render(NotFoundPage)
  }

  /** Every page but the not-found page is reached at its own path by a
      signed-in user. */
  lemma EveryPageAtItsPath(p: Page, a: Auth.AuthState)
    requires a.isAuthenticated && PathOf(p).Some?
    ensures Resolve(PathOf(p).value, a) == Render(p)
  {
    if p != IndexPage {
      assert PathOf(p).value in GuardedPaths;
    }
  }

  /** Each guarded path shows its own page to a signed-in user. */
  lemma GuardedPagesDistinct(p: string, q: string)
    requires p in GuardedPaths && q in GuardedPaths && p != q
    ensures GuardedPage(p) != GuardedPage(q)
  {
  }

  /** Following a redirect never redirects again: the target renders the
      sign-in page in any state. */
  lemma RedirectTerminates(path: string, a: Auth.AuthState)
    ensures Resolve(path, a).Redirect? ==> Resolve(Resolve(path, a).to, a) == Render(IndexPage)
  {
  }

  /** After logout every guarded path redirects; after login every one renders. */
  lemma GuardFollowsSession(s: Auth.Session, path: string, email: string, password: string, role: Domain.Role)
    requires path in GuardedPaths
    ensures Resolve(path, Auth.Logout(s).auth) == Redirect("/")
    ensures Resolve(path, Auth.Login(s, email, password, role).auth) == Render(GuardedPage(path))
  {
  }
}
