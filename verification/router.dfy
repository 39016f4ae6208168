/** The route table and navigation guard of `src/router/index.js`: which
    routes need a signed-in user, which are hidden from one, where the guard
    sends a navigation, and where the page scrolls to. The auth store is
    reduced to its `isAuthenticated` flag; views are left out. */
module Router {
  import opened Wrappers
  import ErrorLog

  /** A route record's `meta`; a missing `hideIfAuth` is false. */
  datatype Meta = Meta(requiresAuth: bool, hideIfAuth: bool)

  datatype Route = Route(path: string, name: string, meta: Meta)

  /** The catch-all pattern of the not-found route. */
  const CatchAll := "/:pathMatch(.*)*"

  /** The route records, in declaration order. */
  const Routes: seq<Route> := [
    Route("/", "home", Meta(false, false)),
    Route("/profiles", "profiles", Meta(true, false)),
    Route("/matching", "matching", Meta(true, false)),
    Route("/login", "login", Meta(false, true)),
    Route("/register", "register", Meta(false, true)),
    Route(CatchAll, "not-found", Meta(false, false))
  ]

  /** The record a path resolves to: the first record with that exact path,
      and the catch-all for any other. */
  function Resolve(path: string): (r: Route)
    ensures r in Routes
    ensures (exists i :: 0 <= i < |Routes| - 1 && Routes[i].path == path) ==> r.path == path
    ensures (forall i :: 0 <= i < |Routes| - 1 ==> Routes[i].path != path) ==> r == Routes[|Routes| - 1]
  {
    if path == "/" then Routes[0]
    else if path == "/profiles" then Routes[1]
    else if path == "/matching" then Routes[2]
    else if path == "/login" then Routes[3]
    else if path == "/register" then Routes[4]
    else Routes[5]
  }

  /** Exactly the profile list and the matching page need a signed-in user;
      exactly login and registration are hidden from one. */
  lemma ProtectedRoutes(r: Route)
    requires r in Routes
    ensures r.meta.requiresAuth <==> r.path == "/profiles" || r.path == "/matching"
    ensures r.meta.hideIfAuth <==> r.path == "/login" || r.path == "/register"
    ensures !(r.meta.requiresAuth && r.meta.hideIfAuth)
  {
  }

  /** A navigation: the target's name (possibly missing), its path, and the
      `meta` of every record it matched, outermost first. */
  datatype Target = Target(name: Option<string>, path: string, matched: seq<Meta>)

  /** The navigation to a path. */
  function Navigate(path: string): (t: Target)
    ensures t.path == path && t.matched == [Resolve(path).meta] && t.name == Some(Resolve(path).name)
  {
    var r := Resolve(path);
    Target(Some(r.name), path, [r.meta])
  }

  /** `to.matched.some(record => record.meta.requiresAuth)`. */
  function RequiresAuth(matched: seq<Meta>): (b: bool)
    ensures b <==> exists i :: 0 <= i < |matched| && matched[i].requiresAuth
  {
    if matched == [] then false else matched[0].requiresAuth || RequiresAuth(matched[1..])
  }

  /** `to.matched.some(record => record.meta.hideIfAuth)`. */
  function HidesIfAuth(matched: seq<Meta>): (b: bool)
    ensures b <==> exists i :: 0 <= i < |matched| && matched[i].hideIfAuth
  {
    if matched == [] then false else matched[0].hideIfAuth || HidesIfAuth(matched[1..])
  }

  /** What the guard passes to `next`. */
  datatype Decision = Proceed | Redirect(path: string)

  /** The name the page-load tracking reports: `to.name || 'unknown'`. */
  function ViewName(t: Target): (name: string)
    ensures t.name.Some? && t.name.value != "" ==> name == t.name.value
    ensures t.name.None? || t.name.value == "" ==> name == "unknown"
  {
    if t.name.Some? && t.name.value != "" then t.name.value else "unknown"
  }

  /** `beforeEach`: every navigation is tracked as a view load; one that
      needs a signed-in user while nobody is signed in is sent to the login
      page with a warning; one hidden from signed-in users is sent home when
      someone is; everything else proceeds. */
  function Guard(t: Target, authenticated: bool): (r: (Decision, seq<ErrorLog.Call>))
    ensures r.0 == Redirect("/login") <==> RequiresAuth(t.matched) && !authenticated
    ensures r.0 == Redirect("/") <==> HidesIfAuth(t.matched) && authenticated
    ensures r.0 == Proceed <==> !(RequiresAuth(t.matched) && !authenticated) && !(HidesIfAuth(t.matched) && authenticated)
    ensures |r.1| >= 1 && r.1[0] == ErrorLog.Call(ErrorLog.Info, "View loaded: " + ViewName(t))
    ensures |r.1| == (if r.0 == Redirect("/login") then 2 else 1)
  {
    var tracked := ErrorLog.Call(ErrorLog.Info, "View loaded: " + ViewName(t));
    if RequiresAuth(t.matched) && !authenticated then
      (Redirect("/login"), [tracked, ErrorLog.Call(ErrorLog.Warn, "Authentication required for route")])
    else if HidesIfAuth(t.matched) && authenticated then
      (Redirect("/"), [tracked])
    else (Proceed, [tracked])
  }

  /** The guard's own redirects never redirect again: the login page is
      open to everyone signed out and the home page to everyone signed in,
      so no navigation loops. */
  lemma RedirectsSettle(path: string, authenticated: bool)
    ensures var d := Guard(Navigate(path), authenticated).0;
      d.Redirect? ==> Guard(Navigate(d.path), authenticated).0 == Proceed
  {
    var d := Guard(Navigate(path), authenticated).0;
    if d.Redirect? {
      var m := Navigate(d.path).matched;
      assert m == [Resolve(d.path).meta];
      ProtectedRoutes(Resolve(d.path));
      assert !RequiresAuth(m) && (authenticated ==> !HidesIfAuth(m));
    }
  }

  /** A signed-in user reaches every page but login and registration; a
      signed-out user reaches every page but the profile list and matching. */
  lemma WhoReachesWhat(path: string, authenticated: bool)
    ensures Guard(Navigate(path), authenticated).0 == Proceed <==>
      if authenticated then path != "/login" && path != "/register"
      else path != "/profiles" && path != "/matching"
  {
    var r := Resolve(path);
    ProtectedRoutes(r);
    assert Navigate(path).matched == [r.meta];
  }

  /** A scroll position. */
  datatype Position = Position(left: int, top: int)

  /** What `scrollBehavior` asks for: a position, or only `top`. */
  datatype Scroll = Restore(position: Position) | Top(top: int)

  /** `scrollBehavior`: back and forward restore the saved position; every
      other navigation scrolls to the top. */
  function ScrollBehavior(saved: Option<Position>): (s: Scroll)
    ensures saved.Some? <==> s.Restore?
    ensures saved.Some? ==> s.position == saved.value
    ensures saved.None? ==> s == Top(0)
  {
    match saved
    case Some(p) => Restore(p)
    case None => Top(0)
  }
}
