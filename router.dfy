/** The front end's route table and its global `beforeEach` guard. Redirect
    records are resolved before the guard runs, so the guard only ever sees
    page routes, or an unmatched location with empty meta. */
module Router {
  import opened Values

  /** `meta` of a route; a missing flag is `false`. */
  datatype Meta = Meta(requiresAuth: bool, requiresGuest: bool)

  const NoMeta := Meta(false, false)
  const GuestOnly := Meta(false, true)
  const AuthOnly := Meta(true, false)

  datatype RouteRecord =
    | Redirect(path: string, target: string)
    | Page(path: string, name: string, meta: Meta)

  /** The `routes` array, in order. */
  function Routes(): seq<RouteRecord> {
    [ Redirect("/", "/cards"),
      Page("/login", "Login", GuestOnly),
      Page("/register", "Register", GuestOnly),
      Page("/cards", "Cards", AuthOnly),
      Page("/scan", "Scan", AuthOnly),
      Page("/home", "Home", AuthOnly),
      Page("/users", "Users", AuthOnly),
      Page("/db-viewer", "DatabaseViewer", AuthOnly) ]
  }

  /** The pages only a visitor who is not signed in may open. */
  const GuestPages: set<string> := {"Login", "Register"}

  /** The pages that need a signed-in user. */
  const AuthPages: set<string> := {"Cards", "Scan", "Home", "Users", "DatabaseViewer"}

  /** The facts the table is meant to carry: the root redirects to the card
      list, no page is both guest-only and signed-in-only, and the two kinds
      of page are exactly the ones listed above. */
  lemma RouteTableShape()
    ensures Routes()[0] == Redirect("/", "/cards")
    ensures forall r :: r in Routes() && r.Page? ==> !(r.meta.requiresAuth && r.meta.requiresGuest)
    ensures forall r :: r in Routes() && r.Page? && r.meta.requiresGuest ==> r.name in GuestPages
    ensures forall r :: r in Routes() && r.Page? && r.meta.requiresAuth ==> r.name in AuthPages
    ensures forall n :: n in GuestPages ==> exists r :: r in Routes() && r.Page? && r.name == n && r.meta == GuestOnly
    ensures forall n :: n in AuthPages ==> exists r :: r in Routes() && r.Page? && r.name == n && r.meta == AuthOnly
  {
    var rs := Routes();
    assert rs[1].name == "Login" && rs[2].name == "Register";
    assert rs[3].name == "Cards" && rs[4].name == "Scan" && rs[5].name == "Home";
    assert rs[6].name == "Users" && rs[7].name == "DatabaseViewer";
  }

  /** `c` with an ASCII capital folded to lower case. */
  function LowerChar(c: char): char {
    if 'A' <= c <= 'Z' then (c as int + 32) as char else c
  }

  /** A request path with its one optional trailing `/` removed. */
  function TrimSlash(path: string): string {
    if |path| >= 2 && path[|path| - 1] == '/' && path[|path| - 2] != '/' then path[..|path| - 1] else path
  }

  /** The text a request path is compared with: `createRouter` is called
      without `sensitive` or `strict`, so case is ignored (only ASCII letters
      fold: the route paths are ASCII) and one trailing `/` is optional. */
  function MatchKey(path: string): (k: string)
    ensures |k| == |TrimSlash(path)|
    ensures forall i :: 0 <= i < |k| ==> k[i] == LowerChar(TrimSlash(path)[i])
  {
    var p := TrimSlash(path);
    seq(|p|, i requires 0 <= i < |p| => LowerChar(p[i]))
  }

  /** The first record whose path the request path matches. */
  function Lookup(rs: seq<RouteRecord>, path: string): (r: Option<RouteRecord>)
    ensures r.Some? ==> r.value in rs && r.value.path == MatchKey(path)
    ensures r.None? ==> forall x :: x in rs ==> x.path != MatchKey(path)
  {
    if rs == [] then None
    else if rs[0].path == MatchKey(path) then Some(rs[0])
    else Lookup(rs[1..], path)
  }

  /** The resolved target of a navigation (`to`): its name, its full path
      and its meta. */
  datatype Location = Location(name: Option<string>, fullPath: string, meta: Meta)

  function PageLocation(r: RouteRecord, fullPath: string): Location
    requires r.Page?
  {
    Location(Some(r.name), fullPath, r.meta)
  }

  /** Matching `path` against the table, following a redirect record once;
      the full path stays the one requested, or becomes the redirect target. */
  function Resolve(path: string): (l: Location)
    ensures Lookup(Routes(), path).None? ==> l == Location(None, path, NoMeta)
    ensures Lookup(Routes(), path).Some? && Lookup(Routes(), path).value.Page? ==>
      var r := Lookup(Routes(), path).value;
      l == Location(Some(r.name), path, r.meta)
    ensures l.name.Some? ==>
      exists p :: p in Routes() && p.Page? && p.name == l.name.value && p.meta == l.meta
  {
    match Lookup(Routes(), path)
    case None => Location(None, path, NoMeta)
    case Some(r) =>
      if r.Page? then PageLocation(r, path)
      else match Lookup(Routes(), r.target)
        case Some(p) => if p.Page? then PageLocation(p, r.target) else Location(None, r.target, NoMeta)
        case None => Location(None, r.target, NoMeta)
  }

  /** The page a named navigation such as `{name: 'Login'}` reaches. */
  function Named(name: string): Location {
    if name == "Login" then PageLocation(Routes()[1], "/login")
    else if name == "Cards" then PageLocation(Routes()[3], "/cards")
    else Location(Some(name), "", NoMeta)
  }

  /** What the guard passes to `next`: nothing, or a named location with an
      optional `redirect` query parameter. */
  datatype NextArg = Proceed | NextTo(name: string, redirect: Option<string>)

  /** `beforeEach`: exactly one call of `next` per navigation. */
  function BeforeEach(to: Location, authenticated: bool): (g: NextArg)
    ensures g == NextTo("Login", Some(to.fullPath)) <==> to.meta.requiresAuth && !authenticated
    ensures g == NextTo("Cards", None) <==> to.meta.requiresGuest && authenticated
    ensures g == Proceed <==>
      !(to.meta.requiresAuth && !authenticated) && !(to.meta.requiresGuest && authenticated)
  {
    if to.meta.requiresAuth && !authenticated then NextTo("Login", Some(to.fullPath))
    else if to.meta.requiresGuest && authenticated then NextTo("Cards", None)
    else Proceed
  }

  /** The guard never bounces twice: wherever it sends a navigation, the
      next navigation is let through. */
  lemma RedirectsSettle(to: Location, authenticated: bool)
    ensures var g := BeforeEach(to, authenticated);
      g.NextTo? ==> BeforeEach(Named(g.name), authenticated) == Proceed
  {
    assert Named("Login").meta == GuestOnly;
    assert Named("Cards").meta == AuthOnly;
  }

  /** Opening the root while signed out ends at the login page, which then
      sends the user back to `/cards`. */
  lemma RootWhileSignedOut()
    ensures Resolve("/") == Location(Some("Cards"), "/cards", AuthOnly)
    ensures BeforeEach(Resolve("/"), false) == NextTo("Login", Some("/cards"))
    ensures BeforeEach(Named("Login"), false) == Proceed
  {
    var rs := Routes();
    assert rs[0].path == "/";
    var root := MatchKey("/");
    assert TrimSlash("/") == "/";
    assert |root| == 1 && root[0] == '/';
    assert root == "/";
    assert Lookup(rs, "/") == Some(rs[0]);
    var cards := MatchKey("/cards");
    assert TrimSlash("/cards") == "/cards";
    assert |cards| == 6;
    assert cards[0] == '/' && cards[1] == 'c' && cards[2] == 'a' && cards[3] == 'r' && cards[4] == 'd' && cards[5] == 's';
    assert cards == "/cards";
    assert rs[1..][0].path != "/cards" by { assert rs[1].path[1] != "/cards"[1]; }
    assert rs[2..][0].path != "/cards" by { assert rs[2].path[1] != "/cards"[1]; }
    assert rs[0].path != "/cards";
    assert Lookup(rs, "/cards") == Some(rs[3]) by {
      assert Lookup(rs, "/cards") == Lookup(rs[1..], "/cards");
      assert rs[1..][1..] == rs[2..];
      assert rs[2..][1..] == rs[3..];
    }
  }

  /** Case and one trailing slash do not matter: `/Cards/` while signed out
      reaches the card list's guard and goes to Login. */
  lemma CaseAndTrailingSlashIgnored()
    ensures Resolve("/Cards/") == Location(Some("Cards"), "/Cards/", AuthOnly)
    ensures BeforeEach(Resolve("/Cards/"), false) == NextTo("Login", Some("/Cards/"))
  {
    var rs := Routes();
    var key := MatchKey("/Cards/");
    assert TrimSlash("/Cards/") == "/Cards";
    assert |key| == 6;
    assert key[0] == '/' && key[1] == 'c' && key[2] == 'a' && key[3] == 'r' && key[4] == 'd' && key[5] == 's';
    assert key == "/cards";
    assert rs[0].path != "/cards";
    assert rs[1..][0].path != "/cards" by { assert rs[1].path[1] != "/cards"[1]; }
    assert rs[2..][0].path != "/cards" by { assert rs[2].path[1] != "/cards"[1]; }
    assert Lookup(rs, "/Cards/") == Some(rs[3]) by {
      assert Lookup(rs, "/Cards/") == Lookup(rs[1..], "/Cards/");
      assert rs[1..][1..] == rs[2..];
      assert rs[2..][1..] == rs[3..];
    }
  }
}
