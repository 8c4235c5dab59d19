/** The client's authentication state (contexts/AuthProvider.tsx), the two
    route guards (components/ProtectedRoute.tsx, components/AuthedRoute.tsx),
    the `from` location of pages/Login.tsx and the link filter and auth
    button of components/Navbar.tsx. */
module Session {
  import opened Json

  /** The storage entry a session is restored from: `token` as a non-empty
      string, `user` as an object; anything else restores as nothing. */
  function RestoredToken(storage: map<string, Json>): Option<string>
  {
    if "token" in storage && storage["token"].JStr? && storage["token"].s != "" then Some(storage["token"].s)
    else None
  }

  function RestoredUser(storage: map<string, Json>): Option<Object>
  {
    if "user" in storage && storage["user"].JObj? then Some(storage["user"].fields) else None
  }

  /** `!!token`. */
  function TruthyToken(token: Option<string>): Option<string>
  {
    if token.Some? && token.value != "" then token else None
  }

  /** The auth context: token and user state, and the browser storage they
      are persisted in. */
  class AuthSession {
    var token: Option<string>
    var user: Option<Object>
    var storage: map<string, Json>

    /** The state a reload would restore is the current one, up to the
        truthiness of the token. */
    predicate Persisted()
      reads this
    {
      RestoredToken(storage) == TruthyToken(token) && RestoredUser(storage) == user
    }

    /** `isAuthenticated: !!token && !!user`. */
    predicate IsAuthenticated()
      reads this
    {
      TruthyToken(token).Some? && user.Some?
    }

    /** The initial state is read from the `token` and `user` keys. */
    constructor (storage: map<string, Json>)
      ensures this.storage == storage
      ensures token == RestoredToken(storage) && user == RestoredUser(storage)
      ensures Persisted()
    {
      this.storage := storage;
      token := RestoredToken(storage);
      user := RestoredUser(storage);
    }

    /** login: sets both and writes both keys. */
    method Login(newToken: string, newUser: Object)
      modifies this
      ensures token == Some(newToken) && user == Some(newUser)
      ensures storage == old(storage)["token" := JStr(newToken)]["user" := JObj(newUser)]
      ensures Persisted()
      ensures newToken != "" ==> IsAuthenticated()
    {
      token := Some(newToken);
      user := Some(newUser);
      storage := storage["token" := JStr(newToken)];
      storage := storage["user" := JObj(newUser)];
    }

    /** logout: clears both and removes both keys; other keys stay. */
    method Logout()
      modifies this
      ensures token.None? && user.None?
      ensures storage == old(storage) - {"token", "user"}
      ensures Persisted() && !IsAuthenticated()
    {
      token := None;
      user := None;
      storage := storage - {"token", "user"};
    }

    /** updateProfile: `{ ...user, ...profile }`, persisted under `user`
        only; the token stays. Without a user the profile becomes the user. */
    method UpdateProfile(profile: Object)
      modifies this
      ensures user == Some((if old(user).Some? then old(user).value else map[]) + profile)
      ensures token == old(token)
      ensures storage == old(storage)["user" := JObj(user.value)]
      ensures old(Persisted()) ==> Persisted()
      ensures old(TruthyToken(token)).Some? ==> IsAuthenticated()
    {
      var current: Object := if user.Some? then user.value else map[];
      var updated := current + profile;
      user := Some(updated);
      storage := storage["user" := JObj(updated)];
    }
  }

  /** `isLoading` is always false. */
  const IsLoading: bool := false

  //---------------------------------------------------------------------------
  // Route guards and the redirect back after login
  //---------------------------------------------------------------------------

  /** A location and the state it was navigated to with (`{ from }`). */
  datatype Location = Location(pathname: string, from: Option<Location>)

  /** What a guard renders. */
  datatype View = Loader | Redirect(target: string, replace: bool, state: Option<Location>) | Children

  /** ProtectedRoute: the loader while loading, a redirect to /login that
      remembers the current location when token or user is missing, and the
      children otherwise. */
  function ProtectedRouteView(isLoading: bool, token: Option<string>, user: Option<Object>, location: Location): (v: View)
    ensures isLoading ==> v == Loader
    ensures !isLoading && (TruthyToken(token).None? || user.None?) ==> v == Redirect("/login", true, Some(location))
    ensures v == Children <==> !isLoading && TruthyToken(token).Some? && user.Some?
  {
    if isLoading then Loader
    else if TruthyToken(token).None? || user.None? then Redirect("/login", true, Some(location))
    else Children
  }

  /** AuthedRoute: home when either token or user is present, the children
      otherwise. */
  function AuthedRouteView(token: Option<string>, user: Option<Object>): (v: View)
    ensures v == Children <==> TruthyToken(token).None? && user.None?
    ensures v != Children ==> v == Redirect("/", true, None)
  {
    if TruthyToken(token).Some? || user.Some? then Redirect("/", true, None) else Children
  }

  /** With the provider's constant `isLoading`, ProtectedRoute shows its
      children exactly when the session is authenticated, and never the
      loader. */
  lemma ProtectedRouteFollowsSession(s: AuthSession, location: Location)
    ensures ProtectedRouteView(IsLoading, s.token, s.user, location) == Children <==> s.IsAuthenticated()
    ensures ProtectedRouteView(IsLoading, s.token, s.user, location) != Loader
  {
  }

  /** No state lets both guards render their children; with exactly one of
      token and user, both redirect. */
  lemma GuardsExclusive(token: Option<string>, user: Option<Object>, location: Location)
    ensures !(ProtectedRouteView(IsLoading, token, user, location) == Children && AuthedRouteView(token, user) == Children)
    ensures (TruthyToken(token).Some? && user.None?) || (TruthyToken(token).None? && user.Some?) ==>
      ProtectedRouteView(IsLoading, token, user, location).Redirect? && AuthedRouteView(token, user).Redirect?
  {
  }

  /** `location.state?.from?.pathname || '/'`. */
  function From(location: Location): (p: string)
    ensures p != ""
    ensures location.from.Some? && location.from.value.pathname != "" ==> p == location.from.value.pathname
    ensures !(location.from.Some? && location.from.value.pathname != "") ==> p == "/"
  {
    if location.from.Some? && location.from.value.pathname != "" then location.from.value.pathname else "/"
  }

  /** A user whom ProtectedRoute sent from a page to /login goes back to that
      page: the login page's `from` is the page's path. */
  lemma RedirectRoundTrip(token: Option<string>, user: Option<Object>, page: Location)
    requires TruthyToken(token).None? || user.None?
    requires page.pathname != ""
    ensures var v := ProtectedRouteView(IsLoading, token, user, page);
      v.Redirect? && v.target == "/login" && From(Location(v.target, v.state)) == page.pathname
  {
  }

  //---------------------------------------------------------------------------
  // Navbar
  //---------------------------------------------------------------------------

  datatype NavLink = NavLink(path: string, text: string, authRequired: bool)

  const NavLinks: seq<NavLink> := [
    NavLink("/cars", "My Cars", true),
    NavLink("/profile", "Profile", true),
    NavLink("/change-password", "Change Password", true),
    NavLink("/about", "About", false)
  ]

  /** The links rendered, in declared order: those not requiring
      authentication, and all of them when authenticated. */
  function VisibleLinks(links: seq<NavLink>, isAuthenticated: bool): (r: seq<NavLink>)
    ensures forall l :: l in r <==> l in links && (!l.authRequired || isAuthenticated)
    ensures |r| <= |links|
  {
    if links == [] then []
    else
      var rest := VisibleLinks(links[1..], isAuthenticated);
      if links[0].authRequired && !isAuthenticated then rest else [links[0]] + rest
  }

  /** Signed out, only About shows; signed in, all four in order. */
  lemma NavbarLinks()
    ensures VisibleLinks(NavLinks, false) == [NavLink("/about", "About", false)]
    ensures VisibleLinks(NavLinks, true) == NavLinks
  {
    assert NavLinks[1..][1..][1..][1..] == [];
    assert VisibleLinks(NavLinks[3..], false) == [NavLink("/about", "About", false)];
    assert VisibleLinks(NavLinks[3..], true) == NavLinks[3..];
    assert VisibleLinks(NavLinks[2..], true) == NavLinks[2..];
    assert VisibleLinks(NavLinks[1..], true) == NavLinks[1..];
  }

  /** handleAuthClick: signed in, log out and go home; signed out, go to
      /login without logging out. Returns the path navigated to. */
  method HandleAuthClick(s: AuthSession) returns (navigateTo: string)
    modifies s
    ensures old(s.IsAuthenticated()) ==>
      navigateTo == "/" && s.token.None? && s.user.None? && s.storage == old(s.storage) - {"token", "user"}
    ensures !old(s.IsAuthenticated()) ==>
      navigateTo == "/login" && s.token == old(s.token) && s.user == old(s.user) && s.storage == old(s.storage)
  {
    if s.IsAuthenticated() {
      s.Logout();
      return "/";
    }
    navigateTo := "/login";
  }

  const DefaultAvatar: string := "/default-avatar.png"

  /** `user?.profilePic || '/default-avatar.png'`. */
  function AvatarSrc(user: Option<Object>): (src: Json)
    ensures Truthy(Some(src))
    ensures user.Some? && Truthy(Get(user.value, "profilePic")) ==> src == user.value["profilePic"]
    ensures user.None? || !Truthy(Get(user.value, "profilePic")) ==> src == JStr(DefaultAvatar)
  {
    if user.Some? && Truthy(Get(user.value, "profilePic")) then user.value["profilePic"] else JStr(DefaultAvatar)
  }
}
