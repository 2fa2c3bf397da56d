/**
 * The route guard of the session middleware: given whether a user is
 * signed in and the request URL, either let the request through or
 * redirect to a clone of the URL whose pathname is replaced.
 */
module RouteGuard {

  /** A request URL: everything but the pathname is kept by a redirect. */
  datatype Url = Url(origin: string, pathname: string, search: string)

  datatype GuardResult = PassThrough | Redirect(location: Url)

  const LoginPath: string := "/login"
  const HomePath: string := "/"
  const AuthPrefix: string := "/auth/"

  /** Paths a signed-out user may visit: the landing page, the login page and the auth callbacks. */
  predicate IsPublicPath(path: string)
    ensures IsPublicPath(path) ==> path != [] && path[0] == '/'
    ensures path == "/auth" || path == "/login/" ==> !IsPublicPath(path)
  {
    assert |"/auth"| < |AuthPrefix| && "/login/"[1] != AuthPrefix[1];
    path == HomePath || path == LoginPath || AuthPrefix <= path
  }

  /** `url.clone()` with `pathname` replaced. */
  function WithPathname(url: Url, path: string): (r: Url)
    ensures r.pathname == path
    ensures r.origin == url.origin && r.search == url.search
  {
    url.(pathname := path)
  }

  /** The decision of `updateSession` once the user is known. */
  function Guard(signedIn: bool, url: Url): (r: GuardResult)
    ensures r.Redirect? ==> r.location == WithPathname(url, r.location.pathname)
    ensures !signedIn ==> (r.Redirect? <==> !IsPublicPath(url.pathname))
    ensures !signedIn && r.Redirect? ==> r.location.pathname == LoginPath
    ensures signedIn ==> (r.Redirect? <==> url.pathname == LoginPath)
    ensures signedIn && r.Redirect? ==> r.location.pathname == HomePath
  {
    if !signedIn && !IsPublicPath(url.pathname) then Redirect(WithPathname(url, LoginPath))
    else if signedIn && url.pathname == LoginPath then Redirect(WithPathname(url, HomePath))
    else PassThrough
  }

  /**
   * The guard never loops: a redirect goes to a different path, and the
   * request that follows the redirect passes through.
   */
  lemma GuardNeverLoops(signedIn: bool, url: Url)
    requires Guard(signedIn, url).Redirect?
    ensures Guard(signedIn, url).location.pathname != url.pathname
    ensures Guard(signedIn, Guard(signedIn, url).location) == PassThrough
  {
    assert LoginPath[1] != AuthPrefix[1];
    assert HomePath[1..] == [];
  }

  /** Concrete paths: "/history" needs a user, "/auth/callback" does not, "/auth" without the slash does. */
  lemma GuardExamples(url: Url)
    ensures Guard(false, url.(pathname := "/history")) == Redirect(url.(pathname := "/login"))
    ensures Guard(false, url.(pathname := "/")) == PassThrough
    ensures Guard(false, url.(pathname := "/login")) == PassThrough
    ensures Guard(false, url.(pathname := "/auth/callback")) == PassThrough
    ensures Guard(false, url.(pathname := "/auth")).Redirect?
    ensures Guard(true, url.(pathname := "/login")) == Redirect(url.(pathname := "/"))
    ensures Guard(true, url.(pathname := "/history")) == PassThrough
  {
    assert AuthPrefix <= "/auth/callback";
    assert !(AuthPrefix <= "/auth");
    assert "/history"[1] != AuthPrefix[1];
  }
}
