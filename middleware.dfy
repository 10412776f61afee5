/**
 * Route protection (src/middleware.ts): signed-in visitors are sent away from
 * the sign-in pages, anonymous visitors away from the private pages, and
 * every other request passes through. Whether the session token is present
 * is an input.
 */
module Middleware {
  import opened Wrappers
  import opened Strings

  /** What the middleware answers: pass the request on, or redirect to a path with an optional `callbackUrl` query parameter. */
  datatype Decision = Next | Redirect(location: string, callbackUrl: Option<string>)

  /** `isAuthPage`: the sign-in, sign-up and password pages and everything below them. */
  predicate IsAuthPage(pathname: string)
  {
    StartsWith(pathname, "/sign-in") || StartsWith(pathname, "/sign-up")
    || StartsWith(pathname, "/forgot-password") || StartsWith(pathname, "/reset-password")
  }

  /** `isProtectedRoute`: the dashboard and the user API. */
  predicate IsProtectedRoute(pathname: string)
  {
    StartsWith(pathname, "/dashboard") || StartsWith(pathname, "/api/user")
  }

  /** `middleware`: the redirect for a signed-in visitor on an auth page, then for an anonymous one on a protected page. */
  function Middleware(pathname: string, isAuthenticated: bool): (r: Decision)
    ensures r == Redirect("/dashboard", None) <==> isAuthenticated && IsAuthPage(pathname)
    ensures r == Redirect("/sign-in", Some(pathname)) <==> !isAuthenticated && IsProtectedRoute(pathname)
    ensures r == Next <==> !(isAuthenticated && IsAuthPage(pathname)) && !(!isAuthenticated && IsProtectedRoute(pathname))
  {
    if isAuthenticated && IsAuthPage(pathname) then Redirect("/dashboard", None)
    else if !isAuthenticated && IsProtectedRoute(pathname) then Redirect("/sign-in", Some(pathname))
    else Next
  }

  /** The second character of a path tells the two sets apart. */
  lemma SecondChar(pathname: string, prefix: string)
    requires |prefix| >= 2 && StartsWith(pathname, prefix)
    ensures pathname[1] == prefix[1]
  {
    assert pathname[..|prefix|][1] == prefix[1];
  }

  /** No path is both an auth page and a protected page. */
  lemma PageSetsDisjoint(pathname: string)
    ensures !(IsAuthPage(pathname) && IsProtectedRoute(pathname))
  {
    if StartsWith(pathname, "/dashboard") {
      SecondChar(pathname, "/dashboard");
      NotAuthPage(pathname);
    } else if StartsWith(pathname, "/api/user") {
      SecondChar(pathname, "/api/user");
      NotAuthPage(pathname);
    }
  }

  /** A path whose second character is `d` or `a` is no auth page. */
  lemma NotAuthPage(pathname: string)
    requires |pathname| >= 2 && (pathname[1] == 'd' || pathname[1] == 'a')
    ensures !IsAuthPage(pathname)
  {
    if StartsWith(pathname, "/sign-in") { SecondChar(pathname, "/sign-in"); }
    if StartsWith(pathname, "/sign-up") { SecondChar(pathname, "/sign-up"); }
    if StartsWith(pathname, "/forgot-password") { SecondChar(pathname, "/forgot-password"); }
    if StartsWith(pathname, "/reset-password") { SecondChar(pathname, "/reset-password"); }
  }

  /** A path whose second character is `s`, `f` or `r` is not protected. */
  lemma NotProtected(pathname: string)
    requires |pathname| >= 2 && (pathname[1] == 's' || pathname[1] == 'f' || pathname[1] == 'r')
    ensures !IsProtectedRoute(pathname)
  {
    if StartsWith(pathname, "/dashboard") { SecondChar(pathname, "/dashboard"); }
    if StartsWith(pathname, "/api/user") { SecondChar(pathname, "/api/user"); }
  }

  /** A path is redirected for at most one kind of visitor, so signing in or out always lets it through. */
  lemma AtMostOneRedirect(pathname: string)
    ensures Middleware(pathname, true) == Next || Middleware(pathname, false) == Next
  {
    PageSetsDisjoint(pathname);
  }

  /** Following a redirect with the same session passes through: the middleware never redirects twice in a row. */
  lemma RedirectTargetPasses(pathname: string, isAuthenticated: bool)
    requires Middleware(pathname, isAuthenticated).Redirect?
    ensures Middleware(Middleware(pathname, isAuthenticated).location, isAuthenticated) == Next
  {
    if isAuthenticated {
      NotAuthPage("/dashboard");
    } else {
      NotProtected("/sign-in");
    }
  }
}
