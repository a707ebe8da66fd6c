/**
 * Route guarding: the guard component that every dashboard, exam and
 * profile page is wrapped in, and the route table that says which role
 * each path requires.
 */
module Routing {
  import opened Wrappers
  import Login

  /** What the guard renders: a spinner, a redirect, or the guarded page itself. */
  datatype Outcome = Spinner | Redirect(path: string) | Render

  /** The part of the auth context the guard reads. */
  datatype Auth = Auth(loading: bool, signedIn: bool, role: Option<string>)

  /**
   * The guard: a spinner while the session is loading, the login page when
   * nobody is signed in, the user dashboard for a non-admin on an admin
   * page, the admin dashboard for an admin on a user page, and the page
   * otherwise.
   */
  function Guard(auth: Auth, requiredRole: string): (r: Outcome)
    ensures r == Spinner <==> auth.loading
    ensures r == Redirect("/login") <==> !auth.loading && !auth.signedIn
    ensures r == Render <==>
      !auth.loading && auth.signedIn
      && (requiredRole == "admin" ==> auth.role == Some("admin"))
      && (requiredRole == "user" ==> auth.role != Some("admin"))
    ensures (!auth.loading && auth.signedIn && requiredRole == "admin" && auth.role != Some("admin"))
      ==> r == Redirect("/user/dashboard")
    ensures (!auth.loading && auth.signedIn && requiredRole == "user" && auth.role == Some("admin"))
      ==> r == Redirect("/admin/dashboard")
  {
    if auth.loading then Spinner
    else if !auth.signedIn then Redirect("/login")
    else if requiredRole == "admin" && auth.role != Some("admin") then Redirect("/user/dashboard")
    else if requiredRole == "user" && auth.role == Some("admin") then Redirect("/admin/dashboard")
    else Render
  }

  /** The role the route table requires for a path; None for a public path. */
  function RequiredRole(path: string): Option<string> {
    if path in {"/admin/dashboard", "/admin/kyc", "/admin/questions", "/admin/blog"} then Some("admin")
    else if path in {"/user/dashboard", "/profile", "/practice", "/exam"} then Some("user")
    else None
  }

  predicate IsPublic(path: string) {
    path in {"/", "/signup", "/login"}
  }

  /** Opening a path: public pages render, guarded ones go through the guard, any other path goes to `/`. */
  function Visit(path: string, auth: Auth): (r: Outcome)
    ensures IsPublic(path) ==> r == Render
    ensures RequiredRole(path).Some? ==> r == Guard(auth, RequiredRole(path).value)
    ensures !IsPublic(path) && RequiredRole(path).None? ==> r == Redirect("/")
  {
    if IsPublic(path) then Render
    else if RequiredRole(path).Some? then Guard(auth, RequiredRole(path).value)
    else Redirect("/")
  }

  /** Nobody but an administrator ever sees an admin page, and an administrator never sees a user page. */
  lemma RolesSeparated(path: string, auth: Auth)
    ensures Visit(path, auth) == Render && RequiredRole(path) == Some("admin") ==> auth.role == Some("admin")
    ensures Visit(path, auth) == Render && RequiredRole(path) == Some("user") ==> auth.signedIn && auth.role != Some("admin")
  {
  }

  /**
   * Redirects settle after one hop: once the session has loaded, the page a
   * redirect leads to renders under the same auth state.
   */
  lemma RedirectsSettle(path: string, auth: Auth)
    requires !auth.loading
    ensures Visit(path, auth).Redirect? ==> Visit(Visit(path, auth).path, auth) == Render
  {
    var r := Visit(path, auth);
    if r.Redirect? {
      if RequiredRole(path).Some? {
        var required := RequiredRole(path).value;
        if r.path == "/user/dashboard" {
          assert RequiredRole("/user/dashboard") == Some("user");
        } else if r.path == "/admin/dashboard" {
          assert RequiredRole("/admin/dashboard") == Some("admin");
        } else {
          assert r.path == "/login" && IsPublic("/login");
        }
      } else {
        assert IsPublic("/");
      }
    }
  }

  /** The dashboard the login page sends a user to after signing in renders for that user. */
  lemma SignInLandsOnItsDashboard(role: Option<string>)
    ensures Visit(Login.PathOf(Login.RouteAfterSignIn(role)), Auth(false, true, role)) == Render
  {
    if role == Some("admin") {
      assert RequiredRole("/admin/dashboard") == Some("admin");
    } else {
      assert RequiredRole("/user/dashboard") == Some("user");
    }
  }
}
