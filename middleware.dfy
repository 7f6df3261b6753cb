/** The request-time route guard (src/middleware.ts): from the request path
    and the presence of the session cookie alone it lets the request
    through or redirects it. The cookie's content is never inspected. */
module Middleware {
  import opened Common

  const SessionCookie := "next-auth.session-token"
  const LoginPath := "/login"
  const RegisterPath := "/register"
  const DashboardPath := "/dashboard"

  /** `NextResponse.next()` or `NextResponse.redirect(new URL(path, request.url))`. */
  datatype Response = Next | Redirect(path: string)

  /** The two public paths, compared by exact string equality. */
  predicate IsPublicPath(path: string)
  {
    path == LoginPath || path == RegisterPath
  }

  /** `request.cookies.get(SessionCookie)?.value || ''` */
  function Token(cookies: map<string, string>): string
  {
    if SessionCookie in cookies then cookies[SessionCookie] else ""
  }

  /** What the guard takes for "logged in": a session cookie with a
      non-empty value, whatever that value is. */
  predicate HasSession(cookies: map<string, string>)
  {
    Truthy(if SessionCookie in cookies then Some(cookies[SessionCookie]) else None)
  }

  /** The `middleware` function: two guarded redirects, otherwise continue. */
  function Decide(path: string, cookies: map<string, string>): (r: Response)
    ensures r == Redirect(DashboardPath) <==> IsPublicPath(path) && HasSession(cookies)
    ensures r == Redirect(LoginPath) <==> !IsPublicPath(path) && !HasSession(cookies)
    ensures r == Next <==> IsPublicPath(path) != HasSession(cookies)
  {
    var isPublicPath := IsPublicPath(path);
    var token := Token(cookies);
    if isPublicPath && token != "" then Redirect(DashboardPath)
    else if !isPublicPath && token == "" then Redirect(LoginPath)
    else Next
  }

  /** `config.matcher`: '/dashboard/:path*', '/login' and '/register'. */
  predicate Intercepted(path: string)
  {
    path == DashboardPath || StartsWith(path, DashboardPath + "/")
    || path == LoginPath || path == RegisterPath
  }

  /** What a request to `path` gets: paths outside the matcher never reach
      the middleware and are let through. */
  function Handle(path: string, cookies: map<string, string>): (r: Response)
    ensures !Intercepted(path) ==> r == Next
    ensures r.Redirect? ==> r.path == DashboardPath || r.path == LoginPath
  {
    if Intercepted(path) then Decide(path, cookies) else Next
  }

  /** Every intercepted path that is not public lies under /dashboard. */
  lemma ProtectedPathsAreDashboard(path: string)
    requires Intercepted(path) && !IsPublicPath(path)
    ensures path == DashboardPath || StartsWith(path, DashboardPath + "/")
  {
  }

  /** No redirect loop: with the same cookies, the target of either redirect
      is intercepted and let through. */
  lemma NoRedirectLoop(path: string, cookies: map<string, string>)
    requires Handle(path, cookies).Redirect?
    ensures Intercepted(Handle(path, cookies).path)
    ensures Handle(Handle(path, cookies).path, cookies) == Next
  {
    var target := Handle(path, cookies).path;
    if target == DashboardPath {
      assert !IsPublicPath(target);
    } else {
      assert IsPublicPath(target);
    }
  }

  /** Only the presence of a non-empty session cookie matters: a missing
      cookie and an empty one are alike, any two non-empty values are alike,
      and no other cookie is read. */
  lemma OnlySessionPresenceMatters(path: string, c1: map<string, string>, c2: map<string, string>)
    requires HasSession(c1) == HasSession(c2)
    ensures Handle(path, c1) == Handle(path, c2)
  {
  }

  /** Concrete guard cases: /dashboard without a session goes to /login,
      /login with one goes to /dashboard, /login without one and
      /dashboard/settings with one pass; "/login/" and "/dashboard" are not
      public. */
  lemma GuardExamples(token: string)
    requires token != ""
    ensures Handle("/dashboard", map[]) == Redirect("/login")
    ensures Handle("/login", map[SessionCookie := token]) == Redirect("/dashboard")
    ensures Handle("/login", map[]) == Next
    ensures Handle("/dashboard/settings", map[SessionCookie := token]) == Next
    ensures !IsPublicPath("/login/") && !IsPublicPath("/dashboard")
  {
    assert StartsWith("/dashboard/settings", DashboardPath + "/");
  }
}
