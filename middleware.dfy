/** `src/middleware.ts`: which requests reach the admin pages. next-auth's
    `withAuth` first asks `authorized`; a refusal sends the visitor to the
    sign-in page, otherwise the `middleware` function decides. */
module Middleware {
  import opened Common

  const LOGIN := "/admin/login"
  const ADMIN := "/admin"

  datatype Decision = Next | Redirect(to: string)

  /** The `authorized` callback. */
  function Authorized(pathname: string, hasToken: bool): (ok: bool)
    ensures pathname == LOGIN ==> ok
    ensures StartsWith(pathname, "/api/") ==> ok
    ensures pathname != LOGIN && !StartsWith(pathname, "/api/") && StartsWith(pathname, ADMIN) ==> (ok <==> hasToken)
    ensures !StartsWith(pathname, ADMIN) ==> ok
  {
    if pathname == LOGIN then true
    else if StartsWith(pathname, "/api/") then true
    else if StartsWith(pathname, ADMIN) then hasToken
    else true
  }

  /** The `middleware` function. */
  function Handle(pathname: string, hasToken: bool): (d: Decision)
    ensures pathname == LOGIN ==> (d == if hasToken then Redirect(ADMIN) else Next)
    ensures pathname != LOGIN && StartsWith(pathname, ADMIN) && !hasToken ==> d == Redirect(LOGIN)
    ensures d.Redirect? ==> d.to == ADMIN || d.to == LOGIN
    ensures !StartsWith(pathname, ADMIN) ==> d == Next
    ensures hasToken && pathname != LOGIN ==> d == Next
  {
    if pathname == LOGIN then (if hasToken then Redirect(ADMIN) else Next)
    else if StartsWith(pathname, ADMIN) && !hasToken then Redirect(LOGIN)
    else Next
  }

  /** `matcher: ['/admin/:path*']`: `/admin` itself and every path below it. */
  predicate Matched(pathname: string) {
    pathname == ADMIN || StartsWith(pathname, ADMIN + "/")
  }

  /** The whole decision for a request: unmatched paths pass untouched; a
      refusal by `authorized` goes to the sign-in page. */
  function Route(pathname: string, hasToken: bool): (d: Decision)
    ensures !Matched(pathname) ==> d == Next
    ensures Matched(pathname) && pathname != LOGIN && !hasToken ==> d == Redirect(LOGIN)
    ensures Matched(pathname) && pathname == LOGIN && hasToken ==> d == Redirect(ADMIN)
    ensures hasToken && pathname != LOGIN ==> d == Next
    ensures pathname == LOGIN && !hasToken ==> d == Next
  {
    if !Matched(pathname) then Next
    else if !Authorized(pathname, hasToken) then Redirect(LOGIN)
    else Handle(pathname, hasToken)
  }

  /** Every matched path starts with `/admin`, so no `/api/` path ever
      reaches the callbacks. */
  lemma MatchedIsAdmin(pathname: string)
    requires Matched(pathname)
    ensures StartsWith(pathname, ADMIN) && !StartsWith(pathname, "/api/")
  {
    if pathname != ADMIN {
      assert pathname[..|ADMIN|] == (ADMIN + "/")[..|ADMIN|];
    }
    assert pathname[2] == 'd';
    assert "/api/"[2] == 'p';
  }

  /** On matched paths `authorized` already refuses exactly the requests
      the middleware would send to the sign-in page, so that branch of the
      middleware never decides anything. */
  lemma LoginRedirectIsAuthorized(pathname: string, hasToken: bool)
    requires Matched(pathname)
    ensures !Authorized(pathname, hasToken) <==> Handle(pathname, hasToken) == Redirect(LOGIN)
  {
    MatchedIsAdmin(pathname);
  }
}
