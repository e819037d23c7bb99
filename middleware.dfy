/** The redirect decision the session middleware takes for every request, given the
    request path, whether the query has a `code` parameter and whether the identity
    provider returned a user. */
module SessionMiddleware {
  import opened Common

  const OAuthCallbackPath: string := "/auth/google"
  const LandingPath: string := "/"
  const PublicPages: seq<string> := ["/team"]
  const AuthPrefix: string := "/auth"
  const LoginPath: string := "/auth/login"
  const DashboardPath: string := "/lumon/dashboard"

  datatype Decision =
    | Bypass              // the OAuth callback: passed on before the session is touched
    | Continue            // passed on with the refreshed session cookies
    | Redirect(path: string)

  function Route(path: string, hasCode: bool, hasUser: bool): Decision
  {
    if path == OAuthCallbackPath && hasCode then Bypass
    else if !hasUser && (path == LandingPath || path in PublicPages) then Continue
    else if !hasUser && !StartsWith(path, AuthPrefix) then Redirect(LoginPath)
    else if hasUser && (path == LandingPath || StartsWith(path, AuthPrefix)) then Redirect(DashboardPath)
    else Continue
  }

  /** Who is sent where: the complete table of the decision. */
  lemma RouteTable(path: string, hasCode: bool, hasUser: bool)
    ensures var d := Route(path, hasCode, hasUser);
      var callback := path == OAuthCallbackPath && hasCode;
      && (d == Bypass <==> callback)
      && (d == Redirect(LoginPath) <==>
            !callback && !hasUser && path != LandingPath && path != "/team" && !StartsWith(path, AuthPrefix))
      && (d == Redirect(DashboardPath) <==>
            !callback && hasUser && (path == LandingPath || StartsWith(path, AuthPrefix)))
      && (d.Redirect? ==> d.path == LoginPath || d.path == DashboardPath)
  {
    assert StartsWith(OAuthCallbackPath, AuthPrefix);
  }

  /** Following a redirect never leads to another one, for either kind of visitor. */
  lemma {:induction false} RedirectsSettle(path: string, hasCode: bool, hasUser: bool, hasCode': bool)
    requires Route(path, hasCode, hasUser).Redirect?
    ensures !Route(Route(path, hasCode, hasUser).path, hasCode', hasUser).Redirect?
  {
    assert StartsWith(LoginPath, AuthPrefix) by { assert LoginPath[..|AuthPrefix|] == AuthPrefix; }
    assert !StartsWith(DashboardPath, AuthPrefix) by { assert DashboardPath[1] != AuthPrefix[1]; }
  }

  /** The prefix test admits every path that begins with "/auth" to signed-out visitors,
      not only the pages under "/auth/". */
  lemma AuthPrefixIsLoose()
    ensures Route("/authors", false, false) == Continue
    ensures Route("/lumon/dashboard", false, false) == Redirect(LoginPath)
  {
    assert "/authors"[..5] == AuthPrefix;
    assert "/lumon/dashboard"[1] != AuthPrefix[1];
  }
}
