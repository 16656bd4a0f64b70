/**
 * The route guard in front of the dashboard: it lets the page render when
 * either session cookie is present and sends the user to sign in otherwise.
 * Cookie values are inputs; an empty cookie counts as absent.
 */
module ProtectedRoute {
  import opened LibraryTypes

  datatype RouteDecision = RedirectTo(path: string, replace: bool) | RenderChildren

  /** The guard: children render when either token is present, else a replacing redirect to "/signin". */
  function Guard(accessToken: Option<string>, refreshToken: Option<string>): (d: RouteDecision)
    ensures d == RenderChildren <==> HasToken(accessToken) || HasToken(refreshToken)
    ensures d.RedirectTo? ==> d == RedirectTo("/signin", true)
  {
    if !HasToken(accessToken) && !HasToken(refreshToken) then RedirectTo("/signin", true)
    else RenderChildren
  }

  /**
   * Only presence matters: two sessions whose cookies are present or absent
   * alike get the same decision, whatever the values (no expiry is checked).
   */
  lemma GuardIgnoresTokenValues(a1: Option<string>, r1: Option<string>, a2: Option<string>, r2: Option<string>)
    requires HasToken(a1) == HasToken(a2) && HasToken(r1) == HasToken(r2)
    ensures Guard(a1, r1) == Guard(a2, r2)
  {
  }
}
