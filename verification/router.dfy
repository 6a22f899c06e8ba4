/** The navigation guard of frontend/src/router/index.js: pages that need a
    sign-in send guests to the login page, pages for guests send signed-in
    users to the dashboard. The token is the stored `access` value. */
module Router {
  import opened Common

  /** The guard's view of one matched route record: its meta flags, a
      missing flag being false. */
  datatype RouteRecord = RouteRecord(requiresAuth: bool, guestOnly: bool)

  /** Where the guard sends the navigation. */
  datatype Navigation = ToLogin(redirect: string) | ToDashboard | Proceed

  /** `to.matched.some(record => record.meta?.requiresAuth)`, scanned from
      the outermost record. */
  function SomeRequiresAuth(matched: seq<RouteRecord>): (r: bool)
    ensures r <==> exists i :: 0 <= i < |matched| && matched[i].requiresAuth
    decreases |matched|
  {
    if |matched| == 0 then false
    else if matched[0].requiresAuth then true
    else
      var rest := SomeRequiresAuth(matched[1..]);
      assert forall i :: 1 <= i < |matched| ==> matched[i] == matched[1..][i - 1];
      rest
  }

  /** `to.matched.some(record => record.meta?.guestOnly)`. */
  function SomeGuestOnly(matched: seq<RouteRecord>): (r: bool)
    ensures r <==> exists i :: 0 <= i < |matched| && matched[i].guestOnly
    decreases |matched|
  {
    if |matched| == 0 then false
    else if matched[0].guestOnly then true
    else
      var rest := SomeGuestOnly(matched[1..]);
      assert forall i :: 1 <= i < |matched| ==> matched[i] == matched[1..][i - 1];
      rest
  }

  /** A token counts when it is stored and not empty. */
  predicate HasToken(token: Option<string>) {
    token.Some? && token.value != ""
  }

  /** `router.beforeEach`: the sign-in check first, the guest check second,
      otherwise the navigation goes ahead. */
  function BeforeEach(matched: seq<RouteRecord>, token: Option<string>, fullPath: string): (r: Navigation)
    ensures r.ToLogin? <==> (exists i :: 0 <= i < |matched| && matched[i].requiresAuth) && !HasToken(token)
    ensures r.ToLogin? ==> r.redirect == fullPath
    ensures r.ToDashboard? <==> (exists i :: 0 <= i < |matched| && matched[i].guestOnly) && HasToken(token)
    ensures r.Proceed? <==>
              (((forall i :: 0 <= i < |matched| ==> !matched[i].requiresAuth) && !HasToken(token)) ||
               ((forall i :: 0 <= i < |matched| ==> !matched[i].guestOnly) && HasToken(token)))
  {
    if SomeRequiresAuth(matched) && !HasToken(token) then ToLogin(fullPath)
    else if SomeGuestOnly(matched) && HasToken(token) then ToDashboard
    else Proceed
  }

  /** The records of the login page (`/login`, guests only). */
  const LoginMatched: seq<RouteRecord> := [RouteRecord(false, true)]

  /** The records of the dashboard (`/app` and its `dashboard` child, both
      needing a sign-in). */
  const DashboardMatched: seq<RouteRecord> := [RouteRecord(true, false), RouteRecord(true, false)]

  /** Every redirect lands on a page the guard lets through with the same
      token, so the guard never bounces a navigation twice. */
  lemma RedirectsSettle(matched: seq<RouteRecord>, token: Option<string>, fullPath: string, loginPath: string,
                        dashboardPath: string)
    ensures BeforeEach(matched, token, fullPath).ToLogin? ==> BeforeEach(LoginMatched, token, loginPath).Proceed?
    ensures BeforeEach(matched, token, fullPath).ToDashboard? ==>
              BeforeEach(DashboardMatched, token, dashboardPath).Proceed?
  {
    assert !LoginMatched[0].requiresAuth;
    assert !DashboardMatched[0].guestOnly && !DashboardMatched[1].guestOnly;
  }

  /** A page flagged both ways sends a guest to the login page: the sign-in
      check comes first. */
  lemma SignInCheckFirst(matched: seq<RouteRecord>, fullPath: string)
    requires exists i :: 0 <= i < |matched| && matched[i].requiresAuth && matched[i].guestOnly
    ensures BeforeEach(matched, None, fullPath) == ToLogin(fullPath)
  {
  }
}
