/** The two route guards, each reduced to a pure decision from what the
    guard reads to the route it replaces the location with (None: stay). */
module AppRedirect {
  import opened Common

  const GuestRoute: string := "/login"
  const OnboardingRoute: string := "/onboarding"
  const HomeRoute: string := "/"

  /** The app-state context as the guard sees it: missing, or present with a
      flag that is undefined until storage has been read. */
  datatype AppContextView = NoAppContext | AppContext(hasCompletedOnboarding: Option<bool>)

  /** The auth context as the guard sees it. */
  datatype AuthContextView = NoAuthContext | AuthContext(userPresent: bool, isLoading: bool)

  /** The top-level redirect decision. */
  function Decide(app: AppContextView, auth: AuthContextView, pathname: string): (r: Option<string>)
    ensures app.NoAppContext? || auth.NoAuthContext? ==> r.None?
    ensures auth.AuthContext? && auth.isLoading ==> r.None?
    ensures r.Some? ==> r.value in {HomeRoute, OnboardingRoute, GuestRoute}
    ensures r.Some? ==> r.value != pathname
  {
    if app.NoAppContext? || auth.NoAuthContext? then None
    else if auth.isLoading then None
    else if auth.userPresent then
      if pathname == GuestRoute then Some(HomeRoute)
      else if app.hasCompletedOnboarding == Some(false) && pathname != OnboardingRoute then Some(OnboardingRoute)
      else None
    else if pathname != GuestRoute then Some(GuestRoute)
    else None
  }

  /** Both contexts are present and auth has finished loading. */
  predicate Ready(app: AppContextView, auth: AuthContextView) {
    app.AppContext? && auth.AuthContext? && !auth.isLoading
  }

  /** Each redirect target, with exactly the situations that produce it. */
  lemma DecideTable(app: AppContextView, auth: AuthContextView, pathname: string)
    ensures Decide(app, auth, pathname) == Some(HomeRoute) <==>
              Ready(app, auth) && auth.userPresent && pathname == GuestRoute
    ensures Decide(app, auth, pathname) == Some(OnboardingRoute) <==>
              Ready(app, auth) && auth.userPresent && pathname != GuestRoute &&
              app.hasCompletedOnboarding == Some(false) && pathname != OnboardingRoute
    ensures Decide(app, auth, pathname) == Some(GuestRoute) <==>
              Ready(app, auth) && !auth.userPresent && pathname != GuestRoute
  {
  }

  /** A flag that is still undefined never sends anyone to onboarding. */
  lemma UndefinedFlagNeverOnboards(auth: AuthContextView, pathname: string)
    ensures Decide(AppContext(None), auth, pathname) != Some(OnboardingRoute)
  {
  }
}

module OnboardingRedirect {
  import opened Common
  import opened AppRedirect

  /** The onboarding guard: only a flag that is exactly false, off the
      onboarding page, redirects. */
  function Decide(app: AppContextView, pathname: string): (r: Option<string>)
    ensures r.Some? <==> app.AppContext? && app.hasCompletedOnboarding == Some(false) && pathname != OnboardingRoute
    ensures r.Some? ==> r.value == OnboardingRoute
  {
    if app.AppContext? && app.hasCompletedOnboarding == Some(false) && pathname != OnboardingRoute
    then Some(OnboardingRoute) else None
  }

  /** For a signed-in, loaded user who is not on the login page, the top-level
      guard decides exactly as the onboarding guard. */
  lemma AgreesWithAppRedirect(app: AppContextView, userPresent: bool, pathname: string)
    requires app.AppContext? && userPresent && pathname != GuestRoute
    ensures AppRedirect.Decide(app, AuthContext(userPresent, false), pathname) == Decide(app, pathname)
  {
  }
}
