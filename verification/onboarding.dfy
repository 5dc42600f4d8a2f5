/** The four-step onboarding wizard: content format, interests,
    notifications, done. */
module Onboarding {
  import opened Common
  import AppState
  import AppRedirect
  import OnboardingRedirect

  const TotalSteps: int := 4

  /** The wizard only ever shows steps 1 to 4. */
  type Step = s: int | 1 <= s <= TotalSteps witness 1

  /** The wizard opens on step 1. */
  function Start(): (s: Step)
    ensures s == 1 && Progress(s) == 25.0
  {
    1
  }

  /** Whether the current step shows an enabled Next button: steps 1 to 3 have
      one, and the one on step 2 is disabled while no interest is selected. */
  predicate NextEnabled(step: Step, interests: seq<string>) {
    step < TotalSteps && (step != 2 || |interests| != 0)
  }

  /** Pressing Next on the current step; a disabled or missing button leaves
      the step as it is. */
  function Next(step: Step, interests: seq<string>): (r: Step)
    ensures NextEnabled(step, interests) ==> r == step + 1
    ensures !NextEnabled(step, interests) ==> r == step
  {
    if step == 1 then 2
    else if step == 2 then (if |interests| == 0 then 2 else 3)
    else if step == 3 then 4
    else step
  }

  /** The progress bar value, `(step / totalSteps) * 100`. */
  function Progress(step: Step): (p: real)
    ensures p == (25 * step) as real
    ensures p == 25.0 || p == 50.0 || p == 75.0 || p == 100.0
  {
    (step as real / TotalSteps as real) * 100.0
  }

  /** Step 2 holds exactly while the interest list is empty. */
  lemma InterestsGate(interests: seq<string>)
    ensures Next(2, interests) == 2 <==> |interests| == 0
    ensures Next(Next(Next(Start(), interests), interests), interests) == 4 <==> |interests| != 0
  {
  }

  /** The toggle group's change handler: an empty value (the selected item
      clicked again) leaves the preference alone. */
  function OnPreferenceChange(s: AppState.Session, value: string, writeOk: bool): (r: AppState.Session)
    ensures value == "" ==> r == s
    ensures value != "" && writeOk ==> r.state.contentPreference == value && r.store.preference == Some(value)
    ensures !writeOk ==> r == s
    ensures r.store.onboarding == s.store.onboarding && r.store.interests == s.store.interests
    ensures r.state.hasCompletedOnboarding == s.state.hasCompletedOnboarding
    ensures r.state.therapeuticInterests == s.state.therapeuticInterests
  {
    if value == "" then s else AppState.SetContentPreference(s, value, writeOk)
  }

  /** Finish: marks onboarding complete when the context exists, then always
      replaces the location with the home route. */
  function HandleFinish(app: Option<AppState.Session>, writeOk: bool): (r: (Option<AppState.Session>, string))
    ensures r.1 == "/"
    ensures r.0.Some? <==> app.Some?
    ensures app.Some? && writeOk ==>
              r.0.value.state.hasCompletedOnboarding == Some(true) && r.0.value.store.onboarding == Some("true")
    ensures app.Some? && !writeOk ==> r.0 == app
    ensures app.Some? ==>
              r.0.value.state.contentPreference == app.value.state.contentPreference &&
              r.0.value.state.therapeuticInterests == app.value.state.therapeuticInterests &&
              r.0.value.store.preference == app.value.store.preference &&
              r.0.value.store.interests == app.value.store.interests
  {
    match app
    case None => (None, "/")
    case Some(s) => (Some(AppState.SetHasCompletedOnboarding(s, true, writeOk)), "/")
  }

  /** Once Finish has stored the flag, neither route guard sends a signed-in,
      loaded user back to onboarding, wherever they are. */
  lemma FinishEndsOnboardingRedirects(s: AppState.Session, pathname: string)
    ensures var r := HandleFinish(Some(s), true);
            var app := AppRedirect.AppContext(r.0.value.state.hasCompletedOnboarding);
            OnboardingRedirect.Decide(app, pathname).None? &&
            AppRedirect.Decide(app, AppRedirect.AuthContext(true, false), pathname) != Some(AppRedirect.OnboardingRoute)
  {
  }
}
