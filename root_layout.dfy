/** The root layout's boot rule: the stored onboarding flag, the font state
    and the first route segment decide whether the app is sent into the
    onboarding flow or out of it. */
module RootLayout {
  import opened Wizard
  import KeyValue

  const OnboardingComplete := "onboarding_complete"
  const OnboardingRoute := "/onboarding"
  const TabsRoute := "/(tabs)"

  /** `checkOnboardingStatus`: complete exactly when the stored value is the
      text "true"; a failing read counts as not complete. */
  function StatusFromRead(read: KeyValue.ReadResult): (complete: bool)
    ensures complete <==> read == KeyValue.ReadOk(Some("true"))
  {
    match read
    case ReadOk(Some(v)) => v == "true"
    case _ => false
  }

  /** The third effect: nothing before the status is known and the fonts are
      loaded; then an incomplete user outside the onboarding segment is sent
      into it, and a complete one inside it is sent to the tabs. */
  function Redirect(status: Option<bool>, fontsLoaded: bool, segment: Option<string>): (nav: Nav<()>)
    ensures status.None? || !fontsLoaded ==> nav == Stay
    ensures nav == Replace(OnboardingRoute) <==>
      status == Some(false) && fontsLoaded && segment != Some("onboarding")
    ensures nav == Replace(TabsRoute) <==>
      status == Some(true) && fontsLoaded && segment == Some("onboarding")
    ensures nav == Stay || nav == Replace(OnboardingRoute) || nav == Replace(TabsRoute)
  {
    if status.None? || !fontsLoaded then Stay
    else
      var inOnboarding := segment == Some("onboarding");
      if !status.value && !inOnboarding then Replace(OnboardingRoute)
      else if status.value && inOnboarding then Replace(TabsRoute)
      else Stay
  }

  /** The routes the rule sends to are ones where it asks for nothing more:
      "/onboarding" has first segment "onboarding", "/(tabs)" has "(tabs)". */
  lemma RedirectIsIdempotent(status: Option<bool>, fontsLoaded: bool, segment: Option<string>)
    ensures Redirect(status, fontsLoaded, segment) == Replace(OnboardingRoute) ==>
      Redirect(status, fontsLoaded, Some("onboarding")) == Stay
    ensures Redirect(status, fontsLoaded, segment) == Replace(TabsRoute) ==>
      Redirect(status, fontsLoaded, Some("(tabs)")) == Stay
  {
    assert "(tabs)" != "onboarding" by { assert "(tabs)"[0] != "onboarding"[0]; }
  }

  /** The layout renders once fonts are loaded or have failed. */
  predicate Renders(fontsLoaded: bool, fontError: bool) {
    fontsLoaded || fontError
  }

  /** After a font error the layout renders, yet no redirect is made. */
  lemma FontErrorRendersWithoutRedirect(status: Option<bool>, segment: Option<string>)
    ensures Renders(false, true)
    ensures Redirect(status, false, segment) == Stay
  {
  }

  class Layout {
    var status: Option<bool>

    constructor ()
      ensures status.None?
    {
      status := None;
    }

    /** The first effect: the status is set once from the read of
        `onboarding_complete`; `failed` says whether the storage layer
        throws. */
    method CheckStatus(store: KeyValue.Store, failed: bool)
      modifies this
      ensures status == Some(StatusFromRead(KeyValue.Read(store.entries, OnboardingComplete, failed)))
      ensures status == Some(!failed && KeyValue.Lookup(store.entries, OnboardingComplete) == Some("true"))
    {
      status := Some(StatusFromRead(KeyValue.Read(store.entries, OnboardingComplete, failed)));
    }

    /** The third effect, run again on each change of route or font state:
        it asks for the redirect of the status read at mount and leaves that
        status as it was. */
    method Navigate(fontsLoaded: bool, segment: Option<string>) returns (nav: Nav<()>)
      ensures status.None? || !fontsLoaded ==> nav == Stay
      ensures nav == Replace(OnboardingRoute) <==>
        status == Some(false) && fontsLoaded && segment != Some("onboarding")
      ensures nav == Replace(TabsRoute) <==>
        status == Some(true) && fontsLoaded && segment == Some("onboarding")
    {
      nav := Redirect(status, fontsLoaded, segment);
    }
  }
}
