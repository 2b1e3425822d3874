/** The server-rendered pages that guard navigation: the landing page `/`, the
    onboarding page `/onboarding`, and the dashboard `/dashboard` with its
    layout. Each is a pure decision from the session to a redirect or a render;
    together they form a redirect graph, whose walks are followed here. */
module Pages {
  import opened Wrappers
  import opened Js
  import opened Auth

  datatype Path = Root | OnboardingPath | DashboardPath

  /** The `userData` handed to the dashboard's client component. */
  datatype UserData = UserData(id: string, username: string, image: Option<string>)

  datatype View =
    | SignInForm
    | OnboardingForm(userId: Option<string>)
    | Dashboard(userData: UserData)

  datatype Outcome = Redirect(to: Path) | Render(view: View)

  /** `LandingPage`: sessions are sent on, only visitors without one see the sign-in form. */
  function LandingPage(s: Option<Session>): (r: Outcome)
    ensures r == Render(SignInForm) <==> s.None?
    ensures s.Some? && !HasUsername(s.value) ==> r == Redirect(OnboardingPath)
    ensures s.Some? && HasUsername(s.value) ==> r == Redirect(DashboardPath)
  {
    if s.Some? then
      if !HasUsername(s.value) then Redirect(OnboardingPath) else Redirect(DashboardPath)
    else Render(SignInForm)
  }

  /** `OnboardingPage` */
  function OnboardingPage(s: Option<Session>): (r: Outcome)
    ensures s.None? ==> r == Redirect(Root)
    ensures s.Some? && HasUsername(s.value) ==> r == Redirect(DashboardPath)
    ensures r.Render? <==> s.Some? && !HasUsername(s.value)
    ensures r.Render? ==> r.view == OnboardingForm(s.value.user.id)
  {
    if s.None? then Redirect(Root)
    else if HasUsername(s.value) then Redirect(DashboardPath)
    else Render(OnboardingForm(s.value.user.id))
  }

  /** `DashboardPage`: the dashboard renders only for a session with both an id and
      a username, and then shows exactly the session's id, username and image. */
  function DashboardPage(s: Option<Session>): (r: Outcome)
    ensures !HasId(s) ==> r == Redirect(Root)
    ensures HasId(s) && !HasUsername(s.value) ==> r == Redirect(OnboardingPath)
    ensures r.Render? <==> HasId(s) && HasUsername(s.value)
    ensures r.Render? ==>
      && r.view.Dashboard?
      && Some(r.view.userData.id) == s.value.user.id
      && Some(r.view.userData.username) == s.value.user.username
      && r.view.userData.image == s.value.user.image
  {
    if !HasId(s) then Redirect(Root)
    else if !HasUsername(s.value) then Redirect(OnboardingPath)
    else Render(Dashboard(UserData(s.value.user.id.value, s.value.user.username.value, s.value.user.image)))
  }

  /** The dashboard `Layout`: it checks that there is a session user and nothing
      else, and otherwise shows its children unchanged. */
  function DashboardLayout(s: Option<Session>, children: Outcome): (r: Outcome)
    ensures s.None? ==> r == Redirect(OnboardingPath)
    ensures s.Some? ==> r == children
  {
    if s.None? then Redirect(OnboardingPath) else children
  }

  /** One request for `p`; the layout's guard is taken to run before its page. */
  function Visit(p: Path, s: Option<Session>): Outcome {
    match p
    case Root => LandingPage(s)
    case OnboardingPath => OnboardingPage(s)
    case DashboardPath => DashboardLayout(s, DashboardPage(s))
  }

  /** Follow at most `fuel` redirects starting from `p`. */
  function Follow(p: Path, s: Option<Session>, fuel: nat): Outcome
    decreases fuel
  {
    var o := Visit(p, s);
    if o.Redirect? && fuel > 0 then Follow(o.to, s, fuel - 1) else o
  }

  /** Where a session belongs: the sign-in form without a session, the dashboard
      with a username, the onboarding form without one. */
  function Destination(s: Option<Session>): View
    requires HasId(s) || s.None?
  {
    if s.None? then SignInForm
    else if HasUsername(s.value) then
      Dashboard(UserData(s.value.user.id.value, s.value.user.username.value, s.value.user.image))
    else OnboardingForm(s.value.user.id)
  }

  /** From every page, a visitor without a session or with a session id ends, after
      at most two redirects, on the page that session belongs to: the redirect
      graph has no cycle for these sessions. */
  lemma NavigationSettles(p: Path, s: Option<Session>)
    requires HasId(s) || s.None?
    ensures Follow(p, s, 2) == Render(Destination(s))
  {
    if s.Some? {
      if HasUsername(s.value) {
        assert Visit(Root, s) == Redirect(DashboardPath);
        assert Visit(OnboardingPath, s) == Redirect(DashboardPath);
      } else {
        assert Visit(Root, s) == Redirect(OnboardingPath);
        assert Visit(DashboardPath, s) == Redirect(OnboardingPath);
      }
    } else {
      assert Visit(OnboardingPath, s) == Redirect(Root);
      assert Visit(DashboardPath, s) == Redirect(OnboardingPath);
    }
  }

  /** An unauthenticated visit to the dashboard goes through `/onboarding` to `/`,
      where the sign-in form renders; had the page's own guard run first, it would
      have gone to `/` directly. */
  lemma UnauthenticatedDashboardVisit()
    ensures Visit(DashboardPath, None) == Redirect(OnboardingPath)
    ensures Visit(OnboardingPath, None) == Redirect(Root)
    ensures Visit(Root, None) == Render(SignInForm)
    ensures DashboardPage(None) == Redirect(Root)
  {
  }

  /** A session that has a username but no id bounces between `/` and `/dashboard`
      forever: no number of redirects reaches a page. */
  lemma {:induction false} RedirectCycleWithoutId(s: Option<Session>, fuel: nat)
    requires s.Some? && HasUsername(s.value) && !HasId(s)
    ensures Visit(Root, s) == Redirect(DashboardPath)
    ensures Visit(DashboardPath, s) == Redirect(Root)
    ensures Follow(Root, s, fuel).Redirect? && Follow(DashboardPath, s, fuel).Redirect?
    decreases fuel
  {
    if fuel > 0 {
      RedirectCycleWithoutId(s, fuel - 1);
    }
  }

  /** The landing page looks only at whether there is a session and whether it has
      a username. */
  lemma LandingDependsOnPresenceOnly(s1: Option<Session>, s2: Option<Session>)
    requires s1.Some? == s2.Some?
    requires s1.Some? ==> HasUsername(s1.value) == HasUsername(s2.value)
    ensures LandingPage(s1) == LandingPage(s2)
  {
  }
}
