/**
 The application shell: the in-memory user (restored from the session on
 startup), the selected view, which screen the user gets, which navigation
 entries exist, logout, and the guard in front of the AI advice request.
 The advice reply comes from an external service and is an input.
 */
module App {
  import opened Types
  import opened Text
  import opened Storage
  import Onboarding
  import Auth

  datatype View = DashboardView | CommunityView | PartnersView | AdminView

  /** The shell's own state: the user it shows (not necessarily the stored
      session) and the selected view. */
  datatype Shell = Shell(user: Option<User>, view: View)

  datatype Screen = AuthScreen | OnboardingScreen | MainLayout

  /** What the main layout renders for the selected view. */
  datatype Content = DashboardPanel | CommunityPanel | PartnersPanel | AdminPanelContent | NoContent

  predicate IsAdmin(u: User) {
    u.role == ADMIN
  }

  /** On startup the shell shows the stored session user, if any. */
  function Startup(st: Store): (s: Shell)
    ensures s.user == GetCurrentUser(st)
    ensures s.view == DashboardView
  {
    match GetCurrentUser(st)
    case Some(u) => Shell(Some(u), DashboardView)
    case None => Shell(None, DashboardView)
  }

  /** A reload restores a successful sign-in: the shell starts with exactly
      the user `login` returned. After logging out it starts with no user. */
  lemma StartupRestoresSession(st: Store, email: string, password: string, s: Shell)
    ensures Login(st, email, password).1.Some? ==>
      Startup(Login(st, email, password).0).user == Login(st, email, password).1
    ensures Startup(HandleLogout(st, s).0).user == None
  {
  }

  /** Where registration splits the session, a reload shows a different user
      from the one the application was handed at registration. */
  lemma RegistrationReloadShowsOtherUser(st: Store, f: Auth.Form, newId: string, earlier: User)
    requires Auth.CanRegister(f) && !HasId(st.users, newId)
    requires !IsAdminCredentials(f.email, f.password)
    requires earlier in st.users && CredentialsMatch(earlier, f.email, f.password)
    ensures var r := Auth.HandleSubmit(st, f, newId);
      r.onLogin.Some? && Startup(r.store).user != r.onLogin
  {
    Auth.RegistrationCanSplitSession(st, f, newId, earlier);
  }

  /** Sign out: the session is cleared, the shell forgets the user and
      returns to the dashboard view. */
  function HandleLogout(st: Store, s: Shell): (r: (Store, Shell))
    ensures GetCurrentUser(r.0) == None
    ensures r.0.(currentUser := st.currentUser) == st
    ensures r.1 == Shell(None, DashboardView)
  {
    (Logout(st), Shell(None, DashboardView))
  }

  /** No user: sign in. A non-admin without a profile: onboarding. An admin
      is never sent to onboarding. */
  function ScreenFor(user: Option<User>): (r: Screen)
    ensures r == AuthScreen <==> user.None?
    ensures r == OnboardingScreen <==> user.Some? && !IsAdmin(user.value) && user.value.profile.None?
    ensures user.Some? && IsAdmin(user.value) ==> r == MainLayout
  {
    match user
    case None => AuthScreen
    case Some(u) => if !IsAdmin(u) && u.profile.None? then OnboardingScreen else MainLayout
  }

  /** The navigation entries the sidebar offers. */
  function NavEntries(u: User): (r: seq<View>)
    ensures AdminView in r <==> IsAdmin(u)
    ensures DashboardView in r && CommunityView in r && PartnersView in r
  {
    [DashboardView, CommunityView, PartnersView] + (if IsAdmin(u) then [AdminView] else [])
  }

  /** Clicking a sidebar entry: only entries that exist can be clicked. */
  function Navigate(s: Shell, target: View): (r: Shell)
    requires s.user.Some?
    ensures target in NavEntries(s.user.value) ==> r == s.(view := target)
    ensures target !in NavEntries(s.user.value) ==> r == s
  {
    if target in NavEntries(s.user.value) then s.(view := target) else s
  }

  /** The admin panel renders only for the admin view AND an admin user. */
  function ContentFor(s: Shell): (c: Content)
    requires s.user.Some?
    ensures c == AdminPanelContent <==> s.view == AdminView && IsAdmin(s.user.value)
    ensures s.view == DashboardView <==> c == DashboardPanel
    ensures s.view == CommunityView <==> c == CommunityPanel
    ensures s.view == PartnersView <==> c == PartnersPanel
  {
    match s.view
    case DashboardView => DashboardPanel
    case CommunityView => CommunityPanel
    case PartnersView => PartnersPanel
    case AdminView => if IsAdmin(s.user.value) then AdminPanelContent else NoContent
  }

  /** A non-admin user never gets to the admin view by navigating. */
  lemma {:induction false} NonAdminNeverReachesAdmin(s: Shell, path: seq<View>)
    requires s.user.Some? && !IsAdmin(s.user.value) && s.view != AdminView
    ensures Walk(s, path).view != AdminView
    ensures ContentFor(Walk(s, path)) != AdminPanelContent
    decreases |path|
  {
    if |path| > 0 {
      NonAdminNeverReachesAdmin(Navigate(s, path[0]), path[1..]);
    }
  }

  /** A sequence of sidebar clicks. */
  function Walk(s: Shell, path: seq<View>): (r: Shell)
    requires s.user.Some?
    ensures r.user == s.user
    decreases |path|
  {
    if |path| == 0 then s else Walk(Navigate(s, path[0]), path[1..])
  }

  /** Finishing onboarding takes the user to the main layout. */
  lemma OnboardingLeadsToMain(st: Store, user: User, w: Onboarding.Wizard)
    ensures ScreenFor(Some(Onboarding.HandleComplete(st, user, w).1)) == MainLayout
  {
  }

  // ---------------------------------------------------------------- advice

  const ADVICE_FALLBACK: string := "Sorry, I'm taking a water break. Try again later."

  /** The advice widget: the query typed and the answer shown. */
  datatype Advice = Advice(query: string, answer: string)

  /** Asking for advice: a query that is blank after trimming sends nothing
      and changes nothing; otherwise the reply is shown, or a fixed apology
      when the request fails. The second result says whether a request was
      made. */
  function AskAdvice(a: Advice, reply: Result<string>): (r: (Advice, bool))
    ensures r.1 <==> !IsBlank(a.query)
    ensures !r.1 ==> r.0 == a
    ensures r.1 ==> r.0.query == a.query
    ensures r.1 && reply.Ok? ==> r.0.answer == reply.value
    ensures r.1 && reply.Err? ==> r.0.answer == ADVICE_FALLBACK
  {
    TrimEmptyIffBlank(a.query);
    if Trim(a.query) == "" then (a, false)
    else
      match reply
      case Ok(text) => (a.(answer := text), true)
      case Err(_) => (a.(answer := ADVICE_FALLBACK), true)
  }
}
