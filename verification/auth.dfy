/** The authentication context (src/contexts/AuthContext.tsx): the user
    and session derived from the backend's auth events, the redirects those
    events cause, the friendly error texts, and the outcome of each auth
    call. The backend, the router and `sessionStorage` are abstracted: a
    call's settlement is an `Outcome` parameter, storage is a map, and the
    navigation an event causes is returned instead of performed. */
module Auth {
  import opened Common
  import opened Users

  // ---------------------------------------------------------------------
  // Error messages

  const InvalidCredentials: string := "Invalid login credentials"
  const EmailNotConfirmed: string := "Email not confirmed"
  const AlreadyRegistered: string := "User already registered"
  const ProviderDisabled: string := "provider is not enabled"

  // Their explanations.
  const WrongCredentialsText: string := "The email or password you entered is incorrect. Please try again."
  const ConfirmEmailText: string := "Please confirm your email address before signing in."
  const AccountExistsText: string := "An account with this email already exists. Try signing in instead."
  const GoogleNotConfiguredText: string := "Google login is not properly configured. Please check your Supabase project settings."

  /** The four backend messages that have their own explanation. */
  predicate Recognised(message: Option<string>) {
    message.Some? && message.value in [InvalidCredentials, EmailNotConfirmed, AlreadyRegistered, ProviderDisabled]
  }

  /** The toast text for an auth error: four backend messages get a fixed
      explanation (compared exactly, case included); any other message is
      shown as it is, and a missing or empty one yields the caller's
      fallback. */
  function FriendlyMessage(message: Option<string>, fallback: string): (r: string)
    ensures message == Some(InvalidCredentials) ==> r == WrongCredentialsText
    ensures message == Some(EmailNotConfirmed) ==> r == ConfirmEmailText
    ensures message == Some(AlreadyRegistered) ==> r == AccountExistsText
    ensures message == Some(ProviderDisabled) ==> r == GoogleNotConfiguredText
    ensures !Recognised(message) ==> r == OrElse(message, fallback)
  {
    match message
    case Some(m) =>
      if m == InvalidCredentials then WrongCredentialsText
      else if m == EmailNotConfirmed then ConfirmEmailText
      else if m == AlreadyRegistered then AccountExistsText
      else if m == ProviderDisabled then GoogleNotConfiguredText
      else OrElse(message, fallback)
    case None => fallback
  }

  /** The explanation is never empty when the fallback is not. */
  lemma FriendlyMessageNonEmpty(message: Option<string>, fallback: string)
    requires |fallback| > 0
    ensures |FriendlyMessage(message, fallback)| > 0
  {
  }

  /** Matching is case-sensitive: a differently capitalised message is
      passed through unchanged. */
  lemma FriendlyMessageCaseSensitive()
    ensures FriendlyMessage(Some("invalid login credentials"), "x") == "invalid login credentials"
  {
  }

  /** What `handleAuthError` does: one destructive toast, then the same
      error is thrown again. */
  datatype Raised = Raised(toast: Toast, rethrown: Option<string>)

  function HandleAuthError(message: Option<string>, fallback: string): (r: Raised)
    ensures r.toast.variant == Destructive && r.toast.title == "Authentication Error"
    ensures r.toast.description == FriendlyMessage(message, fallback)
    ensures r.rethrown == message
  {
    Raised(ErrorToast("Authentication Error", FriendlyMessage(message, fallback)), message)
  }

  // ---------------------------------------------------------------------
  // Auth calls

  /** The effect of an auth call: the toasts shown, in order, and whether
      the call's promise rejects (with the original error message). */
  datatype CallResult = CallResult(toasts: seq<Toast>, rejects: bool, error: Option<string>)

  /** The shared shape of `signUp`, `signIn`, `signInWithGoogle` and
      `resetPassword`: a success toast, or `handleAuthError` with the
      call's fallback, whose rethrow makes the call reject. */
  function AuthCall(outcome: Outcome, success: Toast, fallback: string): (r: CallResult)
    ensures outcome.Succeeded? ==> r == CallResult([success], false, None)
    ensures outcome.Failed? ==>
      && r.rejects && r.error == outcome.message
      && r.toasts == [HandleAuthError(outcome.message, fallback).toast]
  {
    match outcome
    case Succeeded => CallResult([success], false, None)
    case Failed(m) =>
      var raised := HandleAuthError(m, fallback);
      CallResult([raised.toast], true, raised.rethrown)
  }

  /** The toast `handleAuthError` shows for a failed call. */
  function AuthErrorToast(message: Option<string>, fallback: string): Toast {
    ErrorToast("Authentication Error", FriendlyMessage(message, fallback))
  }

  const SignUpToast: Toast := PlainToast("Account created!", "Please check your email for verification instructions.")
  const SignUpFallback: string := "An error occurred during signup."

  /** The request inside `signUp`: its success toast and a resolved
      promise, or the authentication-error toast with its own fallback and
      a rejection carrying the backend's error. */
  function SignUpCall(outcome: Outcome): (r: CallResult)
    ensures outcome.Succeeded? ==> r == CallResult([SignUpToast], false, None)
    ensures outcome.Failed? ==> r == CallResult([AuthErrorToast(outcome.message, SignUpFallback)], true, outcome.message)
  {
    AuthCall(outcome, SignUpToast, SignUpFallback)
  }

  const SignInToast: Toast := PlainToast("Login successful", "Welcome back to MomCare!")
  const SignInFallback: string := "Please check your credentials and try again."

  /** The request inside `signIn`, in the same shape. */
  function SignInCall(outcome: Outcome): (r: CallResult)
    ensures outcome.Succeeded? ==> r == CallResult([SignInToast], false, None)
    ensures outcome.Failed? ==> r == CallResult([AuthErrorToast(outcome.message, SignInFallback)], true, outcome.message)
  {
    AuthCall(outcome, SignInToast, SignInFallback)
  }

  const ResetToast: Toast := PlainToast("Password reset email sent", "Please check your email for instructions.")
  const ResetFallback: string := "An error occurred. Please try again."

  /** `resetPassword`, in the same shape. */
  function ResetPassword(outcome: Outcome): (r: CallResult)
    ensures outcome.Succeeded? ==> r == CallResult([ResetToast], false, None)
    ensures outcome.Failed? ==> r == CallResult([AuthErrorToast(outcome.message, ResetFallback)], true, outcome.message)
  {
    AuthCall(outcome, ResetToast, ResetFallback)
  }

  const GoogleToast: Toast := PlainToast("Redirecting to Google", "Please complete the authentication process")
  const GoogleFallback: string := "Google login failed. Please try again."

  /** The OAuth request of `signInWithGoogle`, in the same shape. */
  function GoogleRedirectCall(outcome: Outcome): (r: CallResult)
    ensures outcome.Succeeded? ==> r == CallResult([GoogleToast], false, None)
    ensures outcome.Failed? ==> r == CallResult([AuthErrorToast(outcome.message, GoogleFallback)], true, outcome.message)
  {
    AuthCall(outcome, GoogleToast, GoogleFallback)
  }

  /** Every failed sign-up, sign-in, reset or Google call shows exactly one
      destructive toast and rejects with the backend's error; a successful
      one shows one plain toast and resolves. */
  lemma AuthCallsReportFailures(outcome: Outcome)
    ensures ReportsOnce(SignUpCall(outcome), outcome)
    ensures ReportsOnce(SignInCall(outcome), outcome)
    ensures ReportsOnce(ResetPassword(outcome), outcome)
    ensures ReportsOnce(GoogleRedirectCall(outcome), outcome)
  {
  }

  /** One toast, destructive and rejecting exactly when the call failed. */
  predicate ReportsOnce(r: CallResult, outcome: Outcome) {
    && |r.toasts| == 1
    && (r.rejects <==> outcome.Failed?)
    && (r.toasts[0].variant == Destructive <==> outcome.Failed?)
  }

  /** The request inside `signOut` as written: a failure is reported by a
      toast and then swallowed, so the returned promise always resolves. */
  function SignOutCall(outcome: Outcome): (r: CallResult)
    ensures !r.rejects
    ensures outcome.Succeeded? <==> r.toasts == []
    ensures outcome.Failed? ==> r.toasts == [ErrorToast("Sign out failed", OrElse(outcome.message, "An error occurred during sign out."))]
  {
    match outcome
    case Succeeded => CallResult([], false, None)
    case Failed(m) => CallResult([ErrorToast("Sign out failed", OrElse(m, "An error occurred during sign out."))], false, None)
  }

  /** `signOut` as its callers expect it: the same toast on failure, after
      which the error is thrown on so that the caller's own error branch
      runs. */
  function SignOutRethrowing(outcome: Outcome): (r: CallResult)
    ensures r.rejects <==> outcome.Failed?
    ensures r.toasts == SignOutCall(outcome).toasts
  {
    match outcome
    case Succeeded => CallResult([], false, None)
    case Failed(m) => CallResult(SignOutCall(outcome).toasts, true, m)
  }

  /** The request inside `updateProfile`: on failure a destructive
      "Update failed" toast and a rejection; on success nothing is shown. */
  function UpdateProfileCall(outcome: Outcome): (r: CallResult)
    ensures r.rejects <==> outcome.Failed?
    ensures outcome.Succeeded? ==> r.toasts == []
    ensures outcome.Failed? ==> r.toasts == [ErrorToast("Update failed", OrElse(outcome.message, "An error occurred while updating your profile."))]
  {
    match outcome
    case Succeeded => CallResult([], false, None)
    case Failed(m) => CallResult([ErrorToast("Update failed", OrElse(m, "An error occurred while updating your profile."))], true, m)
  }

  // ---------------------------------------------------------------------
  // Auth state and events

  const ReturnUrlKey: string := "returnUrl"

  /** The provider's state, with `sessionStorage` alongside it. */
  datatype AuthState = AuthState(
    session: Option<Session>,
    user: Option<User>,
    loading: bool,
    storage: map<string, string>)

  function InitialState(storage: map<string, string>): (r: AuthState)
    ensures r.session.None? && r.user.None? && r.loading
  {
    AuthState(None, None, true, storage)
  }

  datatype AuthEvent = SignedIn | TokenRefreshed | SignedOut | UserUpdated | OtherEvent(name: string)

  /** What an event leads to besides the new state: the route navigated to
      once the deferred callback runs, and a toast. */
  datatype EventEffect = EventEffect(state: AuthState, navigateTo: Option<string>, toast: Option<Toast>)

  /** `sessionStorage.getItem(key) || '/'`. */
  function StoredReturnUrl(storage: map<string, string>): (r: string)
    ensures ReturnUrlKey in storage && storage[ReturnUrlKey] != "" ==> r == storage[ReturnUrlKey]
    ensures ReturnUrlKey !in storage || storage[ReturnUrlKey] == "" ==> r == "/"
  {
    OrElse(if ReturnUrlKey in storage then Some(storage[ReturnUrlKey]) else None, "/")
  }

  function UserOf(session: Option<Session>): Option<User> {
    match session
    case Some(s) => Some(s.user)
    case None => None
  }

  /** The `onAuthStateChange` listener, including the deferred callback it
      schedules: the session and user are replaced on every event; a
      sign-in or token refresh consumes the stored return URL and goes
      there (or home); a sign-out goes to the login page; a user update
      shows a toast. */
  function OnAuthStateChange(st: AuthState, event: AuthEvent, session: Option<Session>): (r: EventEffect)
    ensures r.state.session == session && r.state.loading == st.loading
    ensures r.state.user.None? <==> session.None?
    ensures session.Some? ==> r.state.user == Some(session.value.user)
    ensures (event.SignedIn? || event.TokenRefreshed?) ==>
      && r.navigateTo == Some(StoredReturnUrl(st.storage))
      && r.state.storage == st.storage - {ReturnUrlKey}
    ensures !(event.SignedIn? || event.TokenRefreshed?) ==> r.state.storage == st.storage
    ensures event.SignedOut? ==> r.navigateTo == Some("/login")
    ensures (event.UserUpdated? || event.OtherEvent?) ==> r.navigateTo.None?
    ensures event.UserUpdated? <==> r.toast.Some?
    ensures event.UserUpdated? ==> r.toast == Some(PlainToast("Profile updated", "Your profile has been updated successfully"))
  {
    var st := st.(session := session, user := UserOf(session));
    match event
    case SignedIn => EventEffect(st.(storage := st.storage - {ReturnUrlKey}), Some(StoredReturnUrl(st.storage)), None)
    case TokenRefreshed => EventEffect(st.(storage := st.storage - {ReturnUrlKey}), Some(StoredReturnUrl(st.storage)), None)
    case SignedOut => EventEffect(st, Some("/login"), None)
    case UserUpdated =>
      EventEffect(st.(user := UserOf(session)), None, Some(PlainToast("Profile updated", "Your profile has been updated successfully")))
    case OtherEvent(_) => EventEffect(st, None, None)
  }

  /** The initial `getSession` resolves: session and user set, loading off. */
  function InitialSessionLoaded(st: AuthState, session: Option<Session>): (r: AuthState)
    ensures r.session == session && r.user == UserOf(session) && !r.loading && r.storage == st.storage
  {
    st.(session := session, user := UserOf(session), loading := false)
  }

  /** The return URL stored before the Google redirect: the current path,
      unless that is the login or signup page, which would loop back. */
  function GoogleReturnUrl(pathname: string): (r: string)
    ensures r != "/login" && r != "/signup"
    ensures pathname != "/login" && pathname != "/signup" ==> r == pathname
    ensures pathname == "/login" || pathname == "/signup" ==> r == "/"
  {
    if pathname != "/login" && pathname != "/signup" then pathname else "/"
  }

  /** `signInWithGoogle`: stores the return URL, then behaves like the
      other auth calls; loading is off afterwards. */
  function SignInWithGoogle(st: AuthState, pathname: string, outcome: Outcome): (r: (AuthState, CallResult))
    ensures r.0.storage == st.storage[ReturnUrlKey := GoogleReturnUrl(pathname)]
    ensures !r.0.loading && r.0.session == st.session && r.0.user == st.user
    ensures r.1 == GoogleRedirectCall(outcome)
  {
    (st.(storage := st.storage[ReturnUrlKey := GoogleReturnUrl(pathname)], loading := false), GoogleRedirectCall(outcome))
  }

  /** The provider's state once a call that sets `loading` has settled:
      the flag is on while the request runs and off again in `finally`,
      whatever the outcome; the session and user are left to the auth
      events. */
  function Settled(st: AuthState): (r: AuthState)
    ensures !r.loading
    ensures r.session == st.session && r.user == st.user && r.storage == st.storage
  {
    st.(loading := false)
  }

  /** `signUp` in the provider: its request, with loading off afterwards. */
  function SignUp(st: AuthState, outcome: Outcome): (r: (AuthState, CallResult))
    ensures !r.0.loading && r.0.session == st.session && r.0.user == st.user && r.0.storage == st.storage
    ensures r.1 == SignUpCall(outcome)
  {
    (Settled(st), SignUpCall(outcome))
  }

  /** `signIn` in the provider, in the same shape. */
  function SignIn(st: AuthState, outcome: Outcome): (r: (AuthState, CallResult))
    ensures !r.0.loading && r.0.session == st.session && r.0.user == st.user && r.0.storage == st.storage
    ensures r.1 == SignInCall(outcome)
  {
    (Settled(st), SignInCall(outcome))
  }

  /** `signOut` in the provider, in the same shape: the session is cleared
      by the `SIGNED_OUT` event, not by the call. */
  function SignOut(st: AuthState, outcome: Outcome): (r: (AuthState, CallResult))
    ensures !r.0.loading && r.0.session == st.session && r.0.user == st.user && r.0.storage == st.storage
    ensures r.1 == SignOutCall(outcome)
  {
    (Settled(st), SignOutCall(outcome))
  }

  /** `updateProfile` in the provider, in the same shape. */
  function UpdateProfile(st: AuthState, outcome: Outcome): (r: (AuthState, CallResult))
    ensures !r.0.loading && r.0.session == st.session && r.0.user == st.user && r.0.storage == st.storage
    ensures r.1 == UpdateProfileCall(outcome)
  {
    (Settled(st), UpdateProfileCall(outcome))
  }

  /** After a Google sign-in started on a page with a non-empty path, the
      sign-in event brings the user back to that page (or home, if it was
      the login or signup page), and the stored key is gone. */
  lemma GoogleSignInReturnsToOrigin(st: AuthState, pathname: string, outcome: Outcome, session: Session)
    requires pathname != ""
    ensures var (st1, _) := SignInWithGoogle(st, pathname, outcome);
            var e := OnAuthStateChange(st1, SignedIn, Some(session));
            && e.navigateTo == Some(GoogleReturnUrl(pathname))
            && ReturnUrlKey !in e.state.storage
  {
  }

  /** A second sign-in event after the first goes home: the return URL is
      consumed once. */
  lemma ReturnUrlConsumedOnce(st: AuthState, s1: Option<Session>, s2: Option<Session>)
    ensures OnAuthStateChange(OnAuthStateChange(st, SignedIn, s1).state, TokenRefreshed, s2).navigateTo == Some("/")
  {
  }

  // ---------------------------------------------------------------------
  // useAuth

  /** The value the provider hands to its consumers. */
  datatype Context = Context(session: Option<Session>, user: Option<User>, loading: bool)

  /** `useAuth`: the context, or the error thrown outside a provider. */
  function UseAuth(provided: Option<Context>): (r: Result<Context>)
    ensures provided.Some? <==> r.Success?
    ensures provided.Some? ==> r.value == provided.value
    ensures provided.None? ==> r == Failure("useAuth must be used within an AuthProvider")
  {
    match provided
    case Some(c) => Success(c)
    case None => Failure("useAuth must be used within an AuthProvider")
  }

  /** The value the provider builds from its state. */
  function Provided(st: AuthState): Context {
    Context(st.session, st.user, st.loading)
  }

  /** The provider's user is the session's user. */
  predicate UserFollowsSession(st: AuthState) {
    st.user == UserOf(st.session)
  }

  /** Every way the provider's state is set keeps the user with the session. */
  lemma StatesKeepUserWithSession(st: AuthState, storage: map<string, string>, event: AuthEvent,
                                  session: Option<Session>, pathname: string, outcome: Outcome)
    ensures UserFollowsSession(InitialState(storage))
    ensures UserFollowsSession(InitialSessionLoaded(st, session))
    ensures UserFollowsSession(OnAuthStateChange(st, event, session).state)
    ensures UserFollowsSession(st) ==> UserFollowsSession(SignInWithGoogle(st, pathname, outcome).0)
    ensures UserFollowsSession(st) ==> UserFollowsSession(SignUp(st, outcome).0)
    ensures UserFollowsSession(st) ==> UserFollowsSession(SignIn(st, outcome).0)
    ensures UserFollowsSession(st) ==> UserFollowsSession(SignOut(st, outcome).0)
    ensures UserFollowsSession(st) ==> UserFollowsSession(UpdateProfile(st, outcome).0)
  {
  }

  /** A consumer inside the provider reads a user exactly when there is a
      session, and then it is the session's user. */
  lemma UseAuthSeesSessionUser(st: AuthState)
    requires UserFollowsSession(st)
    ensures var r := UseAuth(Some(Provided(st)));
            && r.Success?
            && (r.value.user.None? <==> r.value.session.None?)
            && (r.value.session.Some? ==> r.value.user == Some(r.value.session.value.user))
  {
  }
}
