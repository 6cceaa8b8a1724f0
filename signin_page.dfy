/**
 * The sign-in page: where it sends a visitor whose verdict is known, and its
 * Google sign-in button's handler, which starts the provider redirect
 * through the shared authentication context.
 */
module SignInPage {
  import opened Wrappers
  import opened Records
  import AuthContext
  import DashboardPage

  const DashboardPath: string := "/dashboard"
  const UnauthorizedPath: string := "/auth/unauthorized"
  const FailedMessage: string := "Failed to sign in with Google. Please try again."

  /** What the page renders: the spinner while the context loads, else the form with its error banner and button state. */
  datatype View = Spinner | SignInForm(error: Option<string>, buttonLoading: bool)

  /**
   * The page's redirect effect: a signed-in user with a known verdict leaves
   * the page, for the dashboard when authorized and for the unauthorized page
   * otherwise. An unknown verdict or no user keeps the visitor here. The
   * effect does not wait for loading to finish.
   */
  function RedirectEffect(user: Option<User>, isAuthorized: Option<bool>): (nav: Option<string>)
    ensures nav == Some(DashboardPath) <==> user.Some? && isAuthorized == Some(true)
    ensures nav == Some(UnauthorizedPath) <==> user.Some? && isAuthorized == Some(false)
    ensures nav.None? <==> user.None? || isAuthorized.None?
  {
    if user.Some? && isAuthorized.Some? then
      if isAuthorized.value then Some(DashboardPath) else Some(UnauthorizedPath)
    else None
  }

  /**
   * The sign-in page and the dashboard never send a visitor back and forth:
   * whoever the sign-in page sends to the dashboard is shown its content once
   * loading is over, whoever it sends to the unauthorized page the dashboard
   * sends there too, and whoever the dashboard sends to sign in stays on the
   * sign-in page.
   */
  lemma NoRedirectLoop(user: Option<User>, isAuthorized: Option<bool>)
    ensures RedirectEffect(user, isAuthorized) == Some(DashboardPath) ==>
      DashboardPage.RedirectEffect(user, isAuthorized, false).None?
      && DashboardPage.Render(user, isAuthorized, false).Content?
    ensures RedirectEffect(user, isAuthorized) == Some(UnauthorizedPath) ==>
      DashboardPage.RedirectEffect(user, isAuthorized, false) == Some(UnauthorizedPath)
    ensures DashboardPage.RedirectEffect(user, isAuthorized, false) == Some(DashboardPage.SignInPath) ==>
      RedirectEffect(user, isAuthorized).None?
  {
    DashboardPage.RenderAgreesWithRedirect(user, isAuthorized, false);
  }

  class SignInPageState {
    /** Whether the Google button shows its own spinner. */
    var authLoading: bool
    /** The error banner's text, or null. */
    var error: Option<string>

    /** A fresh page: the button idle and no error. */
    constructor()
      ensures !authLoading && error.None?
    {
      authLoading := false;
      error := None;
    }

    /** What the page shows for the context's loading flag. */
    function Render(isLoading: bool): (v: View)
      reads this
      ensures isLoading <==> v.Spinner?
      ensures v.SignInForm? ==> v.error == error && v.buttonLoading == authLoading
    {
      if isLoading then Spinner else SignInForm(error, authLoading)
    }

    /** The handler's first step, before it awaits the provider: the button shows loading and the error is cleared. */
    method BeginGoogleSignIn()
      modifies this
      ensures authLoading && error.None?
    {
      authLoading := true;
      error := None;
    }

    /**
     * The handler's last step, once the provider call has settled: a thrown
     * error shows the fixed failure message (the provider's own message is
     * only logged), and the button stops loading either way.
     */
    method FinishGoogleSignIn(thrown: Option<string>)
      modifies this
      ensures !authLoading
      ensures thrown.Some? ==> error == Some(FailedMessage)
      ensures thrown.None? ==> error == old(error)
    {
      if thrown.Some? {
        error := Some(FailedMessage);
      }
      authLoading := false;
    }

    /**
     * `handleGoogleSignIn`: the whole handler against the shared context,
     * with the provider's error as input. It issues exactly one Google OAuth
     * request, and ends with the button idle and the error banner showing
     * the failure message exactly when the provider failed.
     */
    method HandleGoogleSignIn(auth: AuthContext.AuthProvider, origin: string, providerError: Option<string>)
      requires auth.Valid()
      modifies this, auth
      ensures auth.Valid()
      ensures auth.oauthRequests ==
        old(auth.oauthRequests) + [AuthContext.OAuthRequest("google", origin + AuthContext.CallbackPath, "offline", "consent")]
      ensures auth.user == old(auth.user) && auth.isAuthorized == old(auth.isAuthorized)
      ensures auth.navigations == old(auth.navigations)
      ensures !authLoading
      ensures error == (if providerError.Some? then Some(FailedMessage) else None)
    {
      BeginGoogleSignIn();
      var thrown := auth.SignInWithGoogle(origin, providerError);
      FinishGoogleSignIn(thrown);
    }
  }
}
