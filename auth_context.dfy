/**
 * The client-side authentication state shared by every page (`AuthProvider`):
 * the session, its user, whether the first answer is still pending, and the
 * roster verdict, kept up to date by the provider's auth-state listener and
 * by the initial session check.
 */
module AuthContext {
  import opened Wrappers
  import opened Records
  import JsText
  import AuthHelpers

  const SignedInEvent: string := "SIGNED_IN"
  const UnauthorizedPath: string := "/auth/unauthorized"
  const HomePath: string := "/"
  const DashboardSegment: string := "/dashboard"
  const CallbackPath: string := "/auth/callback"
  const OutsideProviderMessage: string := "useAuth must be used within an AuthProvider"

  /** The options of the `signInWithOAuth` call. */
  datatype OAuthRequest = OAuthRequest(provider: string, redirectTo: string, accessType: string, prompt: string)

  /** The value the context hands to its consumers. */
  datatype AuthState = AuthState(user: Option<User>, session: Option<Session>, isLoading: bool, isAuthorized: Option<bool>)

  class AuthProvider {
    var user: Option<User>
    var session: Option<Session>
    var isLoading: bool
    var isAuthorized: Option<bool>
    /** `router.push` targets, in order. */
    var navigations: seq<string>
    /** Emails looked up in `student`, in order. */
    var lookups: seq<string>
    /** Rows upserted into `users` (conflict key `id`), in order. */
    var profileWrites: seq<ProfileUpsert>
    /** `signInWithOAuth` calls, in order. */
    var oauthRequests: seq<OAuthRequest>
    /** Number of `signOut` calls made on the provider. */
    var signOuts: nat

    /**
     * The state keeps `user` equal to the session's user, only ever writes the
     * profile of an email it has looked up, and only ever navigates to the
     * unauthorized page or home.
     */
    predicate Valid()
      reads this
    {
      user == SessionUser(session)
      && (forall p :: p in profileWrites ==> p.email in lookups)
      && (forall n :: n in navigations ==> n == UnauthorizedPath || n == HomePath)
    }

    function Snapshot(): (s: AuthState)
      reads this
      ensures s.user == user && s.session == session && s.isLoading == isLoading && s.isAuthorized == isAuthorized
    {
      AuthState(user, session, isLoading, isAuthorized)
    }

    /** Initial state: no session or user, loading, verdict unknown, nothing done yet. */
    constructor()
      ensures Valid()
      ensures user.None? && session.None? && isLoading && isAuthorized.None?
      ensures navigations == [] && lookups == [] && profileWrites == [] && oauthRequests == [] && signOuts == 0
    {
      user := None;
      session := None;
      isLoading := true;
      isAuthorized := None;
      navigations := [];
      lookups := [];
      profileWrites := [];
      oauthRequests := [];
      signOuts := 0;
    }

    /**
     * The auth-state listener for one event, with the roster lookup's answer
     * and the time as inputs. Session and user always follow the event. With
     * no session email the verdict is reset to unknown. Otherwise the verdict
     * is the roster check; an unauthorized "SIGNED_IN" navigates to the
     * unauthorized page and returns before loading is cleared; an authorized
     * user's profile is upserted without `created_at`.
     */
    method OnAuthStateChange(event: string, newSession: Option<Session>, lookup: LookupResult, now: string)
      requires Valid()
      modifies this
      ensures Valid()
      ensures session == newSession && user == SessionUser(newSession)
      ensures oauthRequests == old(oauthRequests) && signOuts == old(signOuts)
      ensures SessionEmail(newSession).None? ==>
        isAuthorized.None? && !isLoading && navigations == old(navigations)
        && lookups == old(lookups) && profileWrites == old(profileWrites)
      ensures SessionEmail(newSession).Some? ==>
        var email := SessionEmail(newSession).value;
        var check := AuthHelpers.CheckUserAuthorization(email, lookup);
        isAuthorized == Some(check.authorized) && lookups == old(lookups) + check.lookups
        && (!check.authorized && event == SignedInEvent ==>
              navigations == old(navigations) + [UnauthorizedPath]
              && isLoading == old(isLoading) && profileWrites == old(profileWrites))
        && (!check.authorized && event != SignedInEvent ==>
              navigations == old(navigations) && !isLoading && profileWrites == old(profileWrites))
        && (check.authorized ==>
              profileWrites == old(profileWrites) + [ProfileFor(newSession.value.user.value, email, now, None)]
              && navigations == old(navigations) && !isLoading)
    {
      session := newSession;
      user := SessionUser(newSession);
      var email := SessionEmail(newSession);
      if email.Some? {
        var check := AuthHelpers.CheckUserAuthorization(email.value, lookup);
        lookups := lookups + check.lookups;
        isAuthorized := Some(check.authorized);
        if !check.authorized && event == SignedInEvent {
          navigations := navigations + [UnauthorizedPath];
          return;
        }
        if check.authorized {
          profileWrites := profileWrites + [ProfileFor(newSession.value.user.value, email.value, now, None)];
        }
      } else {
        isAuthorized := None;
      }
      isLoading := false;
    }

    /**
     * The initial `getSession` check, with the lookup's answer and the current
     * pathname as inputs. Session and user follow the stored session; with an
     * email the verdict becomes the roster check, and an unauthorized user is
     * sent to the unauthorized page only when the path contains "/dashboard".
     * Without an email the verdict is left as it was. It never writes a
     * profile, and always clears loading.
     */
    method InitialSessionCheck(stored: Option<Session>, lookup: LookupResult, pathname: string)
      requires Valid()
      modifies this
      ensures Valid()
      ensures session == stored && user == SessionUser(stored) && !isLoading
      ensures profileWrites == old(profileWrites) && oauthRequests == old(oauthRequests) && signOuts == old(signOuts)
      ensures SessionEmail(stored).None? ==>
        isAuthorized == old(isAuthorized) && navigations == old(navigations) && lookups == old(lookups)
      ensures SessionEmail(stored).Some? ==>
        var check := AuthHelpers.CheckUserAuthorization(SessionEmail(stored).value, lookup);
        isAuthorized == Some(check.authorized) && lookups == old(lookups) + check.lookups
        && navigations == old(navigations)
             + (if !check.authorized && JsText.Includes(pathname, DashboardSegment) then [UnauthorizedPath] else [])
    {
      session := stored;
      user := SessionUser(stored);
      var email := SessionEmail(stored);
      if email.Some? {
        var check := AuthHelpers.CheckUserAuthorization(email.value, lookup);
        lookups := lookups + check.lookups;
        isAuthorized := Some(check.authorized);
        if !check.authorized && JsText.Includes(pathname, DashboardSegment) {
          navigations := navigations + [UnauthorizedPath];
        }
      }
      isLoading := false;
    }

    /**
     * `signInWithGoogle`: asks the provider for a Google sign-in that returns to
     * the site's callback, and rethrows the provider's error if there is one.
     */
    method SignInWithGoogle(origin: string, providerError: Option<string>) returns (thrown: Option<string>)
      requires Valid()
      modifies this
      ensures Valid()
      ensures oauthRequests == old(oauthRequests) + [OAuthRequest("google", origin + CallbackPath, "offline", "consent")]
      ensures thrown == providerError
      ensures user == old(user) && session == old(session) && isLoading == old(isLoading)
      ensures isAuthorized == old(isAuthorized) && navigations == old(navigations)
      ensures lookups == old(lookups) && profileWrites == old(profileWrites) && signOuts == old(signOuts)
    {
      oauthRequests := oauthRequests + [OAuthRequest("google", origin + CallbackPath, "offline", "consent")];
      thrown := providerError;
    }

    /** `signOut`: signs out at the provider, then navigates home. The state itself changes only through the listener. */
    method SignOut()
      requires Valid()
      modifies this
      ensures Valid()
      ensures signOuts == old(signOuts) + 1 && navigations == old(navigations) + [HomePath]
      ensures user == old(user) && session == old(session) && isLoading == old(isLoading)
      ensures isAuthorized == old(isAuthorized) && lookups == old(lookups)
      ensures profileWrites == old(profileWrites) && oauthRequests == old(oauthRequests)
    {
      signOuts := signOuts + 1;
      navigations := navigations + [HomePath];
    }
  }

  /** `useAuth`: the provider's value, or the error thrown when there is no provider above the caller. */
  function UseAuth(context: Option<AuthState>): (r: Result<AuthState, string>)
    ensures r.Success? <==> context.Some?
    ensures r.Success? ==> r.value == context.value
    ensures r.Failure? ==> r.error == OutsideProviderMessage
  {
    if context.None? then Failure(OutsideProviderMessage) else Success(context.value)
  }
}
