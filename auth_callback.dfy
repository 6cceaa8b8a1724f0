/**
 * The OAuth callback endpoint (`GET /auth/callback`): it turns the provider's
 * answer into a session, checks the session's email against the `student`
 * roster, records the profile of an authorized user in `users`, and answers
 * with exactly one redirect.
 */
module AuthCallback {
  import opened Wrappers
  import opened Records
  import JsText
  import UriComponent
  import AuthHelpers

  const DefaultNext: string := "/dashboard"
  const ErrorPath: string := "/auth/error"
  const ErrorQuery: string := "/auth/error?error="
  const UnauthorizedPath: string := "/auth/unauthorized"
  /** The lookup error code the handler treats like an empty answer. */
  const NoDataFoundCode: string := "PGSQL_ERROR_NO_DATA_FOUND"

  /** The request URL's origin and its query parameters (`searchParams.get`, None when absent). */
  datatype CallbackRequest = CallbackRequest(
    origin: string, code: Option<string>, next: Option<string>,
    error: Option<string>, errorDescription: Option<string>)

  /** The answer of `exchangeCodeForSession`. */
  datatype ExchangeOutcome = Exchanged | ExchangeFailed(message: string)

  /**
   * What the handler did: the redirect location, whether it exchanged the
   * code, and the `users` row it upserted (keyed by id), if any.
   */
  datatype CallbackResult = CallbackResult(location: string, exchanged: bool, profile: Option<ProfileUpsert>)

  /** `${origin}/auth/error?error=${encodeURIComponent(message)}` */
  function ErrorRedirect(origin: string, message: string): string
  {
    origin + ErrorQuery + UriComponent.EncodeUriComponent(message)
  }

  /**
   * The handler, with the provider's and the store's answers as inputs: the
   * exchange outcome, the session read after it, the roster lookup for the
   * session email, and the time as an ISO string. The store's answer to the
   * profile upsert is not an input: the handler only logs it.
   */
  function Callback(req: CallbackRequest, exchange: ExchangeOutcome, session: Option<Session>,
                    lookup: LookupResult, now: string): (r: CallbackResult)
    ensures r.exchanged <==> !Truthy(req.error) && Truthy(req.code)
    ensures r.profile.Some? ==> r.exchanged && exchange.Exchanged? && lookup.Row?
  {
    if Truthy(req.error) then
      var message := if Truthy(req.errorDescription) then req.errorDescription.value else req.error.value;
      CallbackResult(ErrorRedirect(req.origin, message), false, None)
    else if Truthy(req.code) then
      if exchange.ExchangeFailed? then
        CallbackResult(ErrorRedirect(req.origin, exchange.message), true, None)
      else
        match SessionEmail(session)
        case None => CallbackResult(req.origin + ErrorPath, true, None)
        case Some(email) =>
          if lookup.LookupError? && lookup.code != NoDataFoundCode then
            CallbackResult(ErrorRedirect(req.origin, lookup.message), true, None)
          else if lookup.Row? then
            var profile := ProfileFor(session.value.user.value, email, now, Some(now));
            CallbackResult(req.origin + req.next.GetOr(DefaultNext), true, Some(profile))
          else
            CallbackResult(req.origin + UnauthorizedPath, true, None)
    else
      CallbackResult(req.origin + ErrorPath, false, None)
  }

  /** The error page carries its message as one query value that decodes back to the message exactly. */
  predicate CarriesMessage(origin: string, location: string, message: string)
  {
    |origin + ErrorQuery| <= |location|
    && location[..|origin + ErrorQuery|] == origin + ErrorQuery
    && var value := location[|origin + ErrorQuery|..];
       UriComponent.FormDecode(value) == Some(message)
       && '&' !in value && '#' !in value && '=' !in value && '+' !in value
  }

  lemma ErrorRedirectCarries(origin: string, message: string)
    ensures CarriesMessage(origin, ErrorRedirect(origin, message), message)
  {
    var e := UriComponent.EncodeUriComponent(message);
    assert ErrorRedirect(origin, message)[|origin + ErrorQuery|..] == e;
    UriComponent.EncodeDecodeRoundTrip(message);
    UriComponent.EncodedValueStaysOneParameter(message);
  }

  /**
   * A provider error short-circuits: no code exchange, no profile write, and
   * the error page receives `error_description`, or `error` when the
   * description is empty or absent.
   */
  lemma ProviderErrorShortCircuits(req: CallbackRequest, exchange: ExchangeOutcome, session: Option<Session>,
                                   lookup: LookupResult, now: string)
    requires Truthy(req.error)
    ensures var r := Callback(req, exchange, session, lookup, now);
      !r.exchanged && r.profile.None?
      && CarriesMessage(req.origin, r.location,
           if Truthy(req.errorDescription) then req.errorDescription.value else req.error.value)
  {
    ErrorRedirectCarries(req.origin, if Truthy(req.errorDescription) then req.errorDescription.value else req.error.value);
  }

  /** A failed exchange sends its message to the error page and writes nothing. */
  lemma ExchangeFailureReported(req: CallbackRequest, message: string, session: Option<Session>,
                                lookup: LookupResult, now: string)
    requires !Truthy(req.error) && Truthy(req.code)
    ensures var r := Callback(req, ExchangeFailed(message), session, lookup, now);
      r.exchanged && r.profile.None? && CarriesMessage(req.origin, r.location, message)
  {
    ErrorRedirectCarries(req.origin, message);
  }

  /** A lookup error with any other code sends its message to the error page and writes nothing. */
  lemma LookupErrorReported(req: CallbackRequest, session: Option<Session>, code: string, message: string, now: string)
    requires !Truthy(req.error) && Truthy(req.code) && SessionEmail(session).Some?
    requires code != NoDataFoundCode
    ensures var r := Callback(req, Exchanged, session, LookupError(code, message), now);
      r.profile.None? && CarriesMessage(req.origin, r.location, message)
  {
    ErrorRedirectCarries(req.origin, message);
  }

  /**
   * The profile is written exactly on an authorized sign-in: no provider
   * error, a code, a successful exchange, a session email and a roster row.
   * The row is keyed by the user's id, named full_name, else name, else
   * "User", and stamps both last_sign_in and created_at with the same time;
   * the redirect is then origin + next, with "/dashboard" when next is absent.
   */
  lemma ProfileOnlyWhenAuthorized(req: CallbackRequest, exchange: ExchangeOutcome, session: Option<Session>,
                                  lookup: LookupResult, now: string)
    ensures var r := Callback(req, exchange, session, lookup, now);
      r.profile.Some? <==>
        !Truthy(req.error) && Truthy(req.code) && exchange == Exchanged && SessionEmail(session).Some? && lookup.Row?
    ensures var r := Callback(req, exchange, session, lookup, now);
      r.profile.Some? ==>
        var user := session.value.user.value;
        r.profile.value.id == user.id && r.profile.value.email == SessionEmail(session).value
        && r.profile.value.name == DisplayName(user.metadata)
        && r.profile.value.lastSignIn == now && r.profile.value.createdAt == Some(now)
        && r.location == req.origin + (if req.next.Some? then req.next.value else DefaultNext)
  {
  }

  /**
   * Without a roster row (an empty answer, or an error with the no-data code)
   * the user is sent to the unauthorized page and nothing is written.
   */
  lemma NotOnRosterIsUnauthorized(req: CallbackRequest, session: Option<Session>, lookup: LookupResult, now: string)
    requires !Truthy(req.error) && Truthy(req.code) && SessionEmail(session).Some?
    requires lookup.NoRow? || (lookup.LookupError? && lookup.code == NoDataFoundCode)
    ensures Callback(req, Exchanged, session, lookup, now) == CallbackResult(req.origin + UnauthorizedPath, true, None)
  {
  }

  /** Without an error or a code, or with a session lacking an email, the answer is the bare error page. */
  lemma BareErrorPage(req: CallbackRequest, exchange: ExchangeOutcome, session: Option<Session>,
                      lookup: LookupResult, now: string)
    requires !Truthy(req.error)
    requires !Truthy(req.code) || (exchange == Exchanged && SessionEmail(session).None?)
    ensures Callback(req, exchange, session, lookup, now).location == req.origin + ErrorPath
    ensures Callback(req, exchange, session, lookup, now).profile.None?
    ensures Callback(req, exchange, session, lookup, now).exchanged <==> Truthy(req.code)
  {
  }

  /**
   * The server-side decision agrees with the client-side check: after a
   * successful exchange, the callback writes the profile of the session email
   * exactly when `checkUserAuthorization` on that email and lookup says yes.
   */
  lemma CallbackAgreesWithClientCheck(req: CallbackRequest, session: Option<Session>, lookup: LookupResult, now: string)
    requires !Truthy(req.error) && Truthy(req.code) && SessionEmail(session).Some?
    ensures Callback(req, Exchanged, session, lookup, now).profile.Some?
        <==> AuthHelpers.CheckUserAuthorization(SessionEmail(session).value, lookup).authorized
  {
  }
}
