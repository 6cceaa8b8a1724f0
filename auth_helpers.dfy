/**
 * The client-side authorization helpers: the roster check by email and the
 * route guard the protected pages run once authentication has settled.
 */
module AuthHelpers {
  import opened Wrappers
  import opened Records

  const SignInPath: string := "/auth/signin"
  const UnauthorizedPath: string := "/auth/unauthorized"

  /** The answer of a roster check and the emails it looked up in `student` (none, or the one asked about). */
  datatype AuthCheck = AuthCheck(authorized: bool, lookups: seq<string>)

  /**
   * `checkUserAuthorization(email)`: an empty email is refused without a
   * query; otherwise the single-row lookup by email decides, and only a
   * returned row (with no error) authorizes.
   */
  function CheckUserAuthorization(email: string, lookup: LookupResult): (r: AuthCheck)
    ensures email == "" ==> !r.authorized && r.lookups == []
    ensures email != "" ==> r.lookups == [email] && (r.authorized <==> lookup.Row?)
  {
    if email == "" then AuthCheck(false, [])
    else AuthCheck(lookup.Row?, [email])
  }

  /**
   * `protectRoute`: the one navigation the guard asks for, if any. Nothing
   * happens while loading; once loaded, a missing user is sent to sign in
   * whatever the authorization, and a user known to be unauthorized is sent
   * to the unauthorized page. An unknown (null) authorization lets the user stay.
   */
  function ProtectRoute(user: Option<User>, isAuthorized: Option<bool>, isLoading: bool): (nav: Option<string>)
    ensures isLoading ==> nav.None?
    ensures nav.Some? <==> !isLoading && (user.None? || isAuthorized == Some(false))
    ensures nav == Some(SignInPath) <==> !isLoading && user.None?
    ensures nav == Some(UnauthorizedPath) <==> !isLoading && user.Some? && isAuthorized == Some(false)
  {
    if !isLoading then
      if user.None? then Some(SignInPath)
      else if isAuthorized == Some(false) then Some(UnauthorizedPath)
      else None
    else None
  }
}
