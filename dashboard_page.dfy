/**
 * The member dashboard: its redirect effect, what it renders for each
 * authentication state, and the greeting and avatar it derives from the
 * signed-in user.
 */
module DashboardPage {
  import opened Wrappers
  import opened Records
  import JsText
  import AuthHelpers

  const SignInPath: string := "/auth/signin"
  const UnauthorizedPath: string := "/auth/unauthorized"

  /** The header picture: the provider's avatar, or a tile holding a letter (absent when both sources are undefined). */
  datatype Avatar = AvatarImage(url: string) | AvatarLetter(letter: Option<string>)

  /** What the page renders: the spinner, nothing (a redirect is under way), or the member content. */
  datatype View = Spinner | Nothing | Content(greeting: Option<string>, avatar: Avatar, email: Option<string>)

  /**
   * The page's redirect effect, written out as the page writes it. It asks
   * for exactly the navigation the shared route guard asks for.
   */
  function RedirectEffect(user: Option<User>, isAuthorized: Option<bool>, isLoading: bool): (nav: Option<string>)
    ensures nav == AuthHelpers.ProtectRoute(user, isAuthorized, isLoading)
  {
    if isLoading then None
    else if user.None? then Some(SignInPath)
    else if isAuthorized == Some(false) then Some(UnauthorizedPath)
    else None
  }

  /**
   * `name || email?.split("@")[0]`: the metadata name when truthy, else the
   * part of the email before its first "@", else undefined.
   */
  function Greeting(user: User): (g: Option<string>)
    ensures Truthy(user.metadata.name) ==> g == user.metadata.name
    ensures !Truthy(user.metadata.name) ==> (g.Some? <==> user.email.Some?)
  {
    if Truthy(user.metadata.name) then user.metadata.name
    else if user.email.Some? then Some(JsText.Split(user.email.value, '@')[0])
    else None
  }

  /**
   * The avatar: the image when `avatar_url` is truthy, otherwise the first
   * letter of the name, or when that is empty or undefined the first letter
   * of the email (`name?.charAt(0) || email?.charAt(0)`).
   */
  function AvatarOf(user: User): (a: Avatar)
    ensures Truthy(user.metadata.avatarUrl) <==> a.AvatarImage?
    ensures a.AvatarImage? ==> a.url == user.metadata.avatarUrl.value
    ensures a.AvatarLetter? && Truthy(user.metadata.name) ==>
      a.letter == Some([user.metadata.name.value[0]])
    ensures a.AvatarLetter? && !Truthy(user.metadata.name) ==>
      (a.letter.Some? <==> user.email.Some?)
      && (a.letter.Some? ==>
            (a.letter.value <= user.email.value
             && |a.letter.value| == (if user.email.value == "" then 0 else 1)))
  {
    if Truthy(user.metadata.avatarUrl) then AvatarImage(user.metadata.avatarUrl.value)
    else
      var fromName := if user.metadata.name.Some? then JsText.FirstChar(user.metadata.name.value) else "";
      if fromName != "" then AvatarLetter(Some(fromName))
      else if user.email.Some? then AvatarLetter(Some(JsText.FirstChar(user.email.value)))
      else AvatarLetter(None)
  }

  /** What the page renders for the context's state. */
  function Render(user: Option<User>, isAuthorized: Option<bool>, isLoading: bool): (v: View)
    ensures isLoading <==> v.Spinner?
    ensures v.Content? ==>
      (user.Some? && v.greeting == Greeting(user.value)
       && v.avatar == AvatarOf(user.value) && v.email == user.value.email)
  {
    if isLoading then Spinner
    else if user.None? || isAuthorized == Some(false) then Nothing
    else Content(Greeting(user.value), AvatarOf(user.value), user.value.email)
  }

  /**
   * The page renders nothing exactly when its effect redirects, and shows the
   * member content exactly when the guard lets the user stay: the content is
   * never shown to a visitor the guard sends away.
   */
  lemma RenderAgreesWithRedirect(user: Option<User>, isAuthorized: Option<bool>, isLoading: bool)
    ensures Render(user, isAuthorized, isLoading).Nothing? <==> RedirectEffect(user, isAuthorized, isLoading).Some?
    ensures Render(user, isAuthorized, isLoading).Content? <==>
      !isLoading && RedirectEffect(user, isAuthorized, isLoading).None?
    ensures Render(user, isAuthorized, isLoading).Content? ==> user.Some? && isAuthorized != Some(false)
  {
    var nav := RedirectEffect(user, isAuthorized, isLoading);
    assert nav == AuthHelpers.ProtectRoute(user, isAuthorized, isLoading);
  }

  /**
   * Without a name, a member whose email is `local@domain` (no "@" in the
   * local part) is greeted by the local part.
   */
  lemma GreetingUsesLocalPart(user: User, local: string, domain: string)
    requires !Truthy(user.metadata.name)
    requires '@' !in local
    requires user.email == Some(local + "@" + domain)
    ensures Greeting(user) == Some(local)
  {
    JsText.SplitFirstPiece(local, domain, '@');
    assert local + "@" + domain == local + ['@'] + domain;
  }
}
