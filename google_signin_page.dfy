/**
 * The demonstration account picker: three sample Google accounts, of which
 * only institute addresses may go on to the Google sign-in.
 */
module GoogleSignInPage {
  import opened Wrappers
  import EmailDomain
  import AuthContext

  const DashboardPath: string := "/dashboard"
  const PlaceholderAvatar: string := "/placeholder.svg?height=40&width=40"

  datatype MockAccount = MockAccount(email: string, name: string, avatar: string)

  const Student1Email: string := "student1@ds.study.iitm.ac.in"
  const Student2Email: string := "student2@ds.study.iitm.ac.in"
  const PersonalEmail: string := "personal@gmail.com"

  /** The accounts the picker lists, in order. */
  const MockAccounts: seq<MockAccount> := [
    MockAccount(Student1Email, "Student One", PlaceholderAvatar),
    MockAccount(Student2Email, "Student Two", PlaceholderAvatar),
    MockAccount(PersonalEmail, "Personal Account", PlaceholderAvatar)
  ]

  /** A sample student address is its local part followed by the institute suffix. */
  lemma StudentAccepted(local: string)
    requires local == "student1" || local == "student2"
    ensures EmailDomain.IsInstituteEmail(local + "@ds.study.iitm.ac.in")
  {
    EmailDomain.SuffixAccepted(local);
  }

  /**
   * Picking a listed account: the two student addresses pass the domain
   * check and go on to the provider, and the personal one is refused.
   */
  lemma OnlyPersonalAccountRefused(i: nat)
    requires i < |MockAccounts|
    ensures EmailDomain.IsInstituteEmail(MockAccounts[i].email) <==> MockAccounts[i].email != PersonalEmail
  {
    if i == 0 {
      StudentAccepted("student1");
    } else if i == 1 {
      StudentAccepted("student2");
    } else {
      EmailDomain.ShortRejected(PersonalEmail);
    }
  }

  class GoogleSignInPageState {
    /** The error banner's text; "" shows no banner. */
    var error: string
    /** Whether the account buttons are disabled. */
    var isLoading: bool
    /** `router.push` targets, in order. */
    var navigations: seq<string>

    constructor()
      ensures error == "" && !isLoading && navigations == []
    {
      error := "";
      isLoading := false;
      navigations := [];
    }

    /** The handler's first step: the error is cleared and the buttons are disabled. */
    method BeginSelect()
      modifies this
      ensures error == "" && isLoading && navigations == old(navigations)
    {
      error := "";
      isLoading := true;
    }

    /**
     * `handleAccountSelect(email)`, with the provider's error as input. An
     * address outside the institute domain is refused with the institute-only
     * message before anything is asked of the provider. Otherwise one Google
     * sign-in is started; when it throws, its message is shown, and when it
     * does not, the page moves on to the dashboard. The buttons are enabled
     * again at the end.
     */
    method HandleAccountSelect(auth: AuthContext.AuthProvider, origin: string, email: string, providerError: Option<string>)
      requires auth.Valid() && !isLoading
      modifies this, auth
      ensures auth.Valid() && !isLoading
      ensures auth.user == old(auth.user) && auth.isAuthorized == old(auth.isAuthorized)
      ensures auth.navigations == old(auth.navigations)
      ensures !EmailDomain.IsInstituteEmail(email) ==>
        error == EmailDomain.OnlyInstituteMessage && navigations == old(navigations)
        && auth.oauthRequests == old(auth.oauthRequests)
      ensures EmailDomain.IsInstituteEmail(email) ==>
        auth.oauthRequests ==
          old(auth.oauthRequests) + [AuthContext.OAuthRequest("google", origin + AuthContext.CallbackPath, "offline", "consent")]
      ensures EmailDomain.IsInstituteEmail(email) && providerError.Some? ==>
        error == providerError.value && navigations == old(navigations)
      ensures EmailDomain.IsInstituteEmail(email) && providerError.None? ==>
        error == "" && navigations == old(navigations) + [DashboardPath]
    {
      BeginSelect();
      if !EmailDomain.IsInstituteEmail(email) {
        error := EmailDomain.OnlyInstituteMessage;
      } else {
        var thrown := auth.SignInWithGoogle(origin, providerError);
        if thrown.Some? {
          error := thrown.value;
        } else {
          navigations := navigations + [DashboardPath];
        }
      }
      isLoading := false;
    }
  }
}
