/**
 * The password-reset page: a form that accepts only institute addresses and,
 * after a short pause standing in for the request, shows a confirmation.
 */
module ForgotPasswordPage {
  import opened Wrappers
  import EmailDomain

  /** What the page shows: the error banner (if any) and either the confirmation or the form. */
  datatype View = View(banner: Option<string>, body: Body)
  datatype Body = Confirmation | Form(email: string, submitting: bool)

  class ForgotPasswordPageState {
    var email: string
    var isSubmitting: bool
    /** The error banner's text; "" shows no banner. */
    var error: string
    var success: bool

    /**
     * The confirmation is only ever shown for an institute address and with no
     * error; the only error the page ever shows is the institute-only message.
     */
    predicate Valid()
      reads this
    {
      (success ==> error == "" && EmailDomain.IsInstituteEmail(email))
      && (error != "" ==> error == EmailDomain.OnlyInstituteMessage && !success)
    }

    /** A fresh page: empty field, idle button, no error, form shown. */
    constructor()
      ensures Valid()
      ensures email == "" && !isSubmitting && error == "" && !success
    {
      email := "";
      isSubmitting := false;
      error := "";
      success := false;
    }

    /** The page for the current state; the banner shows when the error is non-empty. */
    function Render(): (v: View)
      reads this
      ensures v.banner.Some? <==> error != ""
      ensures v.banner.Some? ==> v.banner.value == error
      ensures v.body.Confirmation? <==> success
      ensures v.body.Form? ==> v.body.email == email && v.body.submitting == isSubmitting
    {
      View(if error != "" then Some(error) else None,
           if success then Confirmation else Form(email, isSubmitting))
    }

    /** Typing in the email field, which exists only while the form is shown. */
    method SetEmail(value: string)
      requires Valid() && !success
      modifies this
      ensures Valid()
      ensures email == value && isSubmitting == old(isSubmitting) && error == old(error) && !success
    {
      email := value;
    }

    /** The submit handler's first step: the error is cleared and the button shows "Sending...". */
    method BeginSubmit()
      requires Valid() && !success && !isSubmitting
      modifies this
      ensures Valid()
      ensures error == "" && isSubmitting && email == old(email) && !success
    {
      error := "";
      isSubmitting := true;
    }

    /**
     * The submit handler's remaining steps: an address outside the institute
     * domain shows the institute-only message and keeps the form; any other
     * address, after the pause, shows the confirmation. Either way the button
     * stops showing "Sending...".
     */
    method FinishSubmit()
      requires Valid() && !success && isSubmitting && error == ""
      modifies this
      ensures Valid()
      ensures !isSubmitting && email == old(email)
      ensures success <==> EmailDomain.IsInstituteEmail(email)
      ensures error == (if success then "" else EmailDomain.OnlyInstituteMessage)
    {
      if !EmailDomain.IsInstituteEmail(email) {
        error := EmailDomain.OnlyInstituteMessage;
      } else {
        success := true;
      }
      isSubmitting := false;
    }

    /**
     * `handleSubmit` as a whole: the confirmation is shown exactly for an
     * institute address, otherwise the form stays with the institute-only
     * message; an earlier error never survives a submission.
     */
    method HandleSubmit()
      requires Valid() && !success && !isSubmitting
      modifies this
      ensures Valid()
      ensures !isSubmitting && email == old(email)
      ensures success <==> EmailDomain.IsInstituteEmail(email)
      ensures error == (if success then "" else EmailDomain.OnlyInstituteMessage)
    {
      BeginSubmit();
      FinishSubmit();
    }
  }
}
