/** The institute-address check that the password-reset and account-picker pages apply. */
module EmailDomain {
  import JsText

  const InstituteSuffix: string := "@ds.study.iitm.ac.in"
  const OnlyInstituteMessage: string := "Only IITM DS email addresses are allowed"

  /** `email.endsWith("@ds.study.iitm.ac.in")`: a case-sensitive suffix test. */
  predicate IsInstituteEmail(email: string) {
    JsText.EndsWith(email, InstituteSuffix)
  }

  /** Any local part followed by the suffix passes, the empty one included. */
  lemma SuffixAccepted(local: string)
    ensures IsInstituteEmail(local + InstituteSuffix)
    ensures IsInstituteEmail(InstituteSuffix)
  {
    JsText.EndsWithConcat(local, InstituteSuffix);
    JsText.EndsWithConcat("", InstituteSuffix);
    assert "" + InstituteSuffix == InstituteSuffix;
  }

  /** An address shorter than the suffix never passes. */
  lemma ShortRejected(email: string)
    requires |email| < |InstituteSuffix|
    ensures !IsInstituteEmail(email)
  {
  }
}
