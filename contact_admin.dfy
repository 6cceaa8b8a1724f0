/**
 * The contact editor of the admin dashboard: the society's email and its
 * three social links, edited in memory, with a saved flag that every edit
 * clears.
 */
module ContactAdmin {

  datatype Platform = Instagram | Linkedin | Facebook

  datatype SocialLinks = SocialLinks(instagram: string, linkedin: string, facebook: string)

  datatype ContactInfo = ContactInfo(email: string, socialLinks: SocialLinks)

  const InitialContact: ContactInfo := ContactInfo(
    "photography.society@study.iitm.ac.in",
    SocialLinks("https://instagram.com/iris_society", "https://linkedin.com/company/iris-society",
                "https://facebook.com/iris.society"))

  function LinkOf(links: SocialLinks, p: Platform): string {
    match p
    case Instagram => links.instagram
    case Linkedin => links.linkedin
    case Facebook => links.facebook
  }

  /** `{ ...links, [platform]: value }`: the chosen platform takes the value, the others keep theirs. */
  function WithLink(links: SocialLinks, p: Platform, value: string): (r: SocialLinks)
    ensures LinkOf(r, p) == value
    ensures forall q :: q != p ==> LinkOf(r, q) == LinkOf(links, q)
  {
    match p
    case Instagram => links.(instagram := value)
    case Linkedin => links.(linkedin := value)
    case Facebook => links.(facebook := value)
  }

  class ContactScreen {
    var contactInfo: ContactInfo
    var isSaved: bool

    constructor()
      ensures contactInfo == InitialContact && !isSaved
    {
      contactInfo := InitialContact;
      isSaved := false;
    }

    /** `handleEmailChange`: replaces the email only, and clears the saved flag. */
    method HandleEmailChange(value: string)
      modifies this
      ensures contactInfo.email == value && contactInfo.socialLinks == old(contactInfo.socialLinks)
      ensures !isSaved
    {
      contactInfo := contactInfo.(email := value);
      isSaved := false;
    }

    /** `handleSocialLinkChange`: replaces one platform's link, and clears the saved flag. */
    method HandleSocialLinkChange(p: Platform, value: string)
      modifies this
      ensures contactInfo.email == old(contactInfo.email)
      ensures contactInfo.socialLinks == WithLink(old(contactInfo.socialLinks), p, value)
      ensures !isSaved
    {
      contactInfo := contactInfo.(socialLinks := WithLink(contactInfo.socialLinks, p, value));
      isSaved := false;
    }

    /** `handleSave`: marks the record saved; nothing else changes. */
    method HandleSave()
      modifies this
      ensures isSaved && contactInfo == old(contactInfo)
    {
      isSaved := true;
    }
  }
}
