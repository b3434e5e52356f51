/** The contact model of the host bridge library that the adapter produces and consumes. */
module Bridge {
  import opened Wrappers

  /** The bridge's phone-number label vocabulary (a phone number's `label`, called `phoneLabel` here since `label` is a Dafny keyword). */
  datatype PhoneNumberLabel =
    | Home | Work | Mobile | HomeFax | WorkFax | WorkMobile | WorkPager | Main | GoogleVoice | Other

  datatype PhoneNumber = PhoneNumber(phoneLabel: PhoneNumberLabel, phoneNumber: string)

  /** A first and last name, each possibly missing. */
  datatype ContactName = ContactName(firstName: Option<string>, lastName: Option<string>)

  /** A contact as served to the bridge; `None` stands for `null`. */
  datatype Contact = Contact(
    id: string,
    name: Option<string>,
    firstName: Option<string>,
    lastName: Option<string>,
    email: Option<string>,
    organization: Option<string>,
    contactUrl: Option<string>,
    avatarUrl: Option<string>,
    phoneNumbers: seq<PhoneNumber>)
  {
    /** A contact is structurally a template: the fields a writer may set. */
    function AsTemplate(): ContactTemplate {
      ContactTemplate(firstName, lastName, email, organization, phoneNumbers)
    }
  }

  /** The writer-side contact (a template, or an update without its id): the fields the mapper reads. */
  datatype ContactTemplate = ContactTemplate(
    firstName: Option<string>,
    lastName: Option<string>,
    email: Option<string>,
    organization: Option<string>,
    phoneNumbers: seq<PhoneNumber>)
}
