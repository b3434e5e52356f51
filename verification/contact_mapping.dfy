/**
 * Mapping between a Google People API `Person` and the bridge `Contact`
 * (src/util/contact.ts): reading a person into a contact, writing a contact
 * template back as a person, and the helpers each direction uses.
 */
module ContactMapping {
  import opened Wrappers
  import opened JsStrings
  import opened Seqs
  import P = People
  import B = Bridge

  const ContactUrlPrefix := "https://contacts.google.com/contact/"
  const ContactSourceType := "CONTACT"

  // ---------------------------------------------------------------------
  // Contact-sourced fields

  /** A field is contact-sourced when its metadata names a source of type `CONTACT`. */
  predicate IsGoogleContactField(metadata: Option<P.FieldMetadata>)
    ensures IsGoogleContactField(metadata)
        <==> metadata.Some? && metadata.value.source.Some? && IsContactSource(metadata.value.source.value)
  {
    && metadata.Some?
    && metadata.value.source.Some?
    && Truthy(metadata.value.source.value.sourceType)
    && metadata.value.source.value.sourceType == Some(ContactSourceType)
  }

  predicate IsContactSource(source: P.Source) { source.sourceType == Some(ContactSourceType) }
  predicate IsContactName(name: P.Name) { IsGoogleContactField(name.metadata) }
  predicate IsContactEmail(email: P.EmailAddress) { IsGoogleContactField(email.metadata) }
  predicate IsContactPhoto(photo: P.Photo) { IsGoogleContactField(photo.metadata) }

  // ---------------------------------------------------------------------
  // Identifiers

  /** The second `/`-separated segment of `resourceName`, when present and non-empty. */
  function GetGooglePersonResourceId(person: P.Person): (id: Option<string>)
    ensures id.Some? ==> id.value != "" && '/' !in id.value
  {
    if !Truthy(person.resourceName) then None
    else
      var parts := Split(person.resourceName.value, '/');
      if |parts| > 1 && parts[1] != "" then Some(parts[1]) else None
  }

  /** A resource name `collection/id…` yields the text between the first and second `/`. */
  lemma ResourceIdIsSecondSegment(person: P.Person, collection: string, id: string, tail: string)
    requires '/' !in collection && '/' !in id
    requires tail == [] || tail[0] == '/'
    requires person.resourceName == Some(collection + "/" + id + tail)
    ensures GetGooglePersonResourceId(person) == if id == "" then None else Some(id)
  {
    var s := collection + "/" + id + tail;
    assert s == collection + ['/'] + (id + tail);
    SplitAtFirst(collection, id + tail, '/');
    if tail == [] {
      assert id + tail == id;
      SplitNoSeparator(id, '/');
    } else {
      assert id + tail == id + ['/'] + tail[1..];
      SplitAtFirst(id, tail[1..], '/');
    }
  }

  /** A missing resource name, or one without `/`, yields no id. */
  lemma ResourceIdNeedsSlash(person: P.Person)
    requires person.resourceName.None? || '/' !in person.resourceName.value
    ensures GetGooglePersonResourceId(person).None?
  {
    if person.resourceName.Some? {
      SplitNoSeparator(person.resourceName.value, '/');
    }
  }

  /** `people/c1` has the id `c1`; `people/` has none. */
  lemma ResourceIdExamples(person: P.Person)
    ensures GetGooglePersonResourceId(person.(resourceName := Some("people/c1"))) == Some("c1")
    ensures GetGooglePersonResourceId(person.(resourceName := Some("people/"))) == None
  {
    assert "people/c1" == "people" + "/" + "c1" + "";
    ResourceIdIsSecondSegment(person.(resourceName := Some("people/c1")), "people", "c1", "");
    assert "people/" == "people" + "/" + "" + "";
    ResourceIdIsSecondSegment(person.(resourceName := Some("people/")), "people", "", "");
  }

  /** The id of the first metadata source of type `CONTACT`, when that id is non-empty. */
  function GetGoogleContactId(person: P.Person): (id: Option<string>)
    ensures id.Some? ==> id.value != ""
    ensures person.metadata.None? || person.metadata.value.sources.None? ==> id.None?
    ensures person.metadata.Some? && person.metadata.value.sources.Some? ==>
      var sources := person.metadata.value.sources.value;
      var k := FirstIndex(sources, IsContactSource);
      id == if k < |sources| then OrNull(sources[k].id) else None
  {
    if person.metadata.None? || person.metadata.value.sources.None? then None
    else
      match Find(person.metadata.value.sources.value, IsContactSource)
      case None => None
      case Some(source) => OrNull(source.id)
  }

  /** The contact id comes from the first `CONTACT` source (`k == |sources|`: there is none). */
  lemma ContactIdIsFirstContactSource(person: P.Person, k: nat)
    requires person.metadata.Some? && person.metadata.value.sources.Some?
    requires var sources := person.metadata.value.sources.value;
      && k <= |sources|
      && (forall j :: 0 <= j < k ==> !IsContactSource(sources[j]))
      && (k < |sources| ==> IsContactSource(sources[k]))
    ensures var sources := person.metadata.value.sources.value;
      GetGoogleContactId(person) == if k < |sources| then OrNull(sources[k].id) else None
  {
    FindFirst(person.metadata.value.sources.value, IsContactSource, k);
  }

  /** The contact page URL for a person, when it has a contact id. */
  function ContactUrl(person: P.Person): (url: Option<string>)
    ensures url.Some? <==> GetGoogleContactId(person).Some?
    ensures url.Some? ==> url.value == ContactUrlPrefix + GetGoogleContactId(person).value
  {
    var contactId := GetGoogleContactId(person);
    if Truthy(contactId) then Some(ContactUrlPrefix + contactId.value) else None
  }

  // ---------------------------------------------------------------------
  // Single-valued fields

  /** The given and family name of the first contact-sourced name entry. */
  function GetGoogleContactName(person: P.Person): (name: Option<B.ContactName>)
    ensures person.names.None? ==> name.None?
    ensures person.names.Some? ==>
      var names := person.names.value;
      var k := FirstIndex(names, IsContactName);
      name == if k < |names| then Some(B.ContactName(OrNull(names[k].givenName), OrNull(names[k].familyName)))
              else None
  {
    if person.names.None? then None
    else
      match Find(person.names.value, IsContactName)
      case None => None
      case Some(name) => Some(B.ContactName(OrNull(name.givenName), OrNull(name.familyName)))
  }

  /** The name comes from the first contact-sourced entry (`k == |names|`: there is none). */
  lemma NameIsFirstContactEntry(person: P.Person, k: nat)
    requires person.names.Some?
    requires var names := person.names.value;
      && k <= |names|
      && (forall j :: 0 <= j < k ==> !IsContactName(names[j]))
      && (k < |names| ==> IsContactName(names[k]))
    ensures var names := person.names.value;
      GetGoogleContactName(person)
        == if k < |names| then Some(B.ContactName(OrNull(names[k].givenName), OrNull(names[k].familyName)))
           else None
  {
    FindFirst(person.names.value, IsContactName, k);
  }

  /** The name of the first organization entry, whatever its source. */
  function GetGoogleContactOrganization(person: P.Person): (organization: Option<string>)
    ensures organization.Some? <==>
      person.organizations.Some? && |person.organizations.value| > 0 && Truthy(person.organizations.value[0].name)
    ensures organization.Some? ==> organization == person.organizations.value[0].name
  {
    if person.organizations.None? then None
    else if |person.organizations.value| == 0 then None
    else OrNull(person.organizations.value[0].name)
  }

  /** The value of the first contact-sourced email address. */
  function GetGoogleContactEmailAddress(person: P.Person): (email: Option<string>)
    ensures person.emailAddresses.None? ==> email.None?
    ensures person.emailAddresses.Some? ==>
      var emails := person.emailAddresses.value;
      var k := FirstIndex(emails, IsContactEmail);
      email == if k < |emails| then OrNull(emails[k].value) else None
  {
    if person.emailAddresses.None? then None
    else
      match Find(person.emailAddresses.value, IsContactEmail)
      case None => None
      case Some(email) => OrNull(email.value)
  }

  /** The email comes from the first contact-sourced entry (`k == |emails|`: there is none). */
  lemma EmailIsFirstContactEntry(person: P.Person, k: nat)
    requires person.emailAddresses.Some?
    requires var emails := person.emailAddresses.value;
      && k <= |emails|
      && (forall j :: 0 <= j < k ==> !IsContactEmail(emails[j]))
      && (k < |emails| ==> IsContactEmail(emails[k]))
    ensures var emails := person.emailAddresses.value;
      GetGoogleContactEmailAddress(person) == if k < |emails| then OrNull(emails[k].value) else None
  {
    FindFirst(person.emailAddresses.value, IsContactEmail, k);
  }

  /** The URL of the first contact-sourced photo. */
  function GetGoogleContactPhoto(person: P.Person): (avatarUrl: Option<string>)
    ensures person.photos.None? ==> avatarUrl.None?
    ensures person.photos.Some? ==>
      var photos := person.photos.value;
      var k := FirstIndex(photos, IsContactPhoto);
      avatarUrl == if k < |photos| then OrNull(photos[k].url) else None
  {
    if person.photos.None? then None
    else
      match Find(person.photos.value, IsContactPhoto)
      case None => None
      case Some(photo) => OrNull(photo.url)
  }

  /** The avatar comes from the first contact-sourced photo (`k == |photos|`: there is none). */
  lemma PhotoIsFirstContactEntry(person: P.Person, k: nat)
    requires person.photos.Some?
    requires var photos := person.photos.value;
      && k <= |photos|
      && (forall j :: 0 <= j < k ==> !IsContactPhoto(photos[j]))
      && (k < |photos| ==> IsContactPhoto(photos[k]))
    ensures var photos := person.photos.value;
      GetGoogleContactPhoto(person) == if k < |photos| then OrNull(photos[k].url) else None
  {
    FindFirst(person.photos.value, IsContactPhoto, k);
  }

  // ---------------------------------------------------------------------
  // Phone-number labels

  /** Google phone type to bridge label: only `home`, `work` and `mobile` are known. */
  function GetPhoneNumberLabel(phoneType: Option<string>): (phoneLabel: Option<B.PhoneNumberLabel>)
    ensures phoneLabel.Some? <==> phoneType.Some? && phoneType.value in ["home", "work", "mobile"]
    ensures phoneLabel.Some? ==> phoneLabel.value in {B.Home, B.Work, B.Mobile}
  {
    if phoneType == Some("home") then Some(B.Home)
    else if phoneType == Some("work") then Some(B.Work)
    else if phoneType == Some("mobile") then Some(B.Mobile)
    else None
  }

  /** Bridge label to Google phone type: only HOME, WORK and MOBILE have one. */
  function GetGooglePhoneNumberLabel(phoneLabel: B.PhoneNumberLabel): (phoneType: Option<string>)
    ensures phoneType.Some? <==> phoneLabel in {B.Home, B.Work, B.Mobile}
    ensures phoneType.Some? ==> phoneType.value in ["home", "work", "mobile"]
  {
    match phoneLabel
    case Home => Some("home")
    case Work => Some("work")
    case Mobile => Some("mobile")
    case _ => None
  }

  /** The two label tables are inverse to each other, and cover exactly HOME, WORK and MOBILE. */
  lemma LabelTablesInverse(phoneLabel: B.PhoneNumberLabel, phoneType: string)
    ensures GetGooglePhoneNumberLabel(phoneLabel) == Some(phoneType)
        <==> GetPhoneNumberLabel(Some(phoneType)) == Some(phoneLabel)
    ensures GetGooglePhoneNumberLabel(phoneLabel).Some? <==> phoneLabel in {B.Home, B.Work, B.Mobile}
    ensures GetPhoneNumberLabel(Some(phoneType)).Some? <==> phoneType in {"home", "work", "mobile"}
  {
  }

  // ---------------------------------------------------------------------
  // Phone numbers, read direction

  /** What the reader keeps of one Google phone number: contact-sourced, non-empty, typed home/work/mobile. */
  function ContactPhoneEntry(entry: P.PhoneNumber): Option<B.PhoneNumber> {
    var phoneLabel := GetPhoneNumberLabel(entry.phoneType);
    if IsGoogleContactField(entry.metadata) && Truthy(entry.value) && phoneLabel.Some?
    then Some(B.PhoneNumber(phoneLabel.value, entry.value.value))
    else None
  }

  /**
   * The bridge phone numbers of a person: the kept entries, in order (see
   * `Seqs.FilterMapAppend`); none when the list is absent. They are drawn
   * from the person's list, contain every kept entry, and are no more than
   * the input entries.
   */
  function ContactPhoneNumbers(person: P.Person): (phones: seq<B.PhoneNumber>)
    ensures person.phoneNumbers.None? ==> phones == []
    ensures person.phoneNumbers.Some? ==> |phones| <= |person.phoneNumbers.value|
    ensures forall phone :: phone in phones <==>
      person.phoneNumbers.Some? && exists entry :: entry in person.phoneNumbers.value && ContactPhoneEntry(entry) == Some(phone)
  {
    if person.phoneNumbers.None? then []
    else
      FilterMapMembership(person.phoneNumbers.value, ContactPhoneEntry);
      FilterMap(person.phoneNumbers.value, ContactPhoneEntry)
  }

  /**
   * An entry is kept exactly when it is contact-sourced, has a non-empty
   * number and is typed `home`, `work` or `mobile`; it keeps its number, and
   * its label maps back to its type.
   */
  lemma ContactPhoneEntryKeeps(entry: P.PhoneNumber)
    ensures ContactPhoneEntry(entry).Some?
        <==> IsGoogleContactField(entry.metadata) && Truthy(entry.value)
             && entry.phoneType.Some? && entry.phoneType.value in ["home", "work", "mobile"]
    ensures ContactPhoneEntry(entry).Some? ==>
      && ContactPhoneEntry(entry).value.phoneNumber == entry.value.value
      && GetGooglePhoneNumberLabel(ContactPhoneEntry(entry).value.phoneLabel) == entry.phoneType
  {
  }

  /** `getGoogleContactPhoneNumbers`: scans the person's phone numbers and pushes each kept one. */
  method GetGoogleContactPhoneNumbers(person: P.Person) returns (phoneNumbers: seq<B.PhoneNumber>)
    ensures phoneNumbers == ContactPhoneNumbers(person)
  {
    if person.phoneNumbers.None? {
      return [];
    }
    var entries := person.phoneNumbers.value;
    phoneNumbers := [];
    for i := 0 to |entries|
      invariant phoneNumbers == FilterMap(entries[..i], ContactPhoneEntry)
    {
      var entry := entries[i];
      var isContactNumber := IsGoogleContactField(entry.metadata);
      var phoneNumberLabel := GetPhoneNumberLabel(entry.phoneType);
      if isContactNumber && Truthy(entry.value) && phoneNumberLabel.Some? {
        phoneNumbers := phoneNumbers + [B.PhoneNumber(phoneNumberLabel.value, entry.value.value)];
      }
      assert entries[..i + 1] == entries[..i] + [entry];
      FilterMapAppend(entries[..i], [entry], ContactPhoneEntry);
      FilterMapSingleton(entry, ContactPhoneEntry);
    }
    assert entries[..|entries|] == entries;
  }

  // ---------------------------------------------------------------------
  // Person to contact

  /** `convertGooglePersonToContact`: a contact for every person with a resource id. */
  function ConvertGooglePersonToContact(person: P.Person): (contact: Option<B.Contact>)
    ensures contact.None? <==> GetGooglePersonResourceId(person).None?
    ensures contact.Some? ==>
      var c := contact.value;
      var name := GetGoogleContactName(person);
      && c.id == GetGooglePersonResourceId(person).value
      && c.name.None?
      && c.firstName == (if name.Some? then name.value.firstName else None)
      && c.lastName == (if name.Some? then name.value.lastName else None)
      && c.email == GetGoogleContactEmailAddress(person)
      && c.organization == GetGoogleContactOrganization(person)
      && c.contactUrl == ContactUrl(person)
      && c.avatarUrl == GetGoogleContactPhoto(person)
      && c.phoneNumbers == ContactPhoneNumbers(person)
  {
    var id := GetGooglePersonResourceId(person);
    var contactName := GetGoogleContactName(person);
    if Truthy(id) then
      Some(B.Contact(
        id := id.value,
        name := None,
        firstName := if contactName.Some? then contactName.value.firstName else None,
        lastName := if contactName.Some? then contactName.value.lastName else None,
        email := GetGoogleContactEmailAddress(person),
        organization := GetGoogleContactOrganization(person),
        contactUrl := ContactUrl(person),
        avatarUrl := GetGoogleContactPhoto(person),
        phoneNumbers := ContactPhoneNumbers(person)))
    else None
  }

  /** Every optional text field of a converted contact is either null or non-empty. */
  lemma ContactFieldsAreNullOrNonEmpty(person: P.Person)
    requires ConvertGooglePersonToContact(person).Some?
    ensures var c := ConvertGooglePersonToContact(person).value;
      && c.id != ""
      && (c.firstName.None? || Truthy(c.firstName))
      && (c.lastName.None? || Truthy(c.lastName))
      && (c.email.None? || Truthy(c.email))
      && (c.organization.None? || Truthy(c.organization))
      && (c.avatarUrl.None? || Truthy(c.avatarUrl))
      && forall k :: 0 <= k < |c.phoneNumbers| ==> c.phoneNumbers[k].phoneNumber != ""
  {
    var c := ConvertGooglePersonToContact(person).value;
    forall k | 0 <= k < |c.phoneNumbers|
      ensures c.phoneNumbers[k].phoneNumber != ""
    {
      assert c.phoneNumbers[k] in ContactPhoneNumbers(person);
    }
  }

  // ---------------------------------------------------------------------
  // Contact to person

  /** What the writer emits for one bridge phone number: only HOME, WORK and MOBILE have a Google type. */
  function GooglePhoneEntry(phone: B.PhoneNumber): Option<P.PhoneNumber> {
    match GetGooglePhoneNumberLabel(phone.phoneLabel)
    case None => None
    case Some(phoneType) => Some(P.PhoneNumber(None, Some(phone.phoneNumber), Some(phoneType), None))
  }

  /** The Google phone numbers of a template: the HOME/WORK/MOBILE entries, in order. */
  function GooglePhoneNumbers(phones: seq<B.PhoneNumber>): seq<P.PhoneNumber> {
    FilterMap(phones, GooglePhoneEntry)
  }

  /** `convertContactToGooglePerson`: one name, and the truthy fields of the template. */
  function ConvertContactToGooglePerson(contact: B.ContactTemplate): (person: P.Person)
    ensures person.names.Some? && |person.names.value| == 1
    ensures var name := person.names.value[0];
      && (name.givenName.Some? <==> Truthy(contact.firstName))
      && (name.givenName.Some? ==> name.givenName == contact.firstName)
      && (name.familyName.Some? <==> Truthy(contact.lastName))
      && (name.familyName.Some? ==> name.familyName == contact.lastName)
      && name.metadata.None? && name.displayName.None?
    ensures person.emailAddresses.Some? <==> Truthy(contact.email)
    ensures person.emailAddresses.Some? ==> person.emailAddresses.value == [P.EmailAddress(None, contact.email)]
    ensures person.organizations.Some? <==> Truthy(contact.organization)
    ensures person.organizations.Some? ==> person.organizations.value == [P.Organization(contact.organization)]
    ensures person.phoneNumbers == Some(GooglePhoneNumbers(contact.phoneNumbers))
    ensures person.resourceName.None? && person.metadata.None? && person.photos.None?
  {
    var name := P.Name(None, None, OrNull(contact.firstName), OrNull(contact.lastName));
    P.Person(
      resourceName := None,
      metadata := None,
      names := Some([name]),
      emailAddresses := if Truthy(contact.email) then Some([P.EmailAddress(None, contact.email)]) else None,
      organizations := if Truthy(contact.organization) then Some([P.Organization(contact.organization)]) else None,
      phoneNumbers := Some(GooglePhoneNumbers(contact.phoneNumbers)),
      photos := None)
  }

  /**
   * The written phone numbers are exactly the HOME/WORK/MOBILE entries of the
   * template, each with its number and the Google type of its label.
   */
  lemma GooglePhoneNumbersFromLabels(phones: seq<B.PhoneNumber>)
    ensures |GooglePhoneNumbers(phones)| <= |phones|
    ensures forall out :: out in GooglePhoneNumbers(phones) <==>
      exists phone :: phone in phones && phone.phoneLabel in {B.Home, B.Work, B.Mobile}
        && out == P.PhoneNumber(None, Some(phone.phoneNumber), GetGooglePhoneNumberLabel(phone.phoneLabel), None)
  {
    FilterMapMembership(phones, GooglePhoneEntry);
    forall out
      ensures (exists phone :: phone in phones && GooglePhoneEntry(phone) == Some(out))
          <==> (exists phone :: phone in phones && phone.phoneLabel in {B.Home, B.Work, B.Mobile}
                 && out == P.PhoneNumber(None, Some(phone.phoneNumber), GetGooglePhoneNumberLabel(phone.phoneLabel), None))
    {
      if exists phone :: phone in phones && GooglePhoneEntry(phone) == Some(out) {
        var phone :| phone in phones && GooglePhoneEntry(phone) == Some(out);
        assert phone.phoneLabel in {B.Home, B.Work, B.Mobile};
      }
      if exists phone :: phone in phones && phone.phoneLabel in {B.Home, B.Work, B.Mobile}
                 && out == P.PhoneNumber(None, Some(phone.phoneNumber), GetGooglePhoneNumberLabel(phone.phoneLabel), None) {
        var phone :| phone in phones && phone.phoneLabel in {B.Home, B.Work, B.Mobile}
                 && out == P.PhoneNumber(None, Some(phone.phoneNumber), GetGooglePhoneNumberLabel(phone.phoneLabel), None);
        assert GooglePhoneEntry(phone) == Some(out);
      }
    }
  }

  /**
   * Bridge numbers labelled HOME, WORK or MOBILE all survive writing, position
   * by position, and their Google type reads back as the same label.
   */
  lemma LabelledPhoneNumbersSurviveWrite(phones: seq<B.PhoneNumber>)
    requires forall phone :: phone in phones ==> phone.phoneLabel in {B.Home, B.Work, B.Mobile}
    ensures |GooglePhoneNumbers(phones)| == |phones|
    ensures forall k :: 0 <= k < |phones| ==>
      && GooglePhoneNumbers(phones)[k].value == Some(phones[k].phoneNumber)
      && GetPhoneNumberLabel(GooglePhoneNumbers(phones)[k].phoneType) == Some(phones[k].phoneLabel)
  {
    FilterMapAllKept(phones, GooglePhoneEntry);
  }

  // ---------------------------------------------------------------------
  // Read, then write

  /** A kept Google phone number as the writer reproduces it: same number and type, no metadata. */
  function WireCopy(entry: P.PhoneNumber): Option<P.PhoneNumber> {
    if ContactPhoneEntry(entry).Some? then Some(P.PhoneNumber(None, entry.value, entry.phoneType, None)) else None
  }

  /**
   * Writing back the phone numbers read from a person reproduces exactly the
   * kept entries, in order, with the same number and type.
   */
  lemma PhoneNumbersRoundTrip(entries: seq<P.PhoneNumber>)
    ensures GooglePhoneNumbers(FilterMap(entries, ContactPhoneEntry)) == FilterMap(entries, WireCopy)
  {
    forall entry: P.PhoneNumber
      ensures WireCopy(entry)
        == if ContactPhoneEntry(entry).Some? then GooglePhoneEntry(ContactPhoneEntry(entry).value) else None
    {
      ContactPhoneEntryKeeps(entry);
    }
    FilterMapFuse(entries, ContactPhoneEntry, GooglePhoneEntry, WireCopy);
  }

  /**
   * Reading a person and writing the contact back keeps the name parts,
   * email, organization and the kept phone numbers: the organization reads
   * back unchanged.
   */
  lemma ReadThenWrite(person: P.Person)
    requires ConvertGooglePersonToContact(person).Some?
    ensures var c := ConvertGooglePersonToContact(person).value;
      var written := ConvertContactToGooglePerson(c.AsTemplate());
      && written.names.value[0].givenName == c.firstName
      && written.names.value[0].familyName == c.lastName
      && written.emailAddresses == (if c.email.Some? then Some([P.EmailAddress(None, c.email)]) else None)
      && GetGoogleContactOrganization(written) == c.organization
      && written.phoneNumbers
         == Some(if person.phoneNumbers.None? then [] else FilterMap(person.phoneNumbers.value, WireCopy))
  {
    ContactFieldsAreNullOrNonEmpty(person);
    if person.phoneNumbers.Some? {
      PhoneNumbersRoundTrip(person.phoneNumbers.value);
    }
  }

  /**
   * A written person has no resource name and its entries carry no source,
   * so reading it directly yields no contact and no contact-sourced fields;
   * only the organization, which is read regardless of source, comes back.
   */
  lemma WrittenPersonReadsBack(contact: B.ContactTemplate)
    ensures var written := ConvertContactToGooglePerson(contact);
      && ConvertGooglePersonToContact(written).None?
      && GetGoogleContactName(written).None?
      && GetGoogleContactEmailAddress(written).None?
      && ContactPhoneNumbers(written) == []
      && GetGoogleContactOrganization(written) == OrNull(contact.organization)
  {
    var written := ConvertContactToGooglePerson(contact);
    GooglePhoneNumbersFromLabels(contact.phoneNumbers);
    FilterMapNoneKept(written.phoneNumbers.value, ContactPhoneEntry);
  }
}
