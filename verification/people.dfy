/**
 * The part of the Google People API `Person` record that the bridge reads or
 * writes. Every field of the wire format is optional; a JSON field named
 * `type` is called `sourceType` or `phoneType` here, since `type` is a Dafny
 * keyword.
 */
module People {
  import opened Wrappers

  /** Where a field or a person comes from (`Schema$Source`). */
  datatype Source = Source(sourceType: Option<string>, id: Option<string>)

  /** Per-field metadata (`Schema$FieldMetadata`). */
  datatype FieldMetadata = FieldMetadata(source: Option<Source>)

  /** Per-person metadata (`Schema$PersonMetadata`). */
  datatype PersonMetadata = PersonMetadata(sources: Option<seq<Source>>)

  datatype Name = Name(
    metadata: Option<FieldMetadata>,
    displayName: Option<string>,
    givenName: Option<string>,
    familyName: Option<string>)

  datatype EmailAddress = EmailAddress(metadata: Option<FieldMetadata>, value: Option<string>)

  datatype PhoneNumber = PhoneNumber(
    metadata: Option<FieldMetadata>,
    value: Option<string>,
    phoneType: Option<string>,
    formattedType: Option<string>)

  datatype Photo = Photo(metadata: Option<FieldMetadata>, url: Option<string>)

  datatype Organization = Organization(name: Option<string>)

  datatype Person = Person(
    resourceName: Option<string>,
    metadata: Option<PersonMetadata>,
    names: Option<seq<Name>>,
    emailAddresses: Option<seq<EmailAddress>>,
    organizations: Option<seq<Organization>>,
    phoneNumbers: Option<seq<PhoneNumber>>,
    photos: Option<seq<Photo>>)
}
