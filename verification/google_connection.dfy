/**
 * The older connection mapper of src/util/google.ts: a People API connection
 * becomes a contact carrying a display name and the phone numbers of a
 * relevant type, each labelled with Google's formatted type.
 */
module GoogleConnection {
  import opened Wrappers
  import opened Seqs
  import P = People
  import ContactMapping

  /** The phone-number types the mapper keeps. */
  const RelevantPhoneNumberTypes: seq<string> := ["home", "work", "mobile"]

  /** A phone number of the older contact model; both fields are copied as they are, possibly undefined. */
  datatype ConnectionPhoneNumber = ConnectionPhoneNumber(phoneLabel: Option<string>, phoneNumber: Option<string>)

  /** The older contact model: a name and phone numbers, nothing else. */
  datatype ConnectionContact = ConnectionContact(name: Option<string>, phoneNumbers: seq<ConnectionPhoneNumber>)

  /** `RELEVANT_PHONE_NUMBER_TYPES.indexOf(type) >= 0`: an absent type is never relevant. */
  predicate IsRelevantType(phoneType: Option<string>) {
    phoneType.Some? && phoneType.value in RelevantPhoneNumberTypes
  }

  /** What the mapper keeps of one phone number: relevant ones, as formatted type and value. */
  function RelevantEntry(entry: P.PhoneNumber): (kept: Option<ConnectionPhoneNumber>)
    ensures kept.Some? <==> entry.phoneType.Some? && entry.phoneType.value in {"home", "work", "mobile"}
    ensures kept.Some? ==> kept.value.phoneLabel == entry.formattedType && kept.value.phoneNumber == entry.value
  {
    if IsRelevantType(entry.phoneType) then Some(ConnectionPhoneNumber(entry.formattedType, entry.value)) else None
  }

  /**
   * `convertGoogleConnection`: the display name of the first name entry and
   * the relevant phone numbers. The source dereferences `names[0]` and
   * `phoneNumbers` unguarded, so both must be present.
   */
  function ConvertGoogleConnection(connection: P.Person): (contact: ConnectionContact)
    requires connection.names.Some? && |connection.names.value| > 0
    requires connection.phoneNumbers.Some?
    ensures contact.name == connection.names.value[0].displayName
    ensures |contact.phoneNumbers| <= |connection.phoneNumbers.value|
  {
    var name := connection.names.value[0].displayName;
    var phoneNumbers := FilterMap(connection.phoneNumbers.value, RelevantEntry);
    ConnectionContact(name, phoneNumbers)
  }

  /**
   * The output phone numbers are exactly the relevant input entries, each
   * labelled with its formatted type and carrying its value.
   */
  lemma ConnectionPhoneNumbersAreRelevantEntries(connection: P.Person)
    requires connection.names.Some? && |connection.names.value| > 0
    requires connection.phoneNumbers.Some?
    ensures forall out :: out in ConvertGoogleConnection(connection).phoneNumbers <==>
      exists entry :: entry in connection.phoneNumbers.value && IsRelevantType(entry.phoneType)
        && out == ConnectionPhoneNumber(entry.formattedType, entry.value)
  {
    FilterMapMembership(connection.phoneNumbers.value, RelevantEntry);
  }

  /** Relevant entries keep their positions: when every entry is relevant, entry k becomes output k. */
  lemma ConnectionPhoneNumbersKeepOrder(connection: P.Person)
    requires connection.names.Some? && |connection.names.value| > 0
    requires connection.phoneNumbers.Some?
    requires forall entry :: entry in connection.phoneNumbers.value ==> IsRelevantType(entry.phoneType)
    ensures var entries := connection.phoneNumbers.value;
      var out := ConvertGoogleConnection(connection).phoneNumbers;
      && |out| == |entries|
      && forall k :: 0 <= k < |entries| ==>
           out[k] == ConnectionPhoneNumber(entries[k].formattedType, entries[k].value)
  {
    FilterMapAllKept(connection.phoneNumbers.value, RelevantEntry);
  }

  /** With no entry of a relevant type there are no phone numbers. */
  lemma NoRelevantTypeNoPhoneNumbers(connection: P.Person)
    requires connection.names.Some? && |connection.names.value| > 0
    requires connection.phoneNumbers.Some?
    requires forall entry :: entry in connection.phoneNumbers.value ==> !IsRelevantType(entry.phoneType)
    ensures ConvertGoogleConnection(connection).phoneNumbers == []
  {
    FilterMapNoneKept(connection.phoneNumbers.value, RelevantEntry);
  }

  /** The allow-list is the same set of types the person mapper's label table knows. */
  lemma RelevantTypesAreLabelledTypes(phoneType: Option<string>)
    ensures IsRelevantType(phoneType) <==> ContactMapping.GetPhoneNumberLabel(phoneType).Some?
  {
  }
}
