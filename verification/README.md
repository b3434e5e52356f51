# Google Contacts bridge: contact mapping in Dafny

This project models the pure core of a bridge adapter that serves Google
Contacts to a host contact-bridge platform. The modelled parts are:

- the mapping between a Google People API `Person` and the bridge `Contact`,
  both ways (`src/util/contact.ts`);
- the older connection mapper with its phone-type allow-list (`src/util/google.ts`);
- the API key that packs an OAuth2 access token and refresh token into one
  string and unpacks it again (`src/index.ts`);
- the key anonymizer used when logging cache keys (`src/util/anonymize-key.ts`).

Modules, one per concern:

- `Wrappers`: `Option`, standing for `null`/`undefined`.
- `Seqs`: `Array.prototype.find` and a fused `filter`/`map` (`FilterMap`).
  Each has a lemma that pins down its meaning: first match, order-preserving
  concatenation, membership in both directions.
- `JsStrings`: JavaScript truthiness of an optional string, `split`
  (splitting at every separator) with its inverse `Join`, and the legacy
  `substr` (ECMAScript Annex B.2.2.1).
- `People` and `Bridge`: the record shapes. A JSON field `type` is called
  `sourceType`/`phoneType`, and `label` is called `phoneLabel`, because
  `type` and `label` are Dafny keywords.
- `ContactMapping`, `GoogleConnection`, `ApiKey`, `AnonymizeKey`: the four
  source files.

`getGoogleContactPhoneNumbers` builds its list with `push` in a loop. It is
the method `ContactMapping.GetGoogleContactPhoneNumbers`, which is proved equal
to the specification function `ContactPhoneNumbers`. Everything else in the
core is a pure expression and is modelled as a function.

Some plausible behaviours are not what the code does. The model follows the code:

- The API key is not split at the first `:` only. The code splits at every
  `:` and keeps pieces 0 and 1. A refresh token that contains `:` is
  therefore cut short (`ApiKey.ColonInRefreshTokenIsLost`).
- There is no permissive mode that passes every phone type through with its
  raw label. The code always filters to home/work/mobile.
- Emails and photos are not chosen by a "primary" flag. The code uses only
  the `CONTACT` source tag.
- Reading a person, writing the contact back and reading the result does not
  give the contact again. A written person has no resource name, and its
  entries have no source tag, so reading it directly gives no contact
  (`ContactMapping.WrittenPersonReadsBack`). What does hold is field by field:
  names, email, organization and the kept phone numbers are written back
  unchanged (`ContactMapping.ReadThenWrite`).

## Model

| member | source | states |
|---|---|---|
| `ContactMapping.ConvertGooglePersonToContact` | src/util/contact.ts:11-35 | No contact exactly when no resource id can be extracted. Otherwise `id` is that resource id and `name` is null. Every other field is the matching getter's result. `contactUrl` comes from the contact id. |
| `ContactMapping.ContactFieldsAreNullOrNonEmpty` | src/util/contact.ts:21-33 | In a converted contact the id is non-empty, and every optional text field is null or non-empty. No phone number is empty. |
| `ContactMapping.ConvertContactToGooglePerson` | src/util/contact.ts:37-75 | Exactly one name entry is written. Given and family name are set iff first and last name are truthy. Email addresses and organizations are present, with one entry carrying the value, iff the value is truthy. The phone numbers are the written HOME/WORK/MOBILE entries. No resource name, metadata or photos are written. |
| `ContactMapping.GooglePhoneNumbersFromLabels` | src/util/contact.ts:59-72 | A written phone number is exactly a HOME/WORK/MOBILE-labelled input entry with the same number and the Google type of its label. There are never more outputs than inputs. |
| `ContactMapping.LabelledPhoneNumbersSurviveWrite` | src/util/contact.ts:59-72 | When every label is HOME/WORK/MOBILE, entry k is written as output k. It keeps its number, and its type reads back as the same label. |
| `ContactMapping.LabelTablesInverse` | src/util/contact.ts:77-88 | The bridge-to-Google and Google-to-bridge label tables are mutually inverse. They cover exactly HOME/WORK/MOBILE and `home`/`work`/`mobile`. |
| `ContactMapping.GetGooglePhoneNumberLabel` | src/util/contact.ts:77-88 | A bridge label has a Google type iff it is HOME, WORK or MOBILE. That type is one of `home`/`work`/`mobile`. |
| `ContactMapping.GetPhoneNumberLabel` | src/util/contact.ts:159-170 | A Google type has a bridge label iff it is exactly `home`, `work` or `mobile`. That label is one of HOME/WORK/MOBILE. |
| `ContactMapping.GetGooglePersonResourceId` | src/util/contact.ts:90-102 | A resource id, when there is one, is non-empty and contains no `/`. |
| `ContactMapping.ResourceIdIsSecondSegment` | src/util/contact.ts:95-101 | For a resource name `collection/id…` the result is the text between the first and second `/`. It is null when that text is empty. |
| `ContactMapping.ResourceIdNeedsSlash` | src/util/contact.ts:92-98 | A missing resource name, or one without `/`, gives no id. |
| `ContactMapping.ResourceIdExamples` | src/util/contact.ts:90-102 | `people/c1` gives `c1`, and `people/` gives null. |
| `ContactMapping.GetGoogleContactId` | src/util/contact.ts:104-114 | With no metadata or no source list there is no contact id. Otherwise it is the truthy id of the first source typed `CONTACT`, and null when there is no such source. A contact id is never empty. |
| `ContactMapping.ContactIdIsFirstContactSource` | src/util/contact.ts:109-113 | The contact id is the truthy id of the first metadata source typed `CONTACT`. It is null when there is no such source. |
| `ContactMapping.ContactUrl` | src/util/contact.ts:16 | The contact URL exists iff the contact id does. It is `https://contacts.google.com/contact/` followed by that id. |
| `ContactMapping.NameIsFirstContactEntry` | src/util/contact.ts:116-128 | First and last name come from the first contact-sourced name entry (empty values become null). There are none when no entry is contact-sourced. |
| `ContactMapping.GetGoogleContactName` | src/util/contact.ts:116-128 | An absent name list gives no name. Otherwise the name comes from the first contact-sourced entry, with given and family name each null when empty. It is null when no entry is contact-sourced. |
| `ContactMapping.GetGoogleContactOrganization` | src/util/contact.ts:130-139 | The organization is present iff the first organization entry, whatever its source, has a non-empty name. It is then that name. |
| `ContactMapping.ContactPhoneEntryKeeps` | src/util/contact.ts:147-153 | A Google phone number is kept iff it is contact-sourced, has a non-empty value and is typed exactly `home`/`work`/`mobile`. It keeps its number, and its label maps back to its type. |
| `ContactMapping.ContactPhoneNumbers` | src/util/contact.ts:141-157 | An absent list gives `[]`. The output is no longer than the input. Its elements are exactly the images of the kept input entries. |
| `ContactMapping.GetGoogleContactPhoneNumbers` | src/util/contact.ts:141-157 | The push loop returns exactly `ContactPhoneNumbers`: the kept entries, filtered in input order. |
| `ContactMapping.EmailIsFirstContactEntry` | src/util/contact.ts:172-182 | The email is the truthy value of the first contact-sourced email entry. It is null when there is none. |
| `ContactMapping.GetGoogleContactEmailAddress` | src/util/contact.ts:172-182 | An absent list gives no email. Otherwise the email is the truthy value of the first contact-sourced entry, and null when there is none. |
| `ContactMapping.PhotoIsFirstContactEntry` | src/util/contact.ts:184-196 | The avatar URL is the truthy URL of the first contact-sourced photo. It is null when there is none. |
| `ContactMapping.GetGoogleContactPhoto` | src/util/contact.ts:184-196 | An absent list gives no avatar. Otherwise the avatar URL is the truthy URL of the first contact-sourced photo, and null when there is none. |
| `ContactMapping.IsGoogleContactField` | src/util/contact.ts:198-209 | A field counts as contact-sourced iff it has metadata with a source whose type is `CONTACT`. |
| `ContactMapping.PhoneNumbersRoundTrip` | src/util/contact.ts:141-170 | Writing back the phone numbers read from a list gives exactly the kept entries, in order, with the same number and type. |
| `ContactMapping.ReadThenWrite` | src/util/contact.ts:37-59 | Reading a person and writing the contact back keeps given name, family name, email and the kept phone numbers. The organization reads back unchanged. |
| `ContactMapping.WrittenPersonReadsBack` | src/util/contact.ts:40-57 | A written person reads back as no contact and has no contact-sourced name, email or phone numbers. Only the organization comes back. |
| `Seqs.FirstIndex` | src/util/contact.ts:109 | The position of the first element satisfying the predicate. It is the length when there is none. |
| `Seqs.Find` | src/util/contact.ts:120 | `find` gives nothing iff no element matches. Otherwise it gives a matching element of the sequence. |
| `Seqs.FindFirst` | src/util/contact.ts:177 | `find` returns the first matching element. |
| `Seqs.FilterMap` | src/util/google.ts:38-43 | A fused `filter`/`map` never yields more elements than its input. |
| `Seqs.FilterMapAppend` | src/util/google.ts:38-43 | Filtering a concatenation concatenates the filtered parts, so input order is kept. |
| `Seqs.FilterMapMembership` | src/util/google.ts:38-43 | An output element is exactly the result for some input element. |
| `JsStrings.Split` | src/util/contact.ts:95 | `split` yields at least one piece, and no piece contains the separator. |
| `JsStrings.JoinSplit` | src/index.ts:8 | Joining the pieces of a split with the separator gives back the string. |
| `JsStrings.SplitJoin` | src/index.ts:8 | Splitting a join of separator-free pieces gives back the pieces. |
| `JsStrings.SplitAtFirst` | src/index.ts:8 | The text before the first separator is the first piece, and the rest is split on its own. |
| `JsStrings.SplitFirstPieces` | src/index.ts:8 | A split has a single piece, the whole string, iff there is no separator. Otherwise the first piece, a separator and the second piece form a prefix of the string, followed by its end or another separator. |
| `JsStrings.Substr` | src/util/anonymize-key.ts:4 | `substr` never yields more characters than the requested length. |
| `GoogleConnection.ConvertGoogleConnection` | src/util/google.ts:36-48 | The name is the first name entry's `displayName`. There are no more phone numbers than input entries. The result carries only a name and phone numbers. It requires a non-empty `names` and a present `phoneNumbers`. |
| `GoogleConnection.RelevantEntry` | src/util/google.ts:39-43 | An entry is kept iff its type is `home`, `work` or `mobile` (an absent type never is). A kept entry is labelled with its `formattedType` and carries its `value`. |
| `GoogleConnection.ConnectionPhoneNumbersAreRelevantEntries` | src/util/google.ts:38-43 | The output phone numbers are exactly the entries typed `home`/`work`/`mobile`. Each is labelled with its `formattedType` and carries its `value`. |
| `GoogleConnection.ConnectionPhoneNumbersKeepOrder` | src/util/google.ts:38-43 | When every entry is relevant, entry k becomes output k. |
| `GoogleConnection.NoRelevantTypeNoPhoneNumbers` | src/util/google.ts:38-43 | With no entry of a relevant type, the output has no phone numbers. |
| `GoogleConnection.RelevantTypesAreLabelledTypes` | src/util/google.ts:10 | The allow-list holds exactly the types that the person mapper's label table knows. |
| `ApiKey.EncodeApiKey` | src/index.ts:28 | The key is the two tokens joined with `:`. Its length is the sum of the tokens' lengths plus one. |
| `ApiKey.DecodeApiKey` | src/index.ts:8 | The access token is the text before the first `:` (the whole key when there is none). The refresh token exists iff the key contains `:`, and is the text up to the next `:` or the end. |
| `ApiKey.DecodeEncode` | src/index.ts:8 | Decoding an encoded key gives back both tokens when neither contains `:`. |
| `ApiKey.DecodeDropsAfterSecondSeparator` | src/index.ts:8 | Everything after a second `:` is discarded. |
| `ApiKey.ColonInRefreshTokenIsLost` | src/index.ts:8 | Encoding `acc1` and `sub:ref1` decodes to `acc1` and `sub`. |
| `ApiKey.DecodeWithoutSeparator` | src/index.ts:8 | A key without `:` is all access token, with no refresh token. |
| `AnonymizeKey.AnonymizeKeyAsWritten` | src/util/anonymize-key.ts:1-4 | The output is `...` followed by a tail of the key: the last 10 characters of a key of at least 10, all of a key of at most 5 characters, and only the last 10 − length characters of a key of 6 to 9 characters. |
| `AnonymizeKey.AsWrittenHidesShortKey` | src/util/anonymize-key.ts:4 | `abcdefgh` is shown as `...gh` by the written code and as `...abcdefgh` by the intended one. |
| `AnonymizeKey.AnonymizeKey` | src/util/anonymize-key.ts:1-4 | The intended version, which differs from the code on keys of 6 to 9 characters (see Findings). The output starts with `...`, and its length is 3 + min(10, length), so at most 13. |
| `AnonymizeKey.AnonymizeKeyShowsTail` | src/util/anonymize-key.ts:4 | After the prefix comes the key's tail of that length. A key of at most 10 characters is shown whole, and the empty key gives `...`. |
| `AnonymizeKey.AsWrittenAgreesOutsideSixToNine` | src/util/anonymize-key.ts:4 | The written and intended functions agree iff the key is not 6 to 9 characters long. |

## Findings

| source | as written | input that shows it | evidently intended | confidence | as-written member | corrected member |
|---|---|---|---|---|---|---|
| src/util/anonymize-key.ts:4 | For a key shorter than 10, the start `length - 10` is negative. `substr` counts a negative start back from the end of the string, so a key of 6 to 9 characters shows only its last 10 − length characters. | `"abcdefgh"` gives `"...gh"` | the last min(10, length) characters: `"...abcdefgh"` | medium; not executed | `AnonymizeKey.AsWrittenHidesShortKey` | `AnonymizeKey.AnonymizeKey` |

## Left out

- Network and OAuth calls are not modelled: `getGoogleContacts`, `getOAuth2Client`, `getOAuth2RedirectUrl`, and `refreshAccessToken`, `getToken` and `start` in `src/index.ts`. They are HTTP calls through external libraries.
- The Redis cache wrapper (`src/cache/redis-cache.ts`), the calendar mapping (`src/util/calendar.ts`) and environment parsing (`src/util/parse-environment.ts`) are not modelled. They are network calls, `Date`/clock handling and environment reads.
- Logging is not modelled.
- Pagination, retry of mutations, etag-based updates and incremental cache patching do not appear in this code, so they are not modelled.
- `ApiKey.EncodeApiKey` takes two strings. A token that is absent would be rendered by the template string as the literal text `null` or `undefined`; this is not modelled.
- Bridge phone labels are the ten-value vocabulary. A free-text label behaves like any label other than HOME/WORK/MOBILE: the writer drops it.
- The filter and the `map` that follow it in `convertContactToGooglePerson` are fused. So the `map`'s own check that a label exists, which always passes after the filter, does not appear separately.
- Only the `Person` fields that the mapper reads or writes are modelled. An update's `id` is never read by the mapper, so the template has no `id`.
- The file defining `ContactName` is not part of this model. It is taken to be a pair of optional first and last names.
- Strings are sequences of characters. JavaScript's UTF-16 code units and surrogate pairs are not modelled.
