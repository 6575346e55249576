# Encounter report projection

A model of the read-only projection at the heart of the EMS email adapter. A
FHIR (STU3) bundle holding an Encounter and the resources it refers to is
projected into the values an encounter report shows.

- **EncounterReport**: finding the first resource of a class that passes a
  list of predicates, and resolving a reference by its id part. It also
  covers every accessor: the encounter, its patient, creation time, owner,
  consent status and dates, period, id, identifiers, status, locations and
  responsible party. Each accessor falls back to "Unknown" or an empty list
  at the first missing link.
- **GPModel**: the general practitioner seen as an Organization, a
  Practitioner or an unknown party, each with a name, an address and
  contact points.
- **PatientModel**: the patient's fields and their fallbacks, and the
  general practitioners resolved through the bundle.
- **PatientIdentifierModel**: NHS numbers grouped for display, their
  verification status, and local identifiers.
- **EmailSettings**: the four required environment keys.
- **OutgoingEmailBuilder**: the attachment's file name, read back from the
  patient banner of the rendered report.

The code is pure, so the model is datatypes, functions and lemmas. Some
behaviour of the FHIR library is modelled explicitly:

- `getXFirstRep` gives the first element, or a new empty one (`Fhir.FirstRep`).
- `hasX` on a list means some element is not empty.
- A blank string (empty or whitespace only) counts as absent. The library stores a blank id as none, and its emptiness tests ignore blank values (`Fhir.Present`).
- The id part of an id or reference is its last `/`-separated segment
  (`Fhir.IdPart`).
- `Optional.map` of a null result is empty. So an Organization without a
  name makes the owner "Unknown".
- Java's `String.split` drops trailing empty strings (`Text.JavaSplit`).

The date formatting helpers and `HumanName.getNameAsSingleString` are passed
in as the function fields of `Fhir.Formats`. The date-of-birth conversion in
the file name is passed in as `OutgoingEmailBuilder.DobConversion`.

Where the repository does not say what its code means, the model takes the
code's side:

- `PatientModel.getGeneralPractitioner` (model/PatientModel.java:72)
  instantiates the abstract `GPModel` with `new`. It is modelled as the
  factory `GPModel.from`, which is the evident intent.
- The attachment name is built from the text of the rendered banner
  (service/OutgoingEmailBuilder.java:49-60), not from the patient's record.
  The model reads the same banner cells.
- `find(klass, reference)` compares only id parts. It ignores the resource
  type written in the reference, so "Organization/1" can resolve to any
  resource of the requested class with id "1"
  (`PatientModel.GeneralPractitionerIgnoresReferencedType`).
- `SendHandler.sendEmail` (handler/SendHandler.java:75-77) passes the
  `CareConnectPatient` found by `getEntryByType` (handler/SendHandler.java:99-107)
  where `buildEmail` declares a jsoup `Document`
  (service/OutgoingEmailBuilder.java:25). That call does not type-check, so no
  caller in the repository reaches `createFileName` with a document. The model
  follows `buildEmail`'s declared signature: `OutgoingEmailBuilder.CreateFileName`
  reads the cells of a rendered banner document.

## Model

| member | source | states |
|---|---|---|
| Text.LastSegmentIsLastSegment | src/main/java/net/nhs/ems/emailadapter/model/EncounterReport.java:52 | the id part of an id or reference is the text after its last '/': it holds no '/', is a suffix, and is the whole string or preceded by '/' |
| Text.LastSegmentIgnoresPrefix | src/main/java/net/nhs/ems/emailadapter/model/EncounterReport.java:52 | a prefix ending in '/' does not change the id part |
| Text.Join | src/main/java/net/nhs/ems/emailadapter/model/EncounterReport.java:89 | Collectors.joining: a single field is joined to itself (Text.FieldsOfJoin proves the join can be split back) |
| Text.Fields | src/main/java/net/nhs/ems/emailadapter/model/EncounterReport.java:89 | the fields between separators hold no separator, and joining them with the separator gives the string back |
| Text.FieldsOfJoin | src/main/java/net/nhs/ems/emailadapter/model/EncounterReport.java:89 | splitting a join of separator-free fields gives the fields back (Collectors.joining is invertible) |
| Text.JavaSplit | src/main/java/net/nhs/ems/emailadapter/service/OutgoingEmailBuilder.java:52-57 | String.split with one delimiter: the whole string when the delimiter does not occur; no field holds the delimiter; joined again the fields give the string up to a tail of delimiters only; and the last field is not empty |
| Text.DropTrailingEmpty | src/main/java/net/nhs/ems/emailadapter/service/OutgoingEmailBuilder.java:52-57 | the result is a prefix of the fields, it does not end in an empty field, and only empty fields were dropped |
| Text.JoinDropTrailingEmpty | src/main/java/net/nhs/ems/emailadapter/service/OutgoingEmailBuilder.java:52-57 | dropping trailing empty fields removes only separators from the end of the joined text |
| Text.JavaSplitOfJoin | src/main/java/net/nhs/ems/emailadapter/service/OutgoingEmailBuilder.java:52-57 | splitting words joined by single spaces gives them back when the last one is not empty |
| Text.JavaSplitOfJoinEmptyLast | src/main/java/net/nhs/ems/emailadapter/service/OutgoingEmailBuilder.java:57 | an empty last word is lost by split, so fewer tokens come back |
| Fhir.IdPart | src/main/java/net/nhs/ems/emailadapter/model/EncounterReport.java:52 | an id or reference has an id part exactly when it holds a character that is not whitespace; a missing, empty or blank one has none |
| Fhir.IsBlankIff | src/main/java/net/nhs/ems/emailadapter/model/EncounterReport.java:52 | a string is blank exactly when every character is whitespace |
| Fhir.IdPartHasNoSlash | src/main/java/net/nhs/ems/emailadapter/model/EncounterReport.java:52 | an id part never holds '/' |
| Fhir.AbsoluteAndRelativeIdPart | src/main/java/net/nhs/ems/emailadapter/model/EncounterReport.java:52 | "base/relative" and "relative" have the same id part |
| Fhir.FirstRep | src/main/java/net/nhs/ems/emailadapter/model/EncounterReport.java:88 | getXFirstRep gives the first element, or the empty element for an empty list |
| EncounterReport.PassesAll | src/main/java/net/nhs/ems/emailadapter/model/EncounterReport.java:44-46 | an entry passes the folded filters exactly when it passes each of them |
| EncounterReport.Find | src/main/java/net/nhs/ems/emailadapter/model/EncounterReport.java:38-48 | the result is an instance of the class that passes every predicate and is the first such entry in bundle order; none exactly when no entry qualifies |
| EncounterReport.FindNarrows | src/main/java/net/nhs/ems/emailadapter/model/EncounterReport.java:44-46 | adding predicates can only turn a match into none, and keeps the first match when it passes the added predicates |
| EncounterReport.FindByReference | src/main/java/net/nhs/ems/emailadapter/model/EncounterReport.java:50-53 | the result is an entry of the bundle of the class whose id part equals the reference's; none exactly when no entry of the class has that id part |
| EncounterReport.FindByReferenceIsFirst | src/main/java/net/nhs/ems/emailadapter/model/EncounterReport.java:47 | the resource found is the first entry that matches the reference |
| EncounterReport.FindByReferenceIsFind | src/main/java/net/nhs/ems/emailadapter/model/EncounterReport.java:50-53 | the lookup by reference is find with the single predicate "same id part" |
| EncounterReport.FindByReferenceUsesIdPartOnly | src/main/java/net/nhs/ems/emailadapter/model/EncounterReport.java:52 | two references with the same id part resolve to the same resource, whatever resource type they name |
| EncounterReport.AbsoluteReferenceResolvesLikeRelative | src/main/java/net/nhs/ems/emailadapter/model/EncounterReport.java:52 | an absolute reference resolves like the relative one that ends in the same segment |
| EncounterReport.FindByReferenceAsWritten | src/main/java/net/nhs/ems/emailadapter/model/EncounterReport.java:50-53 | the lookup as written: it agrees with FindByReference when every candidate of the class has an id, and its only failure is NullPointerException |
| EncounterReport.FindByReferenceAsWrittenThrows | src/main/java/net/nhs/ems/emailadapter/model/EncounterReport.java:52 | an id-less Organization placed before the referenced Organization makes the lookup as written throw, while the intended lookup finds the second one |
| EncounterReport.ResolveAll | src/main/java/net/nhs/ems/emailadapter/model/EncounterReport.java:157-159 | resolving a list of references keeps at most one resource per reference; each kept resource is an entry of the bundle and an instance of the class |
| EncounterReport.ResolveAllKeepsAllIff | src/main/java/net/nhs/ems/emailadapter/model/EncounterReport.java:157-159 | no reference is dropped exactly when every reference resolves |
| EncounterReport.ResolveAllAppend | src/main/java/net/nhs/ems/emailadapter/model/EncounterReport.java:155-159 | resolution keeps reference order: resolving a concatenation concatenates the resolutions |
| EncounterReport.ResolveAllSingle | src/main/java/net/nhs/ems/emailadapter/model/EncounterReport.java:157-158 | a single reference contributes its resolved resource, or nothing |
| EncounterReport.ResolveAllOfEmptyReferences | src/main/java/net/nhs/ems/emailadapter/model/PatientModel.java:67 | empty references resolve to nothing, so the hasGeneralPractitioner test does not change the result |
| EncounterReport.GetEncounter | src/main/java/net/nhs/ems/emailadapter/model/EncounterReport.java:55-57 | the first Encounter of the bundle; none exactly when the bundle holds no Encounter |
| EncounterReport.PatientOf | src/main/java/net/nhs/ems/emailadapter/model/EncounterReport.java:59-63 | the patient is a Patient entry whose id part matches the first Encounter's subject; none exactly when there is no Encounter or no such Patient |
| EncounterReport.PatientOfIsFirst | src/main/java/net/nhs/ems/emailadapter/model/EncounterReport.java:59-63 | the patient is the first Patient of the bundle, in order, whose id part matches the subject |
| EncounterReport.GetCreated | src/main/java/net/nhs/ems/emailadapter/model/EncounterReport.java:65-69 | the formatted last-updated time when the bundle has one, "Unknown" otherwise |
| EncounterReport.GetServiceProvider | src/main/java/net/nhs/ems/emailadapter/model/EncounterReport.java:71-76 | an Organization entry whose id part matches the Encounter's service provider; none exactly when there is no Encounter or no such Organization |
| EncounterReport.ServiceProviderIsFirst | src/main/java/net/nhs/ems/emailadapter/model/EncounterReport.java:71-76 | the service provider is the first Organization of the bundle, in order, whose id part matches the reference |
| EncounterReport.GetOwner | src/main/java/net/nhs/ems/emailadapter/model/EncounterReport.java:78-82 | the service provider's name; "Unknown" without a provider, without a name, or when the bundle has no Organization; any other result is the name of an Organization of the bundle |
| EncounterReport.FirstConsent | src/main/java/net/nhs/ems/emailadapter/model/EncounterReport.java:85 | the first Consent of the bundle; none exactly when there is none |
| EncounterReport.ConsentPeriod | src/main/java/net/nhs/ems/emailadapter/model/EncounterReport.java:94-98 | the first Consent's period exactly when there is a Consent and its period is not empty |
| EncounterReport.ActionDisplays | src/main/java/net/nhs/ems/emailadapter/model/EncounterReport.java:87-88 | one display per action, in order |
| EncounterReport.GetConsentStatus | src/main/java/net/nhs/ems/emailadapter/model/EncounterReport.java:84-92 | "Unknown" without a Consent or without a non-empty action; otherwise the displays of the actions joined with "," |
| EncounterReport.SystemOnlyActionGivesNullStatus | src/main/java/net/nhs/ems/emailadapter/model/EncounterReport.java:84-92 | a Consent whose only action is a coding with a system and no code or display has an action, so the status is the joined "null" |
| EncounterReport.BlankActionGivesUnknownStatus | src/main/java/net/nhs/ems/emailadapter/model/EncounterReport.java:84-92 | a Consent whose only action holds just a blank display has no action, so the status is "Unknown" |
| EncounterReport.ConsentStatusSplitsIntoDisplays | src/main/java/net/nhs/ems/emailadapter/model/EncounterReport.java:87-89 | when no display is missing or holds a comma, splitting the status at commas gives the action displays back |
| EncounterReport.GetConsentObtained | src/main/java/net/nhs/ems/emailadapter/model/EncounterReport.java:94-106 | the formatted start of the first Consent's period, "Unknown" without a Consent or a start; the end plays no part |
| EncounterReport.GetConsentExpires | src/main/java/net/nhs/ems/emailadapter/model/EncounterReport.java:94-114 | the formatted end of the first Consent's period, "Unknown" without a Consent or an end; the start plays no part |
| EncounterReport.GetEncounterPeriod | src/main/java/net/nhs/ems/emailadapter/model/EncounterReport.java:116-133 | "Unknown" without an Encounter or with an empty period; otherwise the start, then " to " and the end, for whichever of the two is present |
| EncounterReport.EncounterPeriodShape | src/main/java/net/nhs/ems/emailadapter/model/EncounterReport.java:125-129 | a period with an end always ends in " to " and the end; with no start the text starts with " to " and is never "Unknown" |
| EncounterReport.GetEncounterId | src/main/java/net/nhs/ems/emailadapter/model/EncounterReport.java:135-139 | the first Encounter's id, "Unknown" without an Encounter or with a missing or blank id; any other result is not blank |
| EncounterReport.BlankEncounterIdIsUnknown | src/main/java/net/nhs/ems/emailadapter/model/EncounterReport.java:135-139 | an Encounter whose id is a single space reports "Unknown" |
| EncounterReport.GetEncounterIdentifiers | src/main/java/net/nhs/ems/emailadapter/model/EncounterReport.java:141-145 | the first Encounter's identifiers, or an empty list without an Encounter |
| EncounterReport.GetEncounterStatus | src/main/java/net/nhs/ems/emailadapter/model/EncounterReport.java:147-152 | the display of the first Encounter's status, "Unknown" without an Encounter or a status |
| EncounterReport.LocationsOf | src/main/java/net/nhs/ems/emailadapter/model/EncounterReport.java:157 | the Location data of Location entries, in order and one for one |
| EncounterReport.GetEncounterLocation | src/main/java/net/nhs/ems/emailadapter/model/EncounterReport.java:154-160 | no locations without an Encounter; otherwise the Encounter's location references resolved in order, at most one Location per reference, all of them only when every reference resolves, and every one an entry of the bundle |
| EncounterReport.CareManagerName | src/main/java/net/nhs/ems/emailadapter/model/EncounterReport.java:166-170 | a name exactly when the reference resolves to an EpisodeOfCare with a non-empty care manager that resolves to a Practitioner; the name is that Practitioner's first name as a single string, so always the name of a Practitioner of the bundle |
| EncounterReport.FirstSome | src/main/java/net/nhs/ems/emailadapter/model/EncounterReport.java:171 | findFirst over optional values: none exactly when every value is absent |
| EncounterReport.FirstSomeIsFirst | src/main/java/net/nhs/ems/emailadapter/model/EncounterReport.java:171 | the value found is that of the first present element, in order |
| EncounterReport.CareManagerNames | src/main/java/net/nhs/ems/emailadapter/model/EncounterReport.java:165-170 | one care-manager name (or none) per episode reference, in order |
| EncounterReport.FirstCareManagerName | src/main/java/net/nhs/ems/emailadapter/model/EncounterReport.java:164-171 | none exactly when no episode of care leads to a care manager's name |
| EncounterReport.FirstCareManagerNameIsFirst | src/main/java/net/nhs/ems/emailadapter/model/EncounterReport.java:171 | the name found is that of the first episode of care, in order, whose care manager resolves |
| EncounterReport.GetResponsibleParty | src/main/java/net/nhs/ems/emailadapter/model/EncounterReport.java:162-172 | the first care manager's name among the Encounter's episodes of care, "Unknown" when there is none, and always "Unknown" in a bundle without Practitioners |
| EncounterReport.EmptyBundleSentinels | src/main/java/net/nhs/ems/emailadapter/model/EncounterReport.java:55-172 | an empty bundle gives every accessor its "Unknown" or empty-list fallback, and no patient |
| GPModel.From | src/main/java/net/nhs/ems/emailadapter/model/GPModel.java:35-43 | an Organization gives the Organization variant, a Practitioner the Practitioner variant, anything else the unknown variant, each wrapping the resource it was given |
| GPModel.IsOrganization | src/main/java/net/nhs/ems/emailadapter/model/GPModel.java:21-23 | the wrapped resource is an Organization |
| GPModel.IsPractitioner | src/main/java/net/nhs/ems/emailadapter/model/GPModel.java:25-27 | the wrapped resource is a Practitioner |
| GPModel.Name | src/main/java/net/nhs/ems/emailadapter/model/GPModel.java:51-53 | an Organization's name (null when it has none), a Practitioner's first name as a single string, or "Unknown" for any other party |
| GPModel.Address | src/main/java/net/nhs/ems/emailadapter/model/GPModel.java:55-57 | the first address of an Organization or a Practitioner, empty when there is none, and a new empty address for any other party |
| GPModel.Telecom | src/main/java/net/nhs/ems/emailadapter/model/GPModel.java:59-61 | the contact points of an Organization or a Practitioner, none for any other party |
| GPModel.FromClassifies | src/main/java/net/nhs/ems/emailadapter/model/GPModel.java:21-43 | the model built from a resource wraps that resource; its isOrganization and isPractitioner report exactly the resource's type, and never both |
| GPModel.FromView | src/main/java/net/nhs/ems/emailadapter/model/GPModel.java:51-102 | the name, address and telecom of each variant: the Organization's name, first address and contact points; the Practitioner's first name as a single string, first address and contact points; "Unknown", an empty address and no contact points otherwise |
| PatientModel.GetPatient | src/main/java/net/nhs/ems/emailadapter/model/EncounterReport.java:59-63 | the patient model wraps the bundle and the Patient the first Encounter's subject resolves to |
| PatientModel.GetPatientIsFirst | src/main/java/net/nhs/ems/emailadapter/model/EncounterReport.java:59-63 | the wrapped patient is the first matching Patient of the bundle, in order |
| PatientModel.GetName | src/main/java/net/nhs/ems/emailadapter/model/PatientModel.java:24-30 | the patient's first name as a single string, "Unknown" without a patient |
| PatientModel.GetBorn | src/main/java/net/nhs/ems/emailadapter/model/PatientModel.java:32-37 | the formatted birth date, "Unknown" without a patient or a birth date |
| PatientModel.GetGender | src/main/java/net/nhs/ems/emailadapter/model/PatientModel.java:39-44 | the gender's display, "Unknown" without a patient or a gender |
| PatientModel.GetIdentifiers | src/main/java/net/nhs/ems/emailadapter/model/PatientModel.java:46-52 | one identifier model per patient identifier, in order; none without a patient |
| PatientModel.GetAddress | src/main/java/net/nhs/ems/emailadapter/model/PatientModel.java:54-58 | the patient's addresses, none without a patient |
| PatientModel.GetTelecom | src/main/java/net/nhs/ems/emailadapter/model/PatientModel.java:60-64 | the patient's contact points, none without a patient |
| PatientModel.GPsOf | src/main/java/net/nhs/ems/emailadapter/model/PatientModel.java:72 | one GP model per resolved resource, in order |
| PatientModel.GetGeneralPractitioner | src/main/java/net/nhs/ems/emailadapter/model/PatientModel.java:66-75 | the general-practitioner references resolved in order against resources of any type, each wrapped as a GP model; never more models than references; none without a patient |
| PatientModel.GeneralPractitionerIgnoresReferencedType | src/main/java/net/nhs/ems/emailadapter/model/PatientModel.java:69 | a reference naming an Organization resolves to an earlier Patient with the same id, and the GP is then neither an Organization nor a Practitioner |
| PatientModel.NoPatientSentinels | src/main/java/net/nhs/ems/emailadapter/model/PatientModel.java:24-75 | without a resolved patient every field takes its "Unknown" or empty fallback |
| PatientIdentifierModel.NhsNumberIdentifier | src/main/java/net/nhs/ems/emailadapter/model/PatientIdentifierModel.java:15-19 | the identifier exactly when it is an NHS number identifier |
| PatientIdentifierModel.FormatNhsNumber | src/main/java/net/nhs/ems/emailadapter/model/PatientIdentifierModel.java:31-37 | a value shorter than 7 characters is unchanged; a longer one gains spaces at positions 4 and 8, and removing them gives the value back |
| PatientIdentifierModel.FormatNhsNumberExample | src/main/java/net/nhs/ems/emailadapter/model/PatientIdentifierModel.java:35-36 | "993254128" shows as "9932 541 28" |
| PatientIdentifierModel.GetNhsNumber | src/main/java/net/nhs/ems/emailadapter/model/PatientIdentifierModel.java:21-25 | the formatted number of an NHS number identifier, "Unknown" for a local one |
| PatientIdentifierModel.GetValue | src/main/java/net/nhs/ems/emailadapter/model/PatientIdentifierModel.java:27-29 | the identifier's raw value, never formatted |
| PatientIdentifierModel.IsVerified | src/main/java/net/nhs/ems/emailadapter/model/PatientIdentifierModel.java:39-44 | an NHS number identifier whose first verification coding has code "01" |
| PatientIdentifierModel.IsUnverified | src/main/java/net/nhs/ems/emailadapter/model/PatientIdentifierModel.java:46-51 | an NHS number identifier whose first verification coding has code "02" |
| PatientIdentifierModel.IsLocal | src/main/java/net/nhs/ems/emailadapter/model/PatientIdentifierModel.java:53-55 | exactly the identifiers that are not NHS numbers |
| PatientIdentifierModel.VerificationIsExclusive | src/main/java/net/nhs/ems/emailadapter/model/PatientIdentifierModel.java:39-55 | verified means an NHS number whose first verification coding is "01", unverified the same with "02"; the two exclude each other, and a local identifier is neither |
| PatientIdentifierModel.NhsNumberUnknownIffLocal | src/main/java/net/nhs/ems/emailadapter/model/PatientIdentifierModel.java:21-25 | getNhsNumber gives "Unknown" exactly for a local identifier |
| PatientIdentifierModel.NhsNumberUngroups | src/main/java/net/nhs/ems/emailadapter/model/PatientIdentifierModel.java:31-37 | the displayed NHS number is the raw value with two spaces added |
| EmailSettings.From | src/main/java/net/nhs/ems/emailadapter/model/EmailSettings.java:19-29 | IllegalArgumentException exactly when one of the four required keys is missing; otherwise each setting is the value of its key |
| EmailSettings.FromDependsOnlyOnRequiredKeys | src/main/java/net/nhs/ems/emailadapter/model/EmailSettings.java:20-28 | two maps that agree on the four keys give the same outcome |
| EmailSettings.FromIgnoresOtherKeys | src/main/java/net/nhs/ems/emailadapter/model/EmailSettings.java:20-28 | adding any other key changes nothing |
| EmailSettings.FromAcceptsNullValues | src/main/java/net/nhs/ems/emailadapter/model/EmailSettings.java:20-25 | only presence is checked: a key mapped to null passes and its setting is null |
| OutgoingEmailBuilder.BannerCells | src/main/java/net/nhs/ems/emailadapter/service/OutgoingEmailBuilder.java:50-51 | NullPointerException exactly when there is no patient banner or it holds no table; otherwise the cells of its first table |
| OutgoingEmailBuilder.CreateFileName | src/main/java/net/nhs/ems/emailadapter/service/OutgoingEmailBuilder.java:49-60 | a name exactly when the banner has four cells, enough words in the three read and a birth date that parses; it is tokens 3-5 of the fourth cell run together, "_", the second word of the first cell, "_", the converted birth date and ".pdf"; otherwise NullPointerException, IndexOutOfBoundsException or ParseException |
| OutgoingEmailBuilder.GroupedNhsCell | src/main/java/net/nhs/ems/emailadapter/service/OutgoingEmailBuilder.java:57 | a cell of three labels and a grouped NHS number has, as words, the three labels and the number's three groups, none of them holding a space |
| OutgoingEmailBuilder.FileNameUngroupsNhsNumber | src/main/java/net/nhs/ems/emailadapter/service/OutgoingEmailBuilder.java:57-59 | an NHS number longer than 7 characters, shown grouped in the banner, comes back ungrouped in the file name next to the name and the converted birth date |
| OutgoingEmailBuilder.SevenCharacterNhsNumberFails | src/main/java/net/nhs/ems/emailadapter/service/OutgoingEmailBuilder.java:57-58 | a 7-character NHS number shown with an empty last group leaves the fourth cell one token short, so no file name is made (IndexOutOfBoundsException) |

## Left out

- The Lambda handlers, SES, S3 and the fetch of the bundle from the remote FHIR server: I/O outside the projection.
- Rendering the report with the HTML template, the PDF conversion, and assembling the MIME message in `buildEmail`: template engines and foreign libraries. Only `createFileName` is modelled, with the rendered banner reduced to the cell texts of its tables.
- The HTML parser's whitespace normalisation of cell text: banner cells are taken as given strings, and the lemmas state their shape as words joined by single spaces.
- `DateUtil.formatDate` and `formatDateTime`, the `dd-MMM-yyyy` parse and the week-year `YYYYMMdd` format: clocks, locales and time zones. They are parameters (`Fhir.Formats`, `OutgoingEmailBuilder.DobConversion`).
- `HumanName.getNameAsSingleString`: library code, passed in as a parameter.
- `getTitle`: a constant string with nothing to prove.
- `StagedStopwatch`, `InformantHomeAddress` and `ContactPoints`: timing and data holders outside the projection.
- Fhir.IsWhitespace: blank values are those made of Character.isWhitespace characters below U+0080 only. The Unicode space separators above it are not modelled.
- Version suffixes (`/_history/n`) in ids and references: the id part is modelled as the last `/`-separated segment.
- EncounterReport.PatientOf, EncounterReport.GetServiceProvider, EncounterReport.GetOwner, EncounterReport.GetEncounterLocation, EncounterReport.CareManagerName, EncounterReport.GetResponsibleParty, PatientModel.GetPatient and PatientModel.GetGeneralPractitioner resolve references with the corrected `EncounterReport.FindByReference`. The source throws NullPointerException from these accessors when an entry of the requested class without an id comes before the match. For getGeneralPractitioner, which looks up any resource type, an id-less entry of any type is enough. `EncounterReport.FindByReferenceAsWritten` models the throwing lookup (see Findings).
- PatientIdentifierModel.FormatNhsNumber: a null identifier value (which throws NullPointerException in the source) is not modelled, because values are strings here.
- GPModel.Name: the null that an Organization without a name yields is modelled as `None`, not as a string.
- EncounterReport.GetConsentStatus: the model's emptiness test behind hasAction does not see `Coding.version`, `Coding.userSelected`, element ids and extensions, which are not carried. An action holding only one of those is an action to the source, whose status is then "null"; the model reports "Unknown". (`Coding.system` is carried and counted: `EncounterReport.SystemOnlyActionGivesNullStatus`.)
- EncounterReport.GetEncounterPeriod: the model's emptiness test behind hasPeriod does not see the period's element id and extensions, which are not carried. A period holding only those (a data-absent-reason extension, say) has a period to the source, which then returns ""; the model reports "Unknown". The same holds for EncounterReport.ConsentPeriod, whose callers read only the start and the end.
- Reference displays are carried in the data. They are read only by the emptiness tests (hasServiceProvider, hasCareManager, hasGeneralPractitioner), never shown.

## Findings

| source | as written | input that shows it | evidently intended | confidence | as-written member | corrected member |
|---|---|---|---|---|---|---|
| src/main/java/net/nhs/ems/emailadapter/model/EncounterReport.java:52 | the predicate calls `equals` on the candidate's id part, which is null for a resource without an id, so the lookup throws NullPointerException | a bundle holding an Organization without an id, then Organization "1", looked up with the reference "Organization/1" | a resource without an id does not match, and the lookup goes on to Organization "1" | not executed | EncounterReport.FindByReferenceAsWritten, EncounterReport.FindByReferenceAsWrittenThrows | EncounterReport.FindByReference |
