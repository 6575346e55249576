/** The clinical resources a report bundle holds (FHIR STU3 as the HAPI library
    exposes it), reduced to the fields the report reads or its emptiness tests
    look at (element ids, extensions, Coding.version and Coding.userSelected
    are not carried), and the library
    behaviour the report relies on: id parts, first-repetition getters and the
    "has" tests that treat an empty element as absent. */
module Fhir {
  import opened Wrappers
  import opened Text

  /** A point in time; the report only ever hands it to a formatter. */
  datatype Instant = Instant(epochMillis: int)

  datatype Period = Period(start: Option<Instant>, end: Option<Instant>)

  datatype Coding = Coding(system: Option<string>, code: Option<string>, display: Option<string>)

  datatype CodeableConcept = CodeableConcept(coding: seq<Coding>, text: Option<string>)

  /** A reference to another resource: its reference string ("Organization/1",
      "http://host/Organization/1") and an optional display text. */
  datatype Reference = Reference(reference: Option<string>, display: Option<string>)

  datatype HumanName = HumanName(prefix: seq<string>, given: seq<string>, family: Option<string>,
                                 suffix: seq<string>, text: Option<string>)

  datatype Address = Address(line: seq<string>, city: Option<string>, postalCode: Option<string>)

  datatype ContactPoint = ContactPoint(system: Option<string>, value: Option<string>, use: Option<string>)

  /** A patient identifier: an NHS number carries its verification status. */
  datatype Identifier =
    | LocalIdentifier(value: string)
    | NhsNumberIdentifier(value: string, verificationStatus: CodeableConcept)

  datatype EncounterStatus =
    Planned | Arrived | Triaged | InProgress | OnLeave | Finished | Cancelled | EnteredInError | UnknownStatus

  datatype AdministrativeGender = Male | Female | OtherGender | UnknownGender

  datatype EncounterData = EncounterData(
    id: Option<string>,
    subject: Reference,
    serviceProvider: Reference,
    period: Period,
    identifier: seq<Identifier>,
    status: Option<EncounterStatus>,
    location: seq<Reference>,
    episodeOfCare: seq<Reference>)

  datatype PatientData = PatientData(
    id: Option<string>,
    identifier: seq<Identifier>,
    name: seq<HumanName>,
    birthDate: Option<Instant>,
    gender: Option<AdministrativeGender>,
    address: seq<Address>,
    telecom: seq<ContactPoint>,
    generalPractitioner: seq<Reference>)

  datatype OrganizationData = OrganizationData(
    id: Option<string>, name: Option<string>, address: seq<Address>, telecom: seq<ContactPoint>)

  datatype PractitionerData = PractitionerData(
    id: Option<string>, name: seq<HumanName>, address: seq<Address>, telecom: seq<ContactPoint>)

  datatype ConsentData = ConsentData(id: Option<string>, action: seq<CodeableConcept>, period: Period)

  datatype EpisodeOfCareData = EpisodeOfCareData(id: Option<string>, careManager: Reference)

  datatype LocationData = LocationData(id: Option<string>, name: Option<string>)

  /** One bundle entry's resource, tagged by its runtime type. */
  datatype Resource =
    | Encounter(encounter: EncounterData)
    | Patient(patient: PatientData)
    | Organization(organization: OrganizationData)
    | Practitioner(practitioner: PractitionerData)
    | Consent(consent: ConsentData)
    | EpisodeOfCare(episodeOfCare: EpisodeOfCareData)
    | Location(location: LocationData)
    | OtherResource(otherId: Option<string>, resourceType: string)
  {
    /** The resource's own id value, if it has one. */
    function Id(): Option<string> {
      match this
      case Encounter(e) => e.id
      case Patient(p) => p.id
      case Organization(o) => o.id
      case Practitioner(p) => p.id
      case Consent(c) => c.id
      case EpisodeOfCare(e) => e.id
      case Location(l) => l.id
      case OtherResource(i, _) => i
    }
  }

  /** The Java class a lookup asks for; AnyResource is Resource.class. */
  datatype Kind = AnyResource | EncounterKind | PatientKind | OrganizationKind | PractitionerKind
                | ConsentKind | EpisodeOfCareKind | LocationKind

  /** klass.isInstance(r) */
  predicate IsInstance(r: Resource, k: Kind) {
    match k
    case AnyResource => true
    case EncounterKind => r.Encounter?
    case PatientKind => r.Patient?
    case OrganizationKind => r.Organization?
    case PractitionerKind => r.Practitioner?
    case ConsentKind => r.Consent?
    case EpisodeOfCareKind => r.EpisodeOfCare?
    case LocationKind => r.Location?
  }

  /** The bundle: its entries in order and the last-updated time of its metadata. */
  datatype Bundle = Bundle(entry: seq<Resource>, lastUpdated: Option<Instant>)

  /** Behaviour of libraries outside the model, passed in: the two date
      formatters of the report ("dd-MMM-yyyy" and "dd-MMM-yyyy, HH:mm z" in
      Europe/London) and HumanName.getNameAsSingleString. */
  datatype Formats = Formats(
    date: Instant -> string,
    dateTime: Instant -> string,
    nameAsSingleString: HumanName -> string)

  /** Character.isWhitespace, for the characters below U+0080: space, tab,
      line feed, vertical tab, form feed, carriage return and the four
      separator controls U+001C to U+001F. */
  predicate IsWhitespace(c: char) {
    c == ' ' || 9 <= c as int <= 13 || 28 <= c as int <= 31
  }

  /** isBlank: empty, or whitespace only. */
  predicate IsBlank(s: string) {
    |s| == 0 || (IsWhitespace(s[0]) && IsBlank(s[1..]))
  }

  /** A string is blank exactly when it holds no character other than whitespace. */
  lemma {:induction false} IsBlankIff(s: string)
    ensures IsBlank(s) <==> forall i :: 0 <= i < |s| ==> IsWhitespace(s[i])
  {
    if |s| > 0 {
      IsBlankIff(s[1..]);
      assert forall i :: 1 <= i < |s| ==> s[1..][i - 1] == s[i];
    }
  }

  /** A primitive value the library counts as present: not null and not blank.
      The library stores a blank id as null, and its isEmpty tests treat a
      blank string like a missing one. */
  predicate Present(v: Option<string>) {
    v.Some? && !IsBlank(v.value)
  }

  /** The id part of an id or reference string: its last '/'-separated
      segment; a missing, empty or blank value has none. */
  function IdPart(value: Option<string>): (r: Option<string>)
    ensures r.Some? <==> value.Some? && exists i :: 0 <= i < |value.value| && !IsWhitespace(value.value[i])
  {
    match value
    case None => None
    case Some(s) =>
      IsBlankIff(s);
      if IsBlank(s) then None else Some(LastSegment(s))
  }

  /** An id part holds no '/'. */
  lemma IdPartHasNoSlash(value: Option<string>)
    ensures IdPart(value).Some? ==> '/' !in IdPart(value).value
  {
    if value.Some? { LastSegmentIsLastSegment(value.value); }
  }

  lemma AbsoluteAndRelativeIdPart(base: string, relative: string)
    requires !IsBlank(relative)
    ensures IdPart(Some(base + "/" + relative)) == IdPart(Some(relative))
  {
    IsBlankIff(relative);
    var k :| 0 <= k < |relative| && !IsWhitespace(relative[k]);
    var t := base + "/" + relative;
    assert t[|base| + 1 + k] == relative[k];
    IsBlankIff(t);
    LastSegmentIgnoresPrefix(base, relative);
  }

  /** getXFirstRep: the first repetition, or a new empty element when there is none. */
  function FirstRep<T>(xs: seq<T>, empty: T): (r: T)
    ensures |xs| > 0 ==> r == xs[0]
    ensures |xs| == 0 ==> r == empty
  {
    if |xs| > 0 then xs[0] else empty
  }

  const EmptyCoding := Coding(None, None, None)
  const EmptyHumanName := HumanName([], [], None, [], None)
  const EmptyAddress := Address([], None, None)

  /** isEmpty of the elements the "has" tests look at: no field present. */
  predicate CodingIsEmpty(c: Coding) { !Present(c.system) && !Present(c.code) && !Present(c.display) }

  predicate CodeableConceptIsEmpty(c: CodeableConcept) {
    !Present(c.text) && forall i :: 0 <= i < |c.coding| ==> CodingIsEmpty(c.coding[i])
  }

  predicate ReferenceIsEmpty(r: Reference) { !Present(r.reference) && !Present(r.display) }

  predicate PeriodIsEmpty(p: Period) { p.start.None? && p.end.None? }

  /** Encounter.hasPeriod, Consent.hasPeriod: a period element that is not empty. */
  predicate HasPeriod(p: Period) { !PeriodIsEmpty(p) }

  /** Consent.hasAction: some action that is not empty. */
  predicate HasAction(c: ConsentData) {
    exists i :: 0 <= i < |c.action| && !CodeableConceptIsEmpty(c.action[i])
  }

  /** Patient.hasGeneralPractitioner: some reference that is not empty. */
  predicate HasGeneralPractitioner(p: PatientData) {
    exists i :: 0 <= i < |p.generalPractitioner| && !ReferenceIsEmpty(p.generalPractitioner[i])
  }

  /** EncounterStatus.getDisplay */
  function StatusDisplay(s: EncounterStatus): string {
    match s
    case Planned => "Planned"
    case Arrived => "Arrived"
    case Triaged => "Triaged"
    case InProgress => "In Progress"
    case OnLeave => "On Leave"
    case Finished => "Finished"
    case Cancelled => "Cancelled"
    case EnteredInError => "Entered in Error"
    case UnknownStatus => "Unknown"
  }

  /** AdministrativeGender.getDisplay */
  function GenderDisplay(g: AdministrativeGender): string {
    match g
    case Male => "Male"
    case Female => "Female"
    case OtherGender => "Other"
    case UnknownGender => "Unknown"
  }
}
