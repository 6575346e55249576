/** The patient part of the report: the Patient the Encounter's subject
    resolves to, each field with its fallback, and the patient's general
    practitioners resolved through the bundle. */
module PatientModel {
  import opened Wrappers
  import opened Fhir
  import opened EncounterReport
  import opened GPModel
  import opened PatientIdentifierModel

  /** The bundle the report was built on (for resolving general practitioners)
      and the resolved patient, if any. */
  datatype PatientModel = PatientModel(bundle: Bundle, patient: Option<PatientData>)

  /** getPatient of the report: the subject of the first Encounter, resolved
      to a Patient of the bundle. */
  function GetPatient(b: Bundle): (m: PatientModel)
    ensures m.bundle == b
    ensures m.patient.Some? ==> GetEncounter(b).Some? && Patient(m.patient.value) in b.entry
                                && IdPartMatches(Patient(m.patient.value), GetEncounter(b).value.subject)
    ensures m.patient.None? <==> GetEncounter(b).None?
                                 || forall i :: 0 <= i < |b.entry| ==>
                                      !(b.entry[i].Patient? && IdPartMatches(b.entry[i], GetEncounter(b).value.subject))
  {
    PatientModel(b, PatientOf(b))
  }

  /** The wrapped patient is the first Patient of the bundle, in order, whose
      id part matches the Encounter's subject. */
  lemma GetPatientIsFirst(b: Bundle)
    ensures var m := GetPatient(b);
            m.patient.Some? ==>
              exists i :: 0 <= i < |b.entry| && b.entry[i] == Patient(m.patient.value)
                          && forall j :: 0 <= j < i ==> !RefMatches(b.entry[j], PatientKind, GetEncounter(b).value.subject)
  {
    PatientOfIsFirst(b);
  }

  /** getName: the first name as a single string, or "Unknown" without a patient. */
  function GetName(m: PatientModel, fmt: Formats): (r: string)
    ensures m.patient.None? ==> r == "Unknown"
    ensures m.patient.Some? ==> r == fmt.nameAsSingleString(FirstRep(m.patient.value.name, EmptyHumanName))
  {
    match m.patient
    case None => "Unknown"
    case Some(p) => fmt.nameAsSingleString(FirstRep(p.name, EmptyHumanName))
  }

  /** getBorn: the formatted birth date, or "Unknown" without a patient or a birth date. */
  function GetBorn(m: PatientModel, fmt: Formats): (r: string)
    ensures m.patient.Some? && m.patient.value.birthDate.Some? ==> r == fmt.date(m.patient.value.birthDate.value)
    ensures m.patient.None? || m.patient.value.birthDate.None? ==> r == "Unknown"
  {
    match m.patient
    case Some(p) => if p.birthDate.Some? then fmt.date(p.birthDate.value) else "Unknown"
    case None => "Unknown"
  }

  /** getGender: the gender's display, or "Unknown" without a patient or a gender. */
  function GetGender(m: PatientModel): (r: string)
    ensures m.patient.Some? && m.patient.value.gender.Some? ==> r == GenderDisplay(m.patient.value.gender.value)
    ensures m.patient.None? || m.patient.value.gender.None? ==> r == "Unknown"
  {
    match m.patient
    case Some(p) => if p.gender.Some? then GenderDisplay(p.gender.value) else "Unknown"
    case None => "Unknown"
  }

  /** getIdentifiers: one identifier model per patient identifier, in order. */
  function GetIdentifiers(m: PatientModel): (r: seq<PatientIdentifierModel>)
    ensures m.patient.None? ==> r == []
    ensures m.patient.Some? ==> |r| == |m.patient.value.identifier|
                                && forall i :: 0 <= i < |r| ==> r[i].identifier == m.patient.value.identifier[i]
  {
    match m.patient
    case None => []
    case Some(p) =>
      seq(|p.identifier|, i requires 0 <= i < |p.identifier| => PatientIdentifierModel(p.identifier[i]))
  }

  /** getAddress: the patient's addresses unchanged, or none. */
  function GetAddress(m: PatientModel): (r: seq<Fhir.Address>)
    ensures m.patient.Some? ==> r == m.patient.value.address
    ensures m.patient.None? ==> r == []
  {
    match m.patient
    case Some(p) => p.address
    case None => []
  }

  /** getTelecom: the patient's contact points unchanged, or none. */
  function GetTelecom(m: PatientModel): (r: seq<ContactPoint>)
    ensures m.patient.Some? ==> r == m.patient.value.telecom
    ensures m.patient.None? ==> r == []
  {
    match m.patient
    case Some(p) => p.telecom
    case None => []
  }

  /** One GP model per resolved resource, in order. */
  function GPsOf(rs: seq<Resource>): (r: seq<GP>)
    ensures |r| == |rs| && forall i :: 0 <= i < |rs| ==> r[i] == From(rs[i])
  {
    seq(|rs|, i requires 0 <= i < |rs| => From(rs[i]))
  }

  /** getGeneralPractitioner: each general-practitioner reference resolved in
      order against resources of any type, unresolved ones dropped, each
      result turned into a GP model. The hasGeneralPractitioner test changes
      nothing: when it fails every reference is empty and none resolves. */
  function GetGeneralPractitioner(m: PatientModel): (r: seq<GP>)
    ensures m.patient.None? ==> r == []
    ensures m.patient.Some? ==>
              && r == GPsOf(ResolveAll(m.bundle.entry, AnyResource, m.patient.value.generalPractitioner))
              && |r| <= |m.patient.value.generalPractitioner|
  {
    match m.patient
    case None => []
    case Some(p) =>
      if HasGeneralPractitioner(p) then GPsOf(ResolveAll(m.bundle.entry, AnyResource, p.generalPractitioner))
      else
        ResolveAllOfEmptyReferences(m.bundle.entry, AnyResource, p.generalPractitioner);
        []
  }

  /** Resolution does not look at the type a reference names: in a bundle
      whose resources share one id (as the report's sample bundle does), a
      general-practitioner reference "Organization/1" resolves to a Patient
      placed before the Organization, and the GP shows as unknown. */
  lemma GeneralPractitionerIgnoresReferencedType(m: PatientModel, q: PatientData, o: OrganizationData, ref: Reference)
    requires m.patient.Some? && m.patient.value.generalPractitioner == [ref]
    requires m.bundle.entry == [Patient(q), Organization(o)]
    requires IdPartMatches(Patient(q), ref) && IdPartMatches(Organization(o), ref)
    ensures GetGeneralPractitioner(m) == [UnknownGP(Patient(q))]
    ensures !IsOrganization(GetGeneralPractitioner(m)[0]) && !IsPractitioner(GetGeneralPractitioner(m)[0])
  {
    var found := FindByReference(m.bundle.entry, AnyResource, ref);
    assert IsInstance(m.bundle.entry[0], AnyResource) && IdPartMatches(m.bundle.entry[0], ref);
    assert found == Some(Patient(q));
    ResolveAllSingle(m.bundle.entry, AnyResource, ref);
  }

  /** Without a resolved patient every field takes its sentinel. */
  lemma NoPatientSentinels(b: Bundle, fmt: Formats)
    requires PatientOf(b).None?
    ensures var m := GetPatient(b);
            && GetName(m, fmt) == "Unknown" && GetBorn(m, fmt) == "Unknown" && GetGender(m) == "Unknown"
            && GetIdentifiers(m) == [] && GetAddress(m) == [] && GetTelecom(m) == []
            && GetGeneralPractitioner(m) == []
  {
  }
}
