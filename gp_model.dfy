/** The general-practitioner view: a resolved resource seen as an
    Organization, a Practitioner or an unknown party, each giving a name, an
    address and contact points. */
module GPModel {
  import opened Wrappers
  import opened Fhir

  /** The three closed variants the factory can build. */
  datatype GP =
    | OrganizationGP(organization: OrganizationData)
    | PractitionerGP(practitioner: PractitionerData)
    | UnknownGP(gp: Resource)

  /** from: dispatch on the resource's runtime type. */
  function From(gp: Resource): (m: GP)
    ensures m.OrganizationGP? <==> gp.Organization?
    ensures m.PractitionerGP? <==> gp.Practitioner?
    ensures m.OrganizationGP? ==> gp == Organization(m.organization)
    ensures m.PractitionerGP? ==> gp == Practitioner(m.practitioner)
    ensures m.UnknownGP? ==> m.gp == gp
  {
    match gp
    case Organization(o) => OrganizationGP(o)
    case Practitioner(p) => PractitionerGP(p)
    case _ => UnknownGP(gp)
  }

  /** The resource a model wraps (the gp field of the source). */
  function Wrapped(m: GP): Resource {
    match m
    case OrganizationGP(o) => Organization(o)
    case PractitionerGP(p) => Practitioner(p)
    case UnknownGP(r) => r
  }

  /** isOrganization: the wrapped resource is an Organization. */
  function IsOrganization(m: GP): (b: bool)
    ensures b <==> Wrapped(m).Organization?
  {
    match m
    case OrganizationGP(_) => true
    case PractitionerGP(_) => false
    case UnknownGP(r) => r.Organization?
  }

  /** isPractitioner: the wrapped resource is a Practitioner. */
  function IsPractitioner(m: GP): (b: bool)
    ensures b <==> Wrapped(m).Practitioner?
  {
    match m
    case OrganizationGP(_) => false
    case PractitionerGP(_) => true
    case UnknownGP(r) => r.Practitioner?
  }

  /** getName: an Organization's name, a Practitioner's first name as a single
      string, "Unknown" for any other party; None stands for the null an
      Organization without a name gives. */
  function Name(m: GP, fmt: Formats): (r: Option<string>)
    ensures m.OrganizationGP? ==> r == m.organization.name
    ensures m.PractitionerGP? ==> r == Some(fmt.nameAsSingleString(FirstRep(m.practitioner.name, EmptyHumanName)))
    ensures m.UnknownGP? ==> r == Some("Unknown")
  {
    match m
    case OrganizationGP(o) => o.name
    case PractitionerGP(p) => Some(fmt.nameAsSingleString(FirstRep(p.name, EmptyHumanName)))
    case UnknownGP(_) => Some("Unknown")
  }

  /** getAddress: the first address of an Organization or a Practitioner (an
      empty one when it has none), a new empty address otherwise. */
  function Address(m: GP): (r: Fhir.Address)
    ensures m.OrganizationGP? ==> r == FirstRep(m.organization.address, EmptyAddress)
    ensures m.PractitionerGP? ==> r == FirstRep(m.practitioner.address, EmptyAddress)
    ensures m.UnknownGP? ==> r == EmptyAddress
  {
    match m
    case OrganizationGP(o) => FirstRep(o.address, EmptyAddress)
    case PractitionerGP(p) => FirstRep(p.address, EmptyAddress)
    case UnknownGP(_) => EmptyAddress
  }

  /** getTelecom: the contact points of an Organization or a Practitioner,
      none otherwise. */
  function Telecom(m: GP): (r: seq<ContactPoint>)
    ensures m.OrganizationGP? ==> r == m.organization.telecom
    ensures m.PractitionerGP? ==> r == m.practitioner.telecom
    ensures m.UnknownGP? ==> r == []
  {
    match m
    case OrganizationGP(o) => o.telecom
    case PractitionerGP(p) => p.telecom
    case UnknownGP(_) => []
  }

  /** The model built from a resource reports that resource's type, and never
      both types at once. */
  lemma FromClassifies(r: Resource)
    ensures IsOrganization(From(r)) <==> r.Organization?
    ensures IsPractitioner(From(r)) <==> r.Practitioner?
    ensures !(IsOrganization(From(r)) && IsPractitioner(From(r)))
    ensures Wrapped(From(r)) == r
  {
  }

  /** What each variant shows of the resource it was built from. */
  lemma FromView(r: Resource, fmt: Formats)
    ensures r.Organization? ==>
              && Name(From(r), fmt) == r.organization.name
              && Address(From(r)) == FirstRep(r.organization.address, EmptyAddress)
              && Telecom(From(r)) == r.organization.telecom
    ensures r.Practitioner? ==>
              && Name(From(r), fmt) == Some(fmt.nameAsSingleString(FirstRep(r.practitioner.name, EmptyHumanName)))
              && Address(From(r)) == FirstRep(r.practitioner.address, EmptyAddress)
              && Telecom(From(r)) == r.practitioner.telecom
    ensures !r.Organization? && !r.Practitioner? ==>
              Name(From(r), fmt) == Some("Unknown") && Address(From(r)) == EmptyAddress && Telecom(From(r)) == []
  {
  }
}
