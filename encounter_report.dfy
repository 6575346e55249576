/** The read-only projection of a report bundle: typed first-match lookup,
    reference resolution by id part, and the report accessors, each of which
    falls back to "Unknown" or an empty list at the first missing link. */
module EncounterReport {
  import opened Wrappers
  import opened Text
  import opened Fhir

  // ---------------------------------------------------------------------------
  // Lookup

  /** The predicates folded into the stream by find: r passes each of them. */
  function PassesAll(r: Resource, filter: seq<Resource -> bool>): (b: bool)
    ensures b <==> forall i :: 0 <= i < |filter| ==> filter[i](r)
  {
    if |filter| == 0 then true else filter[0](r) && PassesAll(r, filter[1..])
  }

  /** r survives find's stream: it is an instance of the class and passes every predicate. */
  predicate Matches(r: Resource, k: Kind, filter: seq<Resource -> bool>) {
    IsInstance(r, k) && PassesAll(r, filter)
  }

  /** Index i holds the first entry that survives the stream. */
  predicate IsFirstMatch(entries: seq<Resource>, k: Kind, filter: seq<Resource -> bool>, i: int) {
    && 0 <= i < |entries|
    && Matches(entries[i], k, filter)
    && forall j :: 0 <= j < i ==> !Matches(entries[j], k, filter)
  }

  /** find(klass, filter...): the first entry, in bundle order, that is an
      instance of the class and passes every predicate; none when no entry
      does, never an error. */
  function Find(entries: seq<Resource>, k: Kind, filter: seq<Resource -> bool>): (r: Option<Resource>)
    ensures r.Some? ==> Matches(r.value, k, filter)
    ensures r.None? <==> forall i :: 0 <= i < |entries| ==> !Matches(entries[i], k, filter)
    ensures r.Some? ==> exists i :: IsFirstMatch(entries, k, filter, i) && entries[i] == r.value
  {
    if |entries| == 0 then None
    else if Matches(entries[0], k, filter) then
      assert IsFirstMatch(entries, k, filter, 0);
      Some(entries[0])
    else
      var r := Find(entries[1..], k, filter);
      assert r.Some? ==> exists i :: IsFirstMatch(entries, k, filter, i) && entries[i] == r.value by {
        if r.Some? {
          var i :| IsFirstMatch(entries[1..], k, filter, i) && entries[1..][i] == r.value;
          assert IsFirstMatch(entries, k, filter, i + 1);
        }
      }
      r
  }

  /** Adding predicates can only narrow the match: a match under more
      predicates means there is one under fewer, and the first match under
      fewer stays the answer when it also passes the added ones. */
  lemma {:induction false} FindNarrows(entries: seq<Resource>, k: Kind,
                                       filter: seq<Resource -> bool>, more: seq<Resource -> bool>)
    ensures Find(entries, k, filter + more).Some? ==> Find(entries, k, filter).Some?
    ensures Find(entries, k, filter).Some? && PassesAll(Find(entries, k, filter).value, more)
            ==> Find(entries, k, filter + more) == Find(entries, k, filter)
  {
    forall x: Resource ensures Matches(x, k, filter + more) <==> Matches(x, k, filter) && PassesAll(x, more) {
      if Matches(x, k, filter) && PassesAll(x, more) {
        forall i | 0 <= i < |filter + more| ensures (filter + more)[i](x) {
          if i >= |filter| {
            assert (filter + more)[i] == more[i - |filter|];
          }
        }
      }
      if Matches(x, k, filter + more) {
        forall i | 0 <= i < |more| ensures more[i](x) {
          assert (filter + more)[|filter| + i] == more[i];
        }
        forall i | 0 <= i < |filter| ensures filter[i](x) {
          assert (filter + more)[i] == filter[i];
        }
      }
    }
    if |entries| > 0 && !Matches(entries[0], k, filter) {
      FindNarrows(entries[1..], k, filter, more);
    }
  }

  /** The id parts of the resource and of the reference are both present and equal. */
  predicate IdPartMatches(r: Resource, ref: Reference) {
    IdPart(ref.reference).Some? && IdPart(r.Id()) == IdPart(ref.reference)
  }

  /** The entry survives the stream of find(klass, reference). */
  predicate RefMatches(r: Resource, k: Kind, ref: Reference) {
    IsInstance(r, k) && IdPartMatches(r, ref)
  }

  /** find(klass, reference): the first instance of the class whose id part
      equals the reference's id part. The base URL and the resource type
      written in the reference play no part. A resource without an id does
      not match (see FindByReferenceAsWritten for what the source does).
      FindByReferenceIsFind shows it is find with that one predicate. */
  function FindByReference(entries: seq<Resource>, k: Kind, ref: Reference): (r: Option<Resource>)
    ensures r.Some? ==> RefMatches(r.value, k, ref) && r.value in entries
    ensures r.None? <==> forall i :: 0 <= i < |entries| ==> !RefMatches(entries[i], k, ref)
  {
    if |entries| == 0 then None
    else if RefMatches(entries[0], k, ref) then Some(entries[0])
    else FindByReference(entries[1..], k, ref)
  }

  /** The resource found is the first entry that matches. */
  lemma {:induction false} FindByReferenceIsFirst(entries: seq<Resource>, k: Kind, ref: Reference)
    ensures FindByReference(entries, k, ref).Some? ==>
              exists i :: 0 <= i < |entries| && entries[i] == FindByReference(entries, k, ref).value
                          && forall j :: 0 <= j < i ==> !RefMatches(entries[j], k, ref)
  {
    if |entries| > 0 && !RefMatches(entries[0], k, ref) {
      var r := FindByReference(entries[1..], k, ref);
      FindByReferenceIsFirst(entries[1..], k, ref);
      if r.Some? {
        var i :| 0 <= i < |entries[1..]| && entries[1..][i] == r.value
                 && forall j :: 0 <= j < i ==> !RefMatches(entries[1..][j], k, ref);
        forall j | 0 <= j < i + 1 ensures !RefMatches(entries[j], k, ref) {
          if j > 0 { assert entries[j] == entries[1..][j - 1]; }
        }
        assert entries[i + 1] == r.value;
      }
    } else if |entries| > 0 {
      assert entries[0] == FindByReference(entries, k, ref).value;
    }
  }

  /** The reference lookup is find with the single predicate "same id part". */
  lemma {:induction false} FindByReferenceIsFind(entries: seq<Resource>, k: Kind, ref: Reference)
    ensures FindByReference(entries, k, ref) == Find(entries, k, [(x: Resource) => IdPartMatches(x, ref)])
  {
    var filter := [(x: Resource) => IdPartMatches(x, ref)];
    assert forall x :: PassesAll(x, filter) <==> IdPartMatches(x, ref);
    if |entries| > 0 {
      FindByReferenceIsFind(entries[1..], k, ref);
    }
  }

  /** Only the id part of a reference matters: two references with the same
      id part resolve to the same resource. */
  lemma {:induction false} FindByReferenceUsesIdPartOnly(entries: seq<Resource>, k: Kind, ref1: Reference, ref2: Reference)
    requires IdPart(ref1.reference) == IdPart(ref2.reference)
    ensures FindByReference(entries, k, ref1) == FindByReference(entries, k, ref2)
  {
    if |entries| > 0 {
      assert RefMatches(entries[0], k, ref1) == RefMatches(entries[0], k, ref2);
      FindByReferenceUsesIdPartOnly(entries[1..], k, ref1, ref2);
    }
  }

  /** An absolute reference ("http://host/Organization/1") and a relative one
      ("Organization/1" or "1") ending in the same segment resolve alike. */
  lemma AbsoluteReferenceResolvesLikeRelative(entries: seq<Resource>, k: Kind, base: string, relative: string,
                                              display1: Option<string>, display2: Option<string>)
    requires !IsBlank(relative)
    ensures FindByReference(entries, k, Reference(Some(base + "/" + relative), display1))
         == FindByReference(entries, k, Reference(Some(relative), display2))
  {
    AbsoluteAndRelativeIdPart(base, relative);
    FindByReferenceUsesIdPartOnly(entries, k, Reference(Some(base + "/" + relative), display1),
                                  Reference(Some(relative), display2));
  }

  /** find(klass, reference) as written: each instance's id part is compared by
      calling equals on it, so a candidate without an id that is reached before
      the match throws NullPointerException. */
  function FindByReferenceAsWritten(entries: seq<Resource>, k: Kind, ref: Reference): (r: Result<Option<Resource>, Exception>)
    ensures (forall i :: 0 <= i < |entries| && IsInstance(entries[i], k) ==> IdPart(entries[i].Id()).Some?)
            ==> r == Ok(FindByReference(entries, k, ref))
    ensures r.Err? ==> r.error == NullPointerException
  {
    if |entries| == 0 then Ok(None)
    else if !IsInstance(entries[0], k) then FindByReferenceAsWritten(entries[1..], k, ref)
    else match IdPart(entries[0].Id())
      case None => Err(NullPointerException)
      case Some(p) =>
        if Some(p) == IdPart(ref.reference) then Ok(Some(entries[0]))
        else FindByReferenceAsWritten(entries[1..], k, ref)
  }

  /** The discrepancy: an Organization without an id ahead of the referenced
      one (for instance an id-less Organization, then Organization "1", looked
      up with "Organization/1") makes the lookup as written throw, where the
      projection is meant to resolve the reference to the second one. */
  lemma FindByReferenceAsWrittenThrows(noId: OrganizationData, target: OrganizationData, ref: Reference)
    requires noId.id.None?
    requires IdPartMatches(Organization(target), ref)
    ensures FindByReferenceAsWritten([Organization(noId), Organization(target)], OrganizationKind, ref)
            == Err(NullPointerException)
    ensures FindByReference([Organization(noId), Organization(target)], OrganizationKind, ref)
            == Some(Organization(target))
  {
    var entries := [Organization(noId), Organization(target)];
    assert !IdPartMatches(entries[0], ref);
    var found := FindByReference(entries, OrganizationKind, ref);
    assert IsInstance(entries[1], OrganizationKind) && IdPartMatches(entries[1], ref);
    assert entries[1..] == [Organization(target)];
    assert FindByReference(entries[1..], OrganizationKind, ref) == Some(Organization(target));
  }

  /** Every reference resolved in order, the unresolved ones dropped; what is
      kept are instances of the class taken from the entries. */
  function ResolveAll(entries: seq<Resource>, k: Kind, refs: seq<Reference>): (r: seq<Resource>)
    ensures |r| <= |refs|
    ensures forall i :: 0 <= i < |r| ==> IsInstance(r[i], k) && r[i] in entries
  {
    if |refs| == 0 then []
    else match FindByReference(entries, k, refs[0])
      case Some(x) => [x] + ResolveAll(entries, k, refs[1..])
      case None => ResolveAll(entries, k, refs[1..])
  }

  /** Nothing is dropped exactly when every reference resolves. */
  lemma {:induction false} ResolveAllKeepsAllIff(entries: seq<Resource>, k: Kind, refs: seq<Reference>)
    ensures |ResolveAll(entries, k, refs)| == |refs|
            <==> forall i :: 0 <= i < |refs| ==> FindByReference(entries, k, refs[i]).Some?
  {
    if |refs| > 0 {
      ResolveAllKeepsAllIff(entries, k, refs[1..]);
      assert forall i :: 1 <= i < |refs| ==> refs[1..][i - 1] == refs[i];
    }
  }

  /** Resolution keeps the order of the references: resolving a concatenation
      is concatenating the resolutions. */
  lemma {:induction false} ResolveAllAppend(entries: seq<Resource>, k: Kind, a: seq<Reference>, b: seq<Reference>)
    ensures ResolveAll(entries, k, a + b) == ResolveAll(entries, k, a) + ResolveAll(entries, k, b)
  {
    if |a| > 0 {
      assert (a + b)[0] == a[0];
      assert (a + b)[1..] == a[1..] + b;
      ResolveAllAppend(entries, k, a[1..], b);
      match FindByReference(entries, k, a[0])
      case Some(x) =>
        assert [x] + (ResolveAll(entries, k, a[1..]) + ResolveAll(entries, k, b))
            == ([x] + ResolveAll(entries, k, a[1..])) + ResolveAll(entries, k, b);
      case None =>
    } else {
      assert a + b == b;
    }
  }

  /** A single reference contributes its resolution, or nothing. */
  lemma ResolveAllSingle(entries: seq<Resource>, k: Kind, ref: Reference)
    ensures FindByReference(entries, k, ref).Some? ==> ResolveAll(entries, k, [ref]) == [FindByReference(entries, k, ref).value]
    ensures FindByReference(entries, k, ref).None? ==> ResolveAll(entries, k, [ref]) == []
  {
    assert [ref][1..] == [];
  }

  /** An empty reference resolves to nothing, so references that are all empty
      resolve to an empty list. */
  lemma {:induction false} ResolveAllOfEmptyReferences(entries: seq<Resource>, k: Kind, refs: seq<Reference>)
    requires forall i :: 0 <= i < |refs| ==> ReferenceIsEmpty(refs[i])
    ensures ResolveAll(entries, k, refs) == []
  {
    if |refs| > 0 {
      assert FindByReference(entries, k, refs[0]).None?;
      ResolveAllOfEmptyReferences(entries, k, refs[1..]);
    }
  }

  // ---------------------------------------------------------------------------
  // Casts of a lookup's result to the requested class

  function AsEncounter(r: Option<Resource>): Option<EncounterData> {
    match r case Some(Encounter(e)) => Some(e) case _ => None
  }

  function AsPatient(r: Option<Resource>): Option<PatientData> {
    match r case Some(Patient(p)) => Some(p) case _ => None
  }

  function AsOrganization(r: Option<Resource>): Option<OrganizationData> {
    match r case Some(Organization(o)) => Some(o) case _ => None
  }

  function AsPractitioner(r: Option<Resource>): Option<PractitionerData> {
    match r case Some(Practitioner(p)) => Some(p) case _ => None
  }

  function AsConsent(r: Option<Resource>): Option<ConsentData> {
    match r case Some(Consent(c)) => Some(c) case _ => None
  }

  function AsEpisodeOfCare(r: Option<Resource>): Option<EpisodeOfCareData> {
    match r case Some(EpisodeOfCare(e)) => Some(e) case _ => None
  }

  // ---------------------------------------------------------------------------
  // Accessors

  /** getEncounter: the first Encounter of the bundle. */
  function GetEncounter(b: Bundle): (r: Option<EncounterData>)
    ensures r.None? <==> forall i :: 0 <= i < |b.entry| ==> !b.entry[i].Encounter?
    ensures r.Some? ==> exists i :: 0 <= i < |b.entry| && b.entry[i] == Encounter(r.value)
                                  && forall j :: 0 <= j < i ==> !b.entry[j].Encounter?
  {
    var found := Find(b.entry, EncounterKind, []);
    assert found.Some? ==> exists i :: IsFirstMatch(b.entry, EncounterKind, [], i) && b.entry[i] == found.value;
    AsEncounter(found)
  }

  /** The subject of the first Encounter, resolved to a Patient by id part. */
  function PatientOf(b: Bundle): (r: Option<PatientData>)
    ensures r.Some? ==> GetEncounter(b).Some? && Patient(r.value) in b.entry
                        && IdPartMatches(Patient(r.value), GetEncounter(b).value.subject)
    ensures r.None? <==> GetEncounter(b).None?
                         || forall i :: 0 <= i < |b.entry| ==>
                              !(b.entry[i].Patient? && IdPartMatches(b.entry[i], GetEncounter(b).value.subject))
  {
    match GetEncounter(b)
    case None => None
    case Some(e) => AsPatient(FindByReference(b.entry, PatientKind, e.subject))
  }

  /** The patient is the first Patient of the bundle, in order, whose id part
      matches the subject. */
  lemma PatientOfIsFirst(b: Bundle)
    ensures PatientOf(b).Some? ==>
              exists i :: 0 <= i < |b.entry| && b.entry[i] == Patient(PatientOf(b).value)
                          && forall j :: 0 <= j < i ==> !RefMatches(b.entry[j], PatientKind, GetEncounter(b).value.subject)
  {
    if GetEncounter(b).Some? {
      FindByReferenceIsFirst(b.entry, PatientKind, GetEncounter(b).value.subject);
    }
  }

  /** getCreated: the bundle's last-updated time, formatted, or "Unknown". */
  function GetCreated(b: Bundle, fmt: Formats): (r: string)
    ensures b.lastUpdated.Some? ==> r == fmt.dateTime(b.lastUpdated.value)
    ensures b.lastUpdated.None? ==> r == "Unknown"
  {
    if b.lastUpdated.Some? then fmt.dateTime(b.lastUpdated.value) else "Unknown"
  }

  /** getServiceProvider: the Organization the first Encounter's service
      provider refers to. The hasServiceProvider test adds nothing, since an
      empty reference has no id part to match. */
  function GetServiceProvider(b: Bundle): (r: Option<OrganizationData>)
    ensures r.Some? ==> GetEncounter(b).Some? && Organization(r.value) in b.entry
                        && IdPartMatches(Organization(r.value), GetEncounter(b).value.serviceProvider)
    ensures r.None? <==> GetEncounter(b).None?
                         || forall i :: 0 <= i < |b.entry| ==>
                              !(b.entry[i].Organization? && IdPartMatches(b.entry[i], GetEncounter(b).value.serviceProvider))
  {
    match GetEncounter(b)
    case None => None
    case Some(e) =>
      if ReferenceIsEmpty(e.serviceProvider) then None
      else AsOrganization(FindByReference(b.entry, OrganizationKind, e.serviceProvider))
  }

  /** The service provider is the first Organization of the bundle, in order,
      whose id part matches the Encounter's service-provider reference. */
  lemma ServiceProviderIsFirst(b: Bundle)
    ensures GetServiceProvider(b).Some? ==>
              exists i :: 0 <= i < |b.entry| && b.entry[i] == Organization(GetServiceProvider(b).value)
                          && forall j :: 0 <= j < i ==>
                               !RefMatches(b.entry[j], OrganizationKind, GetEncounter(b).value.serviceProvider)
  {
    if GetEncounter(b).Some? {
      FindByReferenceIsFirst(b.entry, OrganizationKind, GetEncounter(b).value.serviceProvider);
    }
  }

  /** getOwner: the service provider's name; "Unknown" when the Encounter, the
      Organization or its name is missing. */
  function GetOwner(b: Bundle): (r: string)
    ensures GetServiceProvider(b).Some? && GetServiceProvider(b).value.name.Some?
            ==> r == GetServiceProvider(b).value.name.value
    ensures GetServiceProvider(b).None? || GetServiceProvider(b).value.name.None? ==> r == "Unknown"
    ensures r != "Unknown" ==> exists i :: 0 <= i < |b.entry| && b.entry[i].Organization?
                                           && b.entry[i].organization.name == Some(r)
    ensures (forall i :: 0 <= i < |b.entry| ==> !b.entry[i].Organization?) ==> r == "Unknown"
  {
    match GetServiceProvider(b)
    case Some(o) => o.name.GetOr("Unknown")
    case None => "Unknown"
  }

  /** The first Consent of the bundle. */
  function FirstConsent(b: Bundle): (r: Option<ConsentData>)
    ensures r.None? <==> forall i :: 0 <= i < |b.entry| ==> !b.entry[i].Consent?
    ensures r.Some? ==> exists i :: 0 <= i < |b.entry| && b.entry[i] == Consent(r.value)
                                  && forall j :: 0 <= j < i ==> !b.entry[j].Consent?
  {
    var found := Find(b.entry, ConsentKind, []);
    assert found.Some? ==> exists i :: IsFirstMatch(b.entry, ConsentKind, [], i) && b.entry[i] == found.value;
    AsConsent(found)
  }

  /** The display of an action's first coding; a missing display is joined as "null". */
  function ActionDisplay(a: CodeableConcept): string {
    match FirstRep(a.coding, EmptyCoding).display
    case Some(d) => d
    case None => "null"
  }

  /** The display of every action, in order. */
  function ActionDisplays(actions: seq<CodeableConcept>): (r: seq<string>)
    ensures |r| == |actions|
    ensures forall i :: 0 <= i < |actions| ==> r[i] == ActionDisplay(actions[i])
  {
    seq(|actions|, i requires 0 <= i < |actions| => ActionDisplay(actions[i]))
  }

  /** getConsentStatus: the actions' displays joined with ",", in order; "Unknown"
      when there is no Consent or it has no (non-empty) action. */
  function GetConsentStatus(b: Bundle): (r: string)
    ensures FirstConsent(b).None? ==> r == "Unknown"
    ensures FirstConsent(b).Some? && !HasAction(FirstConsent(b).value) ==> r == "Unknown"
    ensures FirstConsent(b).Some? && HasAction(FirstConsent(b).value)
            ==> r == Join(ActionDisplays(FirstConsent(b).value.action), ',')
  {
    match FirstConsent(b)
    case None => "Unknown"
    case Some(c) => if HasAction(c) then Join(ActionDisplays(c.action), ',') else "Unknown"
  }

  /** When the first Consent has actions and none of their displays is missing
      or holds a comma, splitting the status at commas gives the displays back. */
  lemma ConsentStatusSplitsIntoDisplays(b: Bundle)
    requires FirstConsent(b).Some? && HasAction(FirstConsent(b).value)
    requires forall i :: 0 <= i < |FirstConsent(b).value.action| ==>
               var a := FirstConsent(b).value.action[i];
               |a.coding| > 0 && a.coding[0].display.Some? && ',' !in a.coding[0].display.value
    ensures Fields(GetConsentStatus(b), ',') == ActionDisplays(FirstConsent(b).value.action)
  {
    var c := FirstConsent(b).value;
    var ds := ActionDisplays(c.action);
    forall i | 0 <= i < |ds| ensures ',' !in ds[i] {
      assert ds[i] == ActionDisplay(c.action[i]);
    }
    FieldsOfJoin(ds, ',');
  }

  /** A Consent whose only action holds nothing but a blank display has no
      action in the library's sense, so the status is "Unknown". */
  lemma BlankActionGivesUnknownStatus(id: Option<string>, p: Period, t: Option<Instant>)
    ensures var c := ConsentData(id, [CodeableConcept([Coding(None, None, Some(" "))], None)], p);
            GetConsentStatus(Bundle([Consent(c)], t)) == "Unknown"
  {
    var c := ConsentData(id, [CodeableConcept([Coding(None, None, Some(" "))], None)], p);
    var b := Bundle([Consent(c)], t);
    assert b.entry[0] == Consent(c);
    assert IsBlank(" "[1..]);
    assert CodingIsEmpty(c.action[0].coding[0]);
    assert !HasAction(c);
  }

  /** A Consent whose only action is a coding with a system and nothing else
      has an action, so its missing display is joined as "null". */
  lemma SystemOnlyActionGivesNullStatus(id: Option<string>, p: Period, t: Option<Instant>)
    ensures var c := ConsentData(id, [CodeableConcept([Coding(Some("urn:sys"), None, None)], None)], p);
            GetConsentStatus(Bundle([Consent(c)], t)) == "null"
  {
    var c := ConsentData(id, [CodeableConcept([Coding(Some("urn:sys"), None, None)], None)], p);
    var b := Bundle([Consent(c)], t);
    assert b.entry[0] == Consent(c);
    assert FirstConsent(b) == Some(c);
    var sys := "urn:sys";
    assert sys[0] == 'u' && !IsBlank(sys);
    assert !CodingIsEmpty(c.action[0].coding[0]);
    assert HasAction(c);
    assert ActionDisplay(c.action[0]) == "null";
    assert ActionDisplays(c.action) == ["null"];
  }

  /** The first Consent's period, when it is not empty. */
  function ConsentPeriod(b: Bundle): (r: Option<Period>)
    ensures r.Some? <==> FirstConsent(b).Some? && HasPeriod(FirstConsent(b).value.period)
    ensures r.Some? ==> r.value == FirstConsent(b).value.period
  {
    match FirstConsent(b)
    case Some(c) => if HasPeriod(c.period) then Some(c.period) else None
    case None => None
  }

  /** getConsentObtained: the first Consent's period start, formatted, or
      "Unknown"; it does not depend on the period's end. */
  function GetConsentObtained(b: Bundle, fmt: Formats): (r: string)
    ensures FirstConsent(b).Some? && FirstConsent(b).value.period.start.Some?
            ==> r == fmt.date(FirstConsent(b).value.period.start.value)
    ensures FirstConsent(b).None? || FirstConsent(b).value.period.start.None? ==> r == "Unknown"
  {
    match ConsentPeriod(b)
    case Some(p) => if p.start.Some? then fmt.date(p.start.value) else "Unknown"
    case None => "Unknown"
  }

  /** getConsentExpires: the first Consent's period end, formatted, or
      "Unknown"; it does not depend on the period's start. */
  function GetConsentExpires(b: Bundle, fmt: Formats): (r: string)
    ensures FirstConsent(b).Some? && FirstConsent(b).value.period.end.Some?
            ==> r == fmt.date(FirstConsent(b).value.period.end.value)
    ensures FirstConsent(b).None? || FirstConsent(b).value.period.end.None? ==> r == "Unknown"
  {
    match ConsentPeriod(b)
    case Some(p) => if p.end.Some? then fmt.date(p.end.value) else "Unknown"
    case None => "Unknown"
  }

  /** getEncounterPeriod: "Unknown" without an Encounter or with an empty
      period; otherwise the formatted start if there is one, followed by
      " to " and the formatted end if there is one. */
  function GetEncounterPeriod(b: Bundle, fmt: Formats): (r: string)
    ensures GetEncounter(b).None? || PeriodIsEmpty(GetEncounter(b).value.period) ==> r == "Unknown"
    ensures GetEncounter(b).Some? ==>
              var p := GetEncounter(b).value.period;
              && (p.start.Some? && p.end.None? ==> r == fmt.dateTime(p.start.value))
              && (p.start.None? && p.end.Some? ==> r == " to " + fmt.dateTime(p.end.value))
              && (p.start.Some? && p.end.Some? ==> r == fmt.dateTime(p.start.value) + " to " + fmt.dateTime(p.end.value))
  {
    match GetEncounter(b)
    case None => "Unknown"
    case Some(e) =>
      if !HasPeriod(e.period) then "Unknown"
      else
        (if e.period.start.Some? then fmt.dateTime(e.period.start.value) else "")
        + (if e.period.end.Some? then " to " + fmt.dateTime(e.period.end.value) else "")
  }

  /** A period with only an end renders as a string starting with " to ", so
      it is never "Unknown"; one with an end always ends with " to " and it. */
  lemma EncounterPeriodShape(b: Bundle, fmt: Formats)
    requires GetEncounter(b).Some? && GetEncounter(b).value.period.end.Some?
    ensures var end := fmt.dateTime(GetEncounter(b).value.period.end.value);
            var r := GetEncounterPeriod(b, fmt);
            && |r| >= 4 + |end| && r[|r| - |end| - 4..] == " to " + end
            && (GetEncounter(b).value.period.start.None? ==> r[..4] == " to " && r != "Unknown")
  {
    var p := GetEncounter(b).value.period;
    var r := GetEncounterPeriod(b, fmt);
    if p.start.None? {
      assert r[..4] == " to ";
      assert r != "Unknown" by { assert r[0] == ' ' && "Unknown"[0] == 'U'; }
    }
  }

  /** getEncounterId: the first Encounter's id value, or "Unknown" without an
      Encounter or an id (a blank id is stored as none). */
  function GetEncounterId(b: Bundle): (r: string)
    ensures GetEncounter(b).Some? && Present(GetEncounter(b).value.id) ==> r == GetEncounter(b).value.id.value
    ensures GetEncounter(b).None? || !Present(GetEncounter(b).value.id) ==> r == "Unknown"
    ensures r != "Unknown" ==> !IsBlank(r)
  {
    match GetEncounter(b)
    case Some(e) => if Present(e.id) then e.id.value else "Unknown"
    case None => "Unknown"
  }

  /** An Encounter whose id is blank reports its id as "Unknown", as the
      library stores a blank id as none. */
  lemma BlankEncounterIdIsUnknown(e: EncounterData, t: Option<Instant>)
    requires e.id == Some(" ")
    ensures GetEncounterId(Bundle([Encounter(e)], t)) == "Unknown"
  {
    var b := Bundle([Encounter(e)], t);
    assert b.entry[0] == Encounter(e);
    assert IsBlank(" "[1..]);
  }

  /** getEncounterIdentifiers: the first Encounter's identifiers, or none. */
  function GetEncounterIdentifiers(b: Bundle): (r: seq<Identifier>)
    ensures GetEncounter(b).Some? ==> r == GetEncounter(b).value.identifier
    ensures GetEncounter(b).None? ==> r == []
  {
    match GetEncounter(b)
    case Some(e) => e.identifier
    case None => []
  }

  /** getEncounterStatus: the display of the first Encounter's status, or "Unknown". */
  function GetEncounterStatus(b: Bundle): (r: string)
    ensures GetEncounter(b).Some? && GetEncounter(b).value.status.Some?
            ==> r == StatusDisplay(GetEncounter(b).value.status.value)
    ensures GetEncounter(b).None? || GetEncounter(b).value.status.None? ==> r == "Unknown"
  {
    match GetEncounter(b)
    case Some(e) => if e.status.Some? then StatusDisplay(e.status.value) else "Unknown"
    case None => "Unknown"
  }

  /** The Location data of resources already known to be Locations. */
  function LocationsOf(rs: seq<Resource>): (r: seq<LocationData>)
    requires forall i :: 0 <= i < |rs| ==> rs[i].Location?
    ensures |r| == |rs| && forall i :: 0 <= i < |rs| ==> rs[i] == Location(r[i])
  {
    seq(|rs|, i requires 0 <= i < |rs| => rs[i].location)
  }

  /** getEncounterLocation: the first Encounter's location references resolved
      to Locations in order, unresolved ones dropped; empty without an Encounter. */
  function GetEncounterLocation(b: Bundle): (r: seq<LocationData>)
    ensures GetEncounter(b).None? ==> r == []
    ensures GetEncounter(b).Some? ==>
              var locs := GetEncounter(b).value.location;
              && |r| <= |locs|
              && (|r| == |locs| <==> forall i :: 0 <= i < |locs| ==> FindByReference(b.entry, LocationKind, locs[i]).Some?)
              && r == LocationsOf(ResolveAll(b.entry, LocationKind, locs))
    ensures forall i :: 0 <= i < |r| ==> Location(r[i]) in b.entry
  {
    match GetEncounter(b)
    case None => []
    case Some(e) =>
      ResolveAllKeepsAllIff(b.entry, LocationKind, e.location);
      LocationsOf(ResolveAll(b.entry, LocationKind, e.location))
  }

  /** The name of the care manager of the EpisodeOfCare a reference points to,
      when the episode and its care manager both resolve. */
  function CareManagerName(entries: seq<Resource>, fmt: Formats, episode: Reference): (r: Option<string>)
    ensures r.Some? <==>
              var e := FindByReference(entries, EpisodeOfCareKind, episode);
              && e.Some?
              && !ReferenceIsEmpty(e.value.episodeOfCare.careManager)
              && FindByReference(entries, PractitionerKind, e.value.episodeOfCare.careManager).Some?
    ensures r.Some? ==>
              var e := FindByReference(entries, EpisodeOfCareKind, episode).value;
              var p := FindByReference(entries, PractitionerKind, e.episodeOfCare.careManager).value;
              r.value == fmt.nameAsSingleString(FirstRep(p.practitioner.name, EmptyHumanName))
    ensures r.Some? ==> exists p :: Practitioner(p) in entries
                                   && r.value == fmt.nameAsSingleString(FirstRep(p.name, EmptyHumanName))
  {
    match AsEpisodeOfCare(FindByReference(entries, EpisodeOfCareKind, episode))
    case None => None
    case Some(eoc) =>
      if ReferenceIsEmpty(eoc.careManager) then None
      else match AsPractitioner(FindByReference(entries, PractitionerKind, eoc.careManager))
        case None => None
        case Some(p) => Some(fmt.nameAsSingleString(FirstRep(p.name, EmptyHumanName)))
  }

  /** The first present value of a sequence, in order (findFirst on a stream
      of optional values). */
  function FirstSome(xs: seq<Option<string>>): (r: Option<string>)
    ensures r.None? <==> forall i :: 0 <= i < |xs| ==> xs[i].None?
  {
    if |xs| == 0 then None
    else if xs[0].Some? then xs[0]
    else
      assert forall i :: 1 <= i < |xs| ==> xs[1..][i - 1] == xs[i];
      FirstSome(xs[1..])
  }

  /** The value found is that of the first present element. */
  lemma {:induction false} FirstSomeIsFirst(xs: seq<Option<string>>)
    ensures FirstSome(xs).Some? ==>
              exists i :: 0 <= i < |xs| && xs[i] == FirstSome(xs) && forall j :: 0 <= j < i ==> xs[j].None?
  {
    if |xs| > 0 && xs[0].None? {
      FirstSomeIsFirst(xs[1..]);
      if FirstSome(xs[1..]).Some? {
        var i :| 0 <= i < |xs[1..]| && xs[1..][i] == FirstSome(xs[1..])
                 && forall j :: 0 <= j < i ==> xs[1..][j].None?;
        forall j | 0 <= j < i + 1 ensures xs[j].None? {
          if j > 0 { assert xs[j] == xs[1..][j - 1]; }
        }
        assert xs[i + 1] == xs[1..][i];
      }
    }
  }

  /** The care-manager name of each episode reference, in order. */
  function CareManagerNames(entries: seq<Resource>, fmt: Formats, episodes: seq<Reference>): (r: seq<Option<string>>)
    ensures |r| == |episodes|
    ensures forall i :: 0 <= i < |episodes| ==> r[i] == CareManagerName(entries, fmt, episodes[i])
  {
    seq(|episodes|, i requires 0 <= i < |episodes| => CareManagerName(entries, fmt, episodes[i]))
  }

  /** The first care-manager name among the episode references, in order. */
  function FirstCareManagerName(entries: seq<Resource>, fmt: Formats, episodes: seq<Reference>): (r: Option<string>)
    ensures r.None? <==> forall i :: 0 <= i < |episodes| ==> CareManagerName(entries, fmt, episodes[i]).None?
  {
    FirstSome(CareManagerNames(entries, fmt, episodes))
  }

  /** The name found is that of the first episode whose care manager resolves. */
  lemma FirstCareManagerNameIsFirst(entries: seq<Resource>, fmt: Formats, episodes: seq<Reference>)
    ensures var r := FirstCareManagerName(entries, fmt, episodes);
            r.Some? ==> exists i :: 0 <= i < |episodes| && CareManagerName(entries, fmt, episodes[i]) == r
                                  && forall j :: 0 <= j < i ==> CareManagerName(entries, fmt, episodes[j]).None?
  {
    var names := CareManagerNames(entries, fmt, episodes);
    FirstSomeIsFirst(names);
    if FirstSome(names).Some? {
      var i :| 0 <= i < |names| && names[i] == FirstSome(names) && forall j :: 0 <= j < i ==> names[j].None?;
      forall j | 0 <= j < i ensures CareManagerName(entries, fmt, episodes[j]).None? {
        assert names[j] == CareManagerName(entries, fmt, episodes[j]);
      }
      assert names[i] == CareManagerName(entries, fmt, episodes[i]);
    }
  }

  /** getResponsibleParty: the name of the care manager of the first of the
      Encounter's episodes of care whose care manager resolves to a
      Practitioner; "Unknown" otherwise. */
  function GetResponsibleParty(b: Bundle, fmt: Formats): (r: string)
    ensures GetEncounter(b).None? ==> r == "Unknown"
    ensures GetEncounter(b).Some? ==>
              var found := FirstCareManagerName(b.entry, fmt, GetEncounter(b).value.episodeOfCare);
              r == found.GetOr("Unknown")
    ensures (forall i :: 0 <= i < |b.entry| ==> !b.entry[i].Practitioner?) ==> r == "Unknown"
  {
    match GetEncounter(b)
    case None => "Unknown"
    case Some(e) => FirstCareManagerName(b.entry, fmt, e.episodeOfCare).GetOr("Unknown")
  }

  /** A bundle with no entries gives every accessor its sentinel. */
  lemma EmptyBundleSentinels(t: Option<Instant>, fmt: Formats)
    ensures var b := Bundle([], t);
            && GetOwner(b) == "Unknown"
            && GetConsentStatus(b) == "Unknown"
            && GetConsentObtained(b, fmt) == "Unknown"
            && GetConsentExpires(b, fmt) == "Unknown"
            && GetEncounterPeriod(b, fmt) == "Unknown"
            && GetEncounterId(b) == "Unknown"
            && GetEncounterStatus(b) == "Unknown"
            && GetEncounterIdentifiers(b) == []
            && GetEncounterLocation(b) == []
            && GetResponsibleParty(b, fmt) == "Unknown"
            && PatientOf(b).None?
  {
  }
}
