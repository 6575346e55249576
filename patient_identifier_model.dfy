/** A patient identifier as the report shows it: the NHS number grouped for
    display, its verification status, or a local identifier. */
module PatientIdentifierModel {
  import opened Wrappers
  import opened Fhir

  datatype PatientIdentifierModel = PatientIdentifierModel(identifier: Identifier)

  /** nhsNumberIdentifier: the identifier when it is an NHS number. */
  function NhsNumberIdentifier(m: PatientIdentifierModel): (r: Option<Identifier>)
    ensures r.Some? <==> m.identifier.NhsNumberIdentifier?
    ensures r.Some? ==> r.value == m.identifier
  {
    if m.identifier.NhsNumberIdentifier? then Some(m.identifier) else None
  }

  /** formatNhsNumber: values shorter than 7 characters unchanged, longer ones
      grouped 4-3-rest with a space between the groups. */
  function FormatNhsNumber(value: string): (r: string)
    ensures |value| < 7 ==> r == value
    ensures |value| >= 7 ==> |r| == |value| + 2 && r[4] == ' ' && r[8] == ' '
                             && r[..4] + r[5..8] + r[9..] == value
  {
    if |value| < 7 then value
    else
      var r := value[..4] + " " + value[4..7] + " " + value[7..];
      assert r[..4] == value[..4] && r[5..8] == value[4..7] && r[9..] == value[7..];
      r
  }

  /** A nine-character value: "993254128" shows as "9932 541 28". */
  lemma FormatNhsNumberExample()
    ensures FormatNhsNumber("993254128") == "9932 541 28"
  {
    var v := "993254128";
    assert v[..4] == "9932" && v[4..7] == "541" && v[7..] == "28";
  }

  /** getNhsNumber: the formatted NHS number, or "Unknown" for a local identifier. */
  function GetNhsNumber(m: PatientIdentifierModel): (r: string)
    ensures m.identifier.LocalIdentifier? ==> r == "Unknown"
    ensures m.identifier.NhsNumberIdentifier? ==> r == FormatNhsNumber(m.identifier.value)
  {
    match NhsNumberIdentifier(m)
    case Some(id) => FormatNhsNumber(id.value)
    case None => "Unknown"
  }

  /** getValue: the raw value, never formatted. */
  function GetValue(m: PatientIdentifierModel): (r: string)
    ensures r == m.identifier.value
  {
    m.identifier.value
  }

  /** The code of the first coding of an NHS number's verification status. */
  function VerificationCode(m: PatientIdentifierModel): Option<string> {
    match NhsNumberIdentifier(m)
    case Some(id) => FirstRep(id.verificationStatus.coding, EmptyCoding).code
    case None => None
  }

  /** isVerified: an NHS number whose first verification coding is "01". */
  function IsVerified(m: PatientIdentifierModel): (b: bool)
    ensures b <==> && m.identifier.NhsNumberIdentifier?
                   && |m.identifier.verificationStatus.coding| > 0
                   && m.identifier.verificationStatus.coding[0].code == Some("01")
  {
    VerificationCode(m) == Some("01")
  }

  /** isUnverified: an NHS number whose first verification coding is "02". */
  function IsUnverified(m: PatientIdentifierModel): (b: bool)
    ensures b <==> && m.identifier.NhsNumberIdentifier?
                   && |m.identifier.verificationStatus.coding| > 0
                   && m.identifier.verificationStatus.coding[0].code == Some("02")
  {
    VerificationCode(m) == Some("02")
  }

  /** isLocal: not an NHS number. */
  function IsLocal(m: PatientIdentifierModel): (b: bool)
    ensures b <==> m.identifier.LocalIdentifier?
  {
    NhsNumberIdentifier(m).None?
  }

  /** The three classifications: verified and unverified exclude each other,
      both need an NHS number, and a local identifier is neither. */
  lemma VerificationIsExclusive(m: PatientIdentifierModel)
    ensures !(IsVerified(m) && IsUnverified(m))
    ensures IsVerified(m) <==> m.identifier.NhsNumberIdentifier?
                               && |m.identifier.verificationStatus.coding| > 0
                               && m.identifier.verificationStatus.coding[0].code == Some("01")
    ensures IsUnverified(m) <==> m.identifier.NhsNumberIdentifier?
                                 && |m.identifier.verificationStatus.coding| > 0
                                 && m.identifier.verificationStatus.coding[0].code == Some("02")
    ensures IsLocal(m) <==> m.identifier.LocalIdentifier?
    ensures IsLocal(m) ==> !IsVerified(m) && !IsUnverified(m)
  {
  }

  /** "Unknown" from getNhsNumber means exactly a local identifier: no NHS
      number, whatever its value, formats to "Unknown". */
  lemma NhsNumberUnknownIffLocal(m: PatientIdentifierModel)
    ensures GetNhsNumber(m) == "Unknown" <==> IsLocal(m)
  {
    if m.identifier.NhsNumberIdentifier? {
      var v := m.identifier.value;
      if |v| < 7 {
        assert |GetNhsNumber(m)| < 7;
      } else {
        assert |GetNhsNumber(m)| >= 9;
      }
    }
  }

  /** Dropping the two inserted spaces from the displayed NHS number gives the raw value back. */
  lemma NhsNumberUngroups(m: PatientIdentifierModel)
    requires m.identifier.NhsNumberIdentifier? && |GetValue(m)| >= 7
    ensures var shown := GetNhsNumber(m);
            |shown| == |GetValue(m)| + 2 && shown[..4] + shown[5..8] + shown[9..] == GetValue(m)
  {
  }
}
