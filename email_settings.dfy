/** The mail settings read from the process environment: four required keys. */
module EmailSettings {
  import opened Wrappers

  const SenderKey := "EMS_REPORT_SENDER"
  const RecipientKey := "EMS_REPORT_RECIPIENT"
  const SubjectKey := "EMS_REPORT_SUBJECT"
  const BodyKey := "EMS_REPORT_BODY"

  /** A value of None stands for a key that is present but mapped to null. */
  datatype EmailSettings = EmailSettings(
    sender: Option<string>, recipient: Option<string>, subject: Option<string>, body: Option<string>)

  /** All four required keys are present (their values are not looked at). */
  predicate HasRequiredKeys(m: map<string, Option<string>>) {
    SenderKey in m && RecipientKey in m && SubjectKey in m && BodyKey in m
  }

  /** from: IllegalArgumentException unless every required key is present;
      otherwise each setting is the value of its key. */
  function From(m: map<string, Option<string>>): (r: Result<EmailSettings, Exception>)
    ensures r.Err? <==> SenderKey !in m || RecipientKey !in m || SubjectKey !in m || BodyKey !in m
    ensures r.Err? ==> r.error == IllegalArgumentException
    ensures r.Ok? ==> && r.value.sender == m[SenderKey] && r.value.recipient == m[RecipientKey]
                      && r.value.subject == m[SubjectKey] && r.value.body == m[BodyKey]
  {
    if !HasRequiredKeys(m) then Err(IllegalArgumentException)
    else Ok(EmailSettings(m[SenderKey], m[RecipientKey], m[SubjectKey], m[BodyKey]))
  }

  /** Two maps that agree on the four keys give the same outcome. */
  lemma FromDependsOnlyOnRequiredKeys(m1: map<string, Option<string>>, m2: map<string, Option<string>>)
    requires forall k :: k in {SenderKey, RecipientKey, SubjectKey, BodyKey} ==>
               (k in m1 <==> k in m2) && (k in m1 ==> m1[k] == m2[k])
    ensures From(m1) == From(m2)
  {
    assert SenderKey in {SenderKey, RecipientKey, SubjectKey, BodyKey};
    assert RecipientKey in {SenderKey, RecipientKey, SubjectKey, BodyKey};
    assert SubjectKey in {SenderKey, RecipientKey, SubjectKey, BodyKey};
    assert BodyKey in {SenderKey, RecipientKey, SubjectKey, BodyKey};
  }

  /** Extra keys are ignored. */
  lemma FromIgnoresOtherKeys(m: map<string, Option<string>>, k: string, v: Option<string>)
    requires k != SenderKey && k != RecipientKey && k != SubjectKey && k != BodyKey
    ensures From(m[k := v]) == From(m)
  {
    FromDependsOnlyOnRequiredKeys(m[k := v], m);
  }

  /** Only presence is checked: keys mapped to null still pass, and the
      settings then hold null. */
  lemma FromAcceptsNullValues(m: map<string, Option<string>>)
    requires HasRequiredKeys(m) && m[SenderKey].None?
    ensures From(m).Ok? && From(m).value.sender.None?
  {
  }
}
