/**
 * The contact form shown on a public card: only its enabled fields, a
 * required-field check before anything is sent, the record that is inserted,
 * and what is shown afterwards.  The insert into the database is a parameter
 * saying whether it succeeded.
 */
module ContactFormView {
  import opened Common
  import opened FormTypes

  /** `fields.filter(f => f.enabled)`. */
  function EnabledOf(fields: seq<ContactFormField>): (r: seq<ContactFormField>)
    ensures |r| <= |fields|
    ensures forall i :: 0 <= i < |r| ==> r[i].enabled && r[i] in fields
    ensures forall i :: 0 <= i < |fields| && fields[i].enabled ==> fields[i] in r
    ensures r == [] <==> forall i :: 0 <= i < |fields| ==> !fields[i].enabled
  {
    if fields == [] then []
    else (if fields[0].enabled then [fields[0]] else []) + EnabledOf(fields[1..])
  }

  /** `profile.contactform?.fields || []`, filtered to the enabled ones. */
  function EnabledFields(config: Option<ContactForm>): seq<ContactFormField>
  {
    if config.Some? && config.value.fields.Some? then EnabledOf(config.value.fields.value) else []
  }

  /** `formData[id] || ""`. */
  function Value(formData: map<string, string>, id: string): string
  {
    if id in formData then formData[id] else ""
  }

  /** A field passes when it is optional or its value is more than white space. */
  predicate Filled(field: ContactFormField, formData: map<string, string>)
  {
    !field.required || Trim(Value(formData, field.id)) != ""
  }

  /** `enabledFields.every(...)`, as the recursion `every` performs. */
  predicate HasAllRequired(fields: seq<ContactFormField>, formData: map<string, string>)
  {
    fields == [] || (Filled(fields[0], formData) && HasAllRequired(fields[1..], formData))
  }

  /** `every` holds exactly when each field passes. */
  lemma {:induction false} HasAllRequiredIff(fields: seq<ContactFormField>, formData: map<string, string>)
    ensures HasAllRequired(fields, formData) <==> forall i :: 0 <= i < |fields| ==> Filled(fields[i], formData)
  {
    if fields != [] {
      var rest := fields[1..];
      HasAllRequiredIff(rest, formData);
      if HasAllRequired(fields, formData) {
        forall i | 0 <= i < |fields| ensures Filled(fields[i], formData) {
          if i > 0 { assert fields[i] == rest[i - 1]; }
        }
      } else if Filled(fields[0], formData) {
        var i :| 0 <= i < |rest| && !Filled(rest[i], formData);
        assert fields[i + 1] == rest[i];
      }
    }
  }

  /**
   * The check over the enabled fields passes exactly when every field that is
   * both enabled and required has a value that is not only white space;
   * disabled fields are ignored even when marked required.
   */
  lemma RequiredCheck(fields: seq<ContactFormField>, formData: map<string, string>)
    ensures HasAllRequired(EnabledOf(fields), formData) <==>
      forall i :: 0 <= i < |fields| && fields[i].enabled && fields[i].required ==>
        Trim(Value(formData, fields[i].id)) != ""
  {
    var en := EnabledOf(fields);
    HasAllRequiredIff(en, formData);
    if HasAllRequired(en, formData) {
      forall i | 0 <= i < |fields| && fields[i].enabled && fields[i].required
        ensures Trim(Value(formData, fields[i].id)) != ""
      {
        var k :| 0 <= k < |en| && en[k] == fields[i];
        assert Filled(en[k], formData);
      }
    }
  }

  /** The row inserted into `form_submissions`: the four known fields only, each defaulting to "". */
  datatype SubmissionRecord = SubmissionRecord(
    profileId: string, name: string, email: string, phone: string, message: string)

  function Record(profileId: string, formData: map<string, string>): (r: SubmissionRecord)
    ensures r.profileId == profileId
    ensures r.name == Value(formData, "name") && r.email == Value(formData, "email")
    ensures r.phone == Value(formData, "phone") && r.message == Value(formData, "message")
  {
    SubmissionRecord(profileId, Value(formData, "name"), Value(formData, "email"),
      Value(formData, "phone"), Value(formData, "message"))
  }

  /** Values of other fields do not reach the record. */
  lemma RecordIgnoresOtherFields(profileId: string, formData: map<string, string>, id: string, v: string)
    requires id !in {"name", "email", "phone", "message"}
    ensures Record(profileId, formData[id := v]) == Record(profileId, formData)
  {
  }

  /** What a submit attempt leads to. */
  datatype Outcome =
    | MissingRequired
    | InsertFailed(attempted: SubmissionRecord)
    | Submitted(inserted: SubmissionRecord)

  /** The state after `handleSubmit`: its outcome, the form data and the `submitted` flag. */
  datatype AfterSubmit = AfterSubmit(outcome: Outcome, formData: map<string, string>, submitted: bool)

  /**
   * `handleSubmit`: a failed check inserts nothing; otherwise the record is
   * inserted, and a successful insert clears the form and shows the
   * confirmation.
   */
  function HandleSubmit(profileId: string, config: Option<ContactForm>, formData: map<string, string>,
                        submitted: bool, insertSucceeds: bool): (r: AfterSubmit)
    ensures !HasAllRequired(EnabledFields(config), formData) ==>
      r == AfterSubmit(MissingRequired, formData, submitted)
    ensures HasAllRequired(EnabledFields(config), formData) && insertSucceeds ==>
      r == AfterSubmit(Submitted(Record(profileId, formData)), map[], true)
    ensures HasAllRequired(EnabledFields(config), formData) && !insertSucceeds ==>
      r == AfterSubmit(InsertFailed(Record(profileId, formData)), formData, submitted)
  {
    if !HasAllRequired(EnabledFields(config), formData) then AfterSubmit(MissingRequired, formData, submitted)
    else if insertSucceeds then AfterSubmit(Submitted(Record(profileId, formData)), map[], true)
    else AfterSubmit(InsertFailed(Record(profileId, formData)), formData, submitted)
  }

  /** A record is inserted only when all enabled required fields are filled. */
  lemma InsertOnlyWhenFilled(profileId: string, config: Option<ContactForm>, formData: map<string, string>,
                             submitted: bool, insertSucceeds: bool)
    ensures var r := HandleSubmit(profileId, config, formData, submitted, insertSucceeds);
      !r.outcome.MissingRequired? <==>
        forall f :: f in EnabledFields(config) && f.required ==> Trim(Value(formData, f.id)) != ""
  {
    var fs := EnabledFields(config);
    HasAllRequiredIff(fs, formData);
    if forall f :: f in fs && f.required ==> Trim(Value(formData, f.id)) != "" {
      assert forall i :: 0 <= i < |fs| ==> Filled(fs[i], formData);
    }
  }

  /** `handleFieldChange(fieldId, value)`: only that key of the form data changes. */
  function HandleFieldChange(formData: map<string, string>, fieldId: string, value: string): (r: map<string, string>)
    ensures fieldId in r && r[fieldId] == value
    ensures forall k :: k != fieldId ==> (k in r <==> k in formData)
    ensures forall k :: k != fieldId && k in formData ==> r[k] == formData[k]
  {
    formData[fieldId := value]
  }

  const DefaultSuccess: string := "Obrigado! Sua mensagem foi enviada com sucesso."

  /** What the component renders. */
  datatype View =
    | Confirmation(message: string)
    | NothingShown
    | FormFields(fields: seq<ContactFormField>)

  function Render(config: Option<ContactForm>, submitted: bool): (r: View)
    ensures submitted ==> r.Confirmation?
    ensures !submitted ==> (r.NothingShown? <==> EnabledFields(config) == [])
    ensures r.FormFields? ==>
      (r.fields == EnabledFields(config) && forall i :: 0 <= i < |r.fields| ==> r.fields[i].enabled)
  {
    if submitted then
      Confirmation(if config.Some? && OrEmpty(config.value.successMessage) != "" then config.value.successMessage.value
                   else DefaultSuccess)
    else if EnabledFields(config) == [] then NothingShown
    else FormFields(EnabledFields(config))
  }

  /** Before a submit, the form renders nothing exactly when no field of it is enabled. */
  lemma NothingShownIff(config: ContactForm)
    ensures Render(Some(config), false) == NothingShown <==>
      (config.fields.None? || forall i :: 0 <= i < |config.fields.value| ==> !config.fields.value[i].enabled)
  {
  }
}
