/**
  The contact-form hook: per-field validators, whole-form validation, and
  the form state (data, errors and three flags) that the hook's actions
  update.
 */
module ContactForm {
  import opened Wrappers
  import opened Text
  import opened EmailPattern

  // ---------------------------------------------------------------------
  // Data

  datatype Field = Name | Email | Company | ProjectType | Message

  /** The fields in the order `Object.keys` lists them. */
  const FieldOrder: seq<Field> := [Name, Email, Company, ProjectType, Message]

  lemma AllFieldsListed()
    ensures forall f: Field :: f in FieldOrder
  {
    forall f: Field ensures f in FieldOrder {
      match f
      case Name => assert FieldOrder[0] == f;
      case Email => assert FieldOrder[1] == f;
      case Company => assert FieldOrder[2] == f;
      case ProjectType => assert FieldOrder[3] == f;
      case Message => assert FieldOrder[4] == f;
    }
  }

  datatype FormData = FormData(name: string, email: string, company: string, projectType: string, message: string)
  {
    function Get(f: Field): string {
      match f
      case Name => name
      case Email => email
      case Company => company
      case ProjectType => projectType
      case Message => message
    }

    /** `{...data, [f]: v}`. */
    function Set(f: Field, v: string): (r: FormData)
      ensures r.Get(f) == v
      ensures forall g: Field :: g != f ==> r.Get(g) == Get(g)
    {
      match f
      case Name => this.(name := v)
      case Email => this.(email := v)
      case Company => this.(company := v)
      case ProjectType => this.(projectType := v)
      case Message => this.(message := v)
    }
  }

  const InitialData := FormData("", "", "", "", "")

  /** A key of the errors record. */
  datatype ErrorKey = FieldKey(field: Field) | General

  /** The errors record: a key may be present with the value `undefined`
      (`None`), which `Object.keys` still lists. */
  type Errors = map<ErrorKey, Option<string>>

  // ---------------------------------------------------------------------
  // Messages

  const NameRequired := "Name is required"
  const NameTooShort := "Name must be at least 2 characters"
  const EmailRequired := "Email is required"
  const EmailInvalid := "Please enter a valid email address"
  const CompanyTooShort := "Company name must be at least 2 characters"
  const ProjectTypeRequired := "Please select a project type"
  const MessageRequired := "Message is required"
  const MessageTooShort := "Message must be at least 10 characters"
  const MessageTooLong := "Message must be less than 1000 characters"
  const NotConfigured := "Form service is not configured. Please contact us directly."
  const SendFailed := "There was an error sending your message. Please try again or contact us directly."

  // ---------------------------------------------------------------------
  // Field validation

  /** `validateField`: the error message for a field value, or `undefined`.
      Lengths are taken after trimming; the e-mail pattern is applied to the
      untrimmed value. */
  function ValidateField(f: Field, value: string): Option<string> {
    var t := Trim(value);
    match f
    case Name =>
      if t == "" then Some(NameRequired)
      else if |t| < 2 then Some(NameTooShort)
      else None
    case Email =>
      if t == "" then Some(EmailRequired)
      else if !MatchesEmailPattern(value) then Some(EmailInvalid)
      else None
    case Company =>
      if t != "" && |t| < 2 then Some(CompanyTooShort) else None
    case ProjectType =>
      if t == "" then Some(ProjectTypeRequired) else None
    case Message =>
      if t == "" then Some(MessageRequired)
      else if |t| < 10 then Some(MessageTooShort)
      else if |t| > 1000 then Some(MessageTooLong)
      else None
  }

  /** Every message the validator produces is a non-empty string, so an
      error is truthy exactly when it is present. */
  lemma ErrorsAreTruthy(f: Field, value: string)
    ensures Truthy(ValidateField(f, value)) <==> ValidateField(f, value).Some?
  {
    var t := Trim(value);
    match f
    case Name =>
      assert ValidateField(f, value) == if t == "" then Some(NameRequired) else if |t| < 2 then Some(NameTooShort) else None;
    case Email =>
      assert ValidateField(f, value) ==
        if t == "" then Some(EmailRequired) else if !MatchesEmailPattern(value) then Some(EmailInvalid) else None;
    case Company =>
      assert ValidateField(f, value) == if t != "" && |t| < 2 then Some(CompanyTooShort) else None;
    case ProjectType =>
      assert ValidateField(f, value) == if t == "" then Some(ProjectTypeRequired) else None;
    case Message =>
      assert ValidateField(f, value) ==
        if t == "" then Some(MessageRequired) else if |t| < 10 then Some(MessageTooShort)
        else if |t| > 1000 then Some(MessageTooLong) else None;
  }

  /** Name: required when it is all white space, too short when its trimmed
      length is 1, and accepted from a trimmed length of 2. */
  lemma NameRule(v: string)
    ensures ValidateField(Name, v) == Some(NameRequired) <==> IsBlank(v)
    ensures ValidateField(Name, v) == Some(NameTooShort) <==> |Trim(v)| == 1
    ensures ValidateField(Name, v).None? <==> |Trim(v)| >= 2
  {
    var t := Trim(v);
    assert ValidateField(Name, v) == if t == "" then Some(NameRequired) else if |t| < 2 then Some(NameTooShort) else None;
    BlankIffTrimEmpty(v);
  }

  /** E-mail: required when it is all white space, and otherwise accepted
      exactly when the untrimmed value has the address shape. */
  lemma EmailRule(v: string)
    ensures ValidateField(Email, v) == Some(EmailRequired) <==> IsBlank(v)
    ensures ValidateField(Email, v).None? <==> HasEmailShape(v)
    ensures ValidateField(Email, v).Some? ==>
      ValidateField(Email, v) == Some(EmailRequired) || ValidateField(Email, v) == Some(EmailInvalid)
  {
    var t := Trim(v);
    assert ValidateField(Email, v) ==
      if t == "" then Some(EmailRequired) else if !MatchesEmailPattern(v) then Some(EmailInvalid) else None;
    BlankIffTrimEmpty(v);
    ShapeMatchesPattern(v);
    if HasEmailShape(v) {
      assert !IsWhitespace(v[IndexOf(v, '@')]);
    }
  }

  /** An address with white space around it is refused, though trimming
      would have made it acceptable. */
  lemma EmailSurroundingSpace(v: string)
    requires HasEmailShape(v)
    ensures ValidateField(Email, v).None?
    ensures ValidateField(Email, " " + v) == Some(EmailInvalid)
    ensures ValidateField(Email, v + " ") == Some(EmailInvalid)
  {
    EmailRule(v);
    EmailRule(" " + v);
    EmailRule(v + " ");
    SurroundingSpaceFails(v);
    assert (" " + v)[1..] == v && !IsWhitespace(v[IndexOf(v, '@')]);
    assert !IsWhitespace((" " + v)[1 + IndexOf(v, '@')]);
    assert !IsWhitespace((v + " ")[IndexOf(v, '@')]);
  }

  /** Company is optional: it fails only when its trimmed length is exactly 1. */
  lemma CompanyRule(v: string)
    ensures ValidateField(Company, v).Some? <==> |Trim(v)| == 1
    ensures ValidateField(Company, v).Some? ==> ValidateField(Company, v) == Some(CompanyTooShort)
    ensures IsBlank(v) ==> ValidateField(Company, v).None?
  {
    var t := Trim(v);
    assert ValidateField(Company, v) == if t != "" && |t| < 2 then Some(CompanyTooShort) else None;
    BlankIffTrimEmpty(v);
  }

  /** Project type fails only when it is all white space. */
  lemma ProjectTypeRule(v: string)
    ensures ValidateField(ProjectType, v).Some? <==> IsBlank(v)
    ensures ValidateField(ProjectType, v).Some? ==> ValidateField(ProjectType, v) == Some(ProjectTypeRequired)
  {
    var t := Trim(v);
    assert ValidateField(ProjectType, v) == if t == "" then Some(ProjectTypeRequired) else None;
    BlankIffTrimEmpty(v);
  }

  /** Message: required when all white space, too short below 10 trimmed
      characters, too long above 1000, and accepted from 10 to 1000. */
  lemma MessageRule(v: string)
    ensures ValidateField(Message, v) == Some(MessageRequired) <==> IsBlank(v)
    ensures ValidateField(Message, v) == Some(MessageTooShort) <==> 1 <= |Trim(v)| < 10
    ensures ValidateField(Message, v) == Some(MessageTooLong) <==> |Trim(v)| > 1000
    ensures ValidateField(Message, v).None? <==> 10 <= |Trim(v)| <= 1000
  {
    var t := Trim(v);
    assert ValidateField(Message, v) ==
      if t == "" then Some(MessageRequired) else if |t| < 10 then Some(MessageTooShort)
      else if |t| > 1000 then Some(MessageTooLong) else None;
    BlankIffTrimEmpty(v);
  }

  // ---------------------------------------------------------------------
  // Whole-form validation

  /** The per-field check `validateForm` applies to `data`. */
  function CheckOf(data: FormData): Field -> Option<string> {
    f => ValidateField(f, data.Get(f))
  }

  /** The errors `validateForm` collects over the given fields, in order:
      an entry for each field whose check gives a truthy message. */
  function ErrorsOver(fields: seq<Field>, check: Field -> Option<string>): Errors {
    if fields == [] then map[]
    else
      var e := ErrorsOver(fields[..|fields| - 1], check);
      var f := fields[|fields| - 1];
      if Truthy(check(f)) then e[FieldKey(f) := check(f)] else e
  }

  /** `validateForm`'s result. */
  function FormErrors(data: FormData): Errors {
    ErrorsOver(FieldOrder, CheckOf(data))
  }

  /** Every entry collected is a listed field with its truthy message. */
  lemma {:induction false} ErrorsOverSound(fields: seq<Field>, check: Field -> Option<string>)
    ensures forall k :: k in ErrorsOver(fields, check) ==>
      k.FieldKey? && k.field in fields && ErrorsOver(fields, check)[k] == check(k.field) && Truthy(check(k.field))
    decreases |fields|
  {
    if fields != [] {
      var init := fields[..|fields| - 1];
      var last := fields[|fields| - 1];
      ErrorsOverSound(init, check);
      var e := ErrorsOver(init, check);
      var r := ErrorsOver(fields, check);
      assert r == if Truthy(check(last)) then e[FieldKey(last) := check(last)] else e;
      assert fields == init + [last];
      forall k | k in r
        ensures k.FieldKey? && k.field in fields && r[k] == check(k.field) && Truthy(check(k.field))
      {
        if !(Truthy(check(last)) && k == FieldKey(last)) {
          assert k in e && r[k] == e[k];
        }
      }
    }
  }

  /** Every listed field with a truthy message has an entry, and no other listed field has. */
  lemma {:induction false} ErrorsOverComplete(fields: seq<Field>, check: Field -> Option<string>)
    ensures forall f :: f in fields ==> (FieldKey(f) in ErrorsOver(fields, check) <==> Truthy(check(f)))
    decreases |fields|
  {
    if fields != [] {
      var init := fields[..|fields| - 1];
      var last := fields[|fields| - 1];
      ErrorsOverComplete(init, check);
      ErrorsOverSound(init, check);
      assert fields == init + [last];
      forall f | f in fields
        ensures FieldKey(f) in ErrorsOver(fields, check) <==> Truthy(check(f))
      {
        if f != last { assert f in init; }
      }
    }
  }

  /** Over any list of fields, the entries are exactly the listed fields
      whose check fails, each with its message. */
  lemma ErrorsOverEntries(fields: seq<Field>, check: Field -> Option<string>)
    ensures forall k :: k in ErrorsOver(fields, check) ==>
      k.FieldKey? && k.field in fields && ErrorsOver(fields, check)[k] == check(k.field) && Truthy(check(k.field))
    ensures forall f :: f in fields ==> (FieldKey(f) in ErrorsOver(fields, check) <==> Truthy(check(f)))
  {
    ErrorsOverSound(fields, check);
    ErrorsOverComplete(fields, check);
  }

  /** `validateForm` holds an entry for exactly the fields that fail, with
      that field's message, and nothing else (in particular no `general`). */
  lemma FormErrorsExact(data: FormData)
    ensures forall f: Field :: FieldKey(f) in FormErrors(data) <==> ValidateField(f, data.Get(f)).Some?
    ensures forall f: Field :: FieldKey(f) in FormErrors(data) ==>
      FormErrors(data)[FieldKey(f)] == ValidateField(f, data.Get(f))
    ensures General !in FormErrors(data)
    ensures FormErrors(data) == map[] <==> forall f: Field :: ValidateField(f, data.Get(f)).None?
  {
    ErrorsOverEntries(FieldOrder, CheckOf(data));
    AllFieldsListed();
    forall f: Field ensures Truthy(CheckOf(data)(f)) <==> ValidateField(f, data.Get(f)).Some? {
      ErrorsAreTruthy(f, data.Get(f));
    }
    if FormErrors(data) != map[] {
      var k :| k in FormErrors(data);
      assert ValidateField(k.field, data.Get(k.field)).Some?;
    }
  }

  /** One more field: its entry is added exactly when its check fails. */
  lemma ErrorsOverStep(fields: seq<Field>, i: int, check: Field -> Option<string>)
    requires 0 <= i < |fields|
    ensures ErrorsOver(fields[..i + 1], check)
            == if Truthy(check(fields[i])) then ErrorsOver(fields[..i], check)[FieldKey(fields[i]) := check(fields[i])]
               else ErrorsOver(fields[..i], check)
  {
    assert fields[..i + 1][..i] == fields[..i];
  }

  /** `validateForm`: a loop over the fields that records each failing
      field's message. */
  method ValidateForm(data: FormData) returns (errors: Errors)
    ensures errors == FormErrors(data)
  {
    errors := map[];
    for i := 0 to |FieldOrder|
      invariant errors == ErrorsOver(FieldOrder[..i], CheckOf(data))
    {
      var field := FieldOrder[i];
      ErrorsOverStep(FieldOrder, i, CheckOf(data));
      var error := ValidateField(field, data.Get(field));
      assert error == CheckOf(data)(field);
      if Truthy(error) {
        errors := errors[FieldKey(field) := error];
      }
    }
    assert FieldOrder[..|FieldOrder|] == FieldOrder;
  }

  // ---------------------------------------------------------------------
  // Validity of the errors record

  /** `isValid` as written: `Object.keys(errors).length === 0`, which counts
      keys whose value is `undefined`. */
  predicate KeysEmpty(e: Errors) {
    e == map[]
  }

  /** `isValid` as intended: no key holds a message. */
  predicate NoMessages(e: Errors) {
    forall k :: k in e ==> e[k].None?
  }

  /** The errors after editing field `f`: its entry and `general` set to `undefined`. */
  function ClearedOnEdit(e: Errors, f: Field): Errors {
    e[FieldKey(f) := None][General := None]
  }

  /** As written, typing into any field of a fresh form leaves two keys
      holding `undefined`, so `isValid` is false although no error is shown. */
  lemma TypingMakesFormInvalidAsWritten()
    ensures NoMessages(ClearedOnEdit(map[], Name))
    ensures !KeysEmpty(ClearedOnEdit(map[], Name))
  {
    assert General in ClearedOnEdit(map[], Name);
  }

  /** With validity read as "no key holds a message", editing a field makes
      the form valid exactly when every other field's entry is empty. */
  lemma EditedErrorsValid(e: Errors, f: Field)
    ensures NoMessages(ClearedOnEdit(e, f)) <==>
      forall k :: k in e && k != FieldKey(f) && k != General ==> e[k].None?
  {
    var c := ClearedOnEdit(e, f);
    if NoMessages(c) {
      forall k | k in e && k != FieldKey(f) && k != General ensures e[k].None? {
        assert k in c && c[k] == e[k];
      }
    } else {
      var k :| k in c && c[k].Some?;
      assert k in e && k != FieldKey(f) && k != General && e[k] == c[k];
    }
  }

  /** On the result of whole-form validation both readings agree, and hold
      exactly when every field passes. */
  lemma ValidityReadingsAgree(data: FormData)
    ensures NoMessages(FormErrors(data)) <==> KeysEmpty(FormErrors(data))
    ensures NoMessages(FormErrors(data)) <==> forall f: Field :: ValidateField(f, data.Get(f)).None?
  {
    FormErrorsExact(data);
    var e := FormErrors(data);
    if !KeysEmpty(e) {
      var k :| k in e;
      assert k != General;
      assert e[FieldKey(k.field)] == ValidateField(k.field, data.Get(k.field));
      assert e[k].Some?;
    }
  }

  // ---------------------------------------------------------------------
  // Submission

  /** What the form service did with the request: `result.success` was true,
      it was false (which the code turns into a thrown error), or the request
      or the decoding of its answer threw. */
  datatype SubmitOutcome = Delivered | Rejected | Thrown

  /** The multipart body sent to the form service, as name/value pairs in
      order of `append`. */
  function Payload(accessKey: string, data: FormData): (r: seq<(string, string)>)
    ensures |r| == 8
    ensures r[1] == ("name", data.name) && r[2] == ("email", data.email)
    ensures r[7].1 == "New Contact Form Submission from " + data.name
  {
    [("access_key", accessKey), ("name", data.name), ("email", data.email), ("company", data.company),
     ("project_type", data.projectType), ("message", data.message),
     ("from_name", "Mobilify Contact Form"), ("subject", "New Contact Form Submission from " + data.name)]
  }

  /** The hook's form state. */
  class FormState {
    var data: FormData
    var errors: Errors
    var isSubmitting: bool
    var isSubmitted: bool
    var submitSuccess: bool

    predicate IsInitial()
      reads this
    {
      data == InitialData && errors == map[] && !isSubmitting && !isSubmitted && !submitSuccess
    }

    constructor()
      ensures IsInitial()
    {
      data := InitialData;
      errors := map[];
      isSubmitting := false;
      isSubmitted := false;
      submitSuccess := false;
    }

    /** `isValid`, read as no error message being held (see `KeysEmpty` for
        the expression as written). */
    predicate IsValid()
      reads this
    {
      NoMessages(errors)
    }

    /** `updateField`: sets one field, clears its error and the general
        error, and leaves the rest untouched. */
    method UpdateField(f: Field, value: string)
      modifies this
      ensures data == old(data).Set(f, value)
      ensures errors == ClearedOnEdit(old(errors), f)
      ensures isSubmitting == old(isSubmitting) && isSubmitted == old(isSubmitted)
      ensures submitSuccess == old(submitSuccess)
    {
      data := data.Set(f, value);
      errors := errors[FieldKey(f) := None][General := None];
    }

    /** `validateSingleField`: records the field's validator result (present
        or `undefined`) under its key and reports whether it passed. */
    method ValidateSingleField(f: Field) returns (ok: bool)
      modifies this
      ensures ok <==> ValidateField(f, data.Get(f)).None?
      ensures errors == old(errors)[FieldKey(f) := ValidateField(f, old(data).Get(f))]
      ensures data == old(data) && isSubmitting == old(isSubmitting)
      ensures isSubmitted == old(isSubmitted) && submitSuccess == old(submitSuccess)
    {
      var value := data.Get(f);
      var error := ValidateField(f, value);
      ErrorsAreTruthy(f, value);
      assert Truthy(error) <==> error.Some?;
      errors := errors[FieldKey(f) := error];
      ok := !Truthy(error);
    }

    /** `resetForm`: back to the initial state, from any state. */
    method ResetForm()
      modifies this
      ensures IsInitial()
    {
      data := InitialData;
      errors := map[];
      isSubmitting := false;
      isSubmitted := false;
      submitSuccess := false;
    }

    /** `submitForm`, as one atomic step.  `serviceKey` is the configured
        access key and `outcome` what the form service did.  `request` is the
        body sent, if any; `submittingAtSend` and `errorsAtSend` are the state
        while the request is in flight.  The data is never changed. */
    method SubmitForm(serviceKey: Option<string>, outcome: SubmitOutcome)
        returns (ok: bool, request: Option<seq<(string, string)>>,
                 ghost submittingAtSend: bool, ghost errorsAtSend: Errors)
      modifies this
      ensures data == old(data)
      ensures FormErrors(old(data)) != map[] ==>
        && !ok && request.None? && errors == FormErrors(old(data))
        && isSubmitting == old(isSubmitting) && isSubmitted == old(isSubmitted)
        && submitSuccess == old(submitSuccess)
      ensures FormErrors(old(data)) == map[] && !Truthy(serviceKey) ==>
        && !ok && request.None? && errors == map[General := Some(NotConfigured)]
        && isSubmitting == old(isSubmitting) && isSubmitted == old(isSubmitted)
        && submitSuccess == old(submitSuccess)
      ensures FormErrors(old(data)) == map[] && Truthy(serviceKey) ==>
        && request == Some(Payload(serviceKey.value, old(data)))
        && submittingAtSend && errorsAtSend == map[]
        && !isSubmitting && isSubmitted
        && (ok <==> outcome == Delivered) && submitSuccess == ok
        && (ok ==> errors == map[])
        && (!ok ==> errors == map[General := Some(SendFailed)])
    {
      request := None;
      submittingAtSend := isSubmitting;
      errorsAtSend := errors;
      var validation := ValidateForm(data);
      if |validation.Keys| > 0 {
        errors := validation;
        return false, None, submittingAtSend, errorsAtSend;
      }
      if !Truthy(serviceKey) {
        errors := map[General := Some(NotConfigured)];
        return false, None, submittingAtSend, errorsAtSend;
      }
      isSubmitting := true;
      errors := map[];
      submittingAtSend, errorsAtSend := isSubmitting, errors;
      request := Some(Payload(serviceKey.value, data));
      if outcome == Delivered {
        isSubmitting := false;
        isSubmitted := true;
        submitSuccess := true;
        ok := true;
      } else {
        isSubmitting := false;
        isSubmitted := true;
        submitSuccess := false;
        errors := map[General := Some(SendFailed)];
        ok := false;
      }
    }
  }
}
