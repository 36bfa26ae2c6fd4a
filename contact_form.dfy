/**
  The contact form: its `formData` (camelCase keys, nested `address` and
  `socialMedia` objects) and `errors` state, the initialisation from a given
  contact, the validation that fills a fresh error map field by field, the
  submit that hands the data on only when valid, and the two edit handlers.
 */
module ContactForm {
  import opened Wrappers
  import opened Js
  import opened JsText
  import opened FormErrors

  const FirstNameRequired := "First name is required"
  const LastNameRequired := "Last name is required"
  const EmailRequired := "Email is required"
  const EmailInvalid := "Please enter a valid email address"

  const EmptyAddress: Record :=
    map["street" := Str(""), "city" := Str(""), "state" := Str(""), "zipCode" := Str(""), "country" := Str("")]

  const EmptySocialMedia: Record :=
    map["linkedin" := Str(""), "twitter" := Str(""), "facebook" := Str(""), "instagram" := Str("")]

  /** The state the form starts with. */
  const InitialData: Record := map[
    "firstName" := Str(""), "lastName" := Str(""), "email" := Str(""), "phone" := Str(""),
    "company" := Str(""), "jobTitle" := Str(""), "address" := Obj(EmptyAddress),
    "socialMedia" := Obj(EmptySocialMedia), "notes" := Str(""), "tags" := Arr([])]

  /** `{...contact, address: contact.address || <empty>, socialMedia:
      contact.socialMedia || <empty>, tags: contact.tags || []}`: every other
      property is copied, and each of the three gets its empty default when it
      is falsy. */
  function FromContact(contact: JsValue): (r: Record)
    ensures r.Keys == OwnProps(contact).Keys + {"address", "socialMedia", "tags"}
    ensures forall k :: k in OwnProps(contact) && k !in {"address", "socialMedia", "tags"} ==> r[k] == OwnProps(contact)[k]
    ensures r["address"] == if Truthy(Get(OwnProps(contact), "address")) then OwnProps(contact)["address"] else Obj(EmptyAddress)
    ensures r["socialMedia"] == if Truthy(Get(OwnProps(contact), "socialMedia")) then OwnProps(contact)["socialMedia"] else Obj(EmptySocialMedia)
    ensures r["tags"] == if Truthy(Get(OwnProps(contact), "tags")) then OwnProps(contact)["tags"] else Arr([])
  {
    var f := OwnProps(contact);
    f["address" := Or(Get(f, "address"), Obj(EmptyAddress))]
     ["socialMedia" := Or(Get(f, "socialMedia"), Obj(EmptySocialMedia))]
     ["tags" := Or(Get(f, "tags"), Arr([]))]
  }

  /** The messages `validateForm` collects, from the outcome of each check:
      one per blank name, and for the e-mail either "required" or "invalid". */
  function ErrorMap(firstBlank: bool, lastBlank: bool, emailBlank: bool, emailMatches: bool): (r: Errors)
    ensures "firstName" in r <==> firstBlank
    ensures "lastName" in r <==> lastBlank
    ensures "email" in r <==> emailBlank || !emailMatches
    ensures r.Keys <= {"firstName", "lastName", "email"}
    ensures firstBlank ==> r["firstName"] == FirstNameRequired
    ensures lastBlank ==> r["lastName"] == LastNameRequired
    ensures emailBlank ==> r["email"] == EmailRequired
    ensures !emailBlank && !emailMatches ==> r["email"] == EmailInvalid
    ensures r == map[] <==> !firstBlank && !lastBlank && !emailBlank && emailMatches
  {
    var withFirst := if firstBlank then map["firstName" := FirstNameRequired] else map[];
    var withLast := if lastBlank then withFirst["lastName" := LastNameRequired] else withFirst;
    if emailBlank then withLast["email" := EmailRequired]
    else if !emailMatches then withLast["email" := EmailInvalid]
    else withLast
  }

  /** The error map `validateForm` builds for `data`, or the TypeError it
      throws when a checked field is not a string (`.trim()` of undefined).
      The pattern is tested on the e-mail as typed, not on its trimmed form. */
  function ValidationErrors(data: Record): Result<Errors, Exception> {
    match TrimValue(Get(data, "firstName"))
    case Failure(e) => Failure(e)
    case Success(first) =>
      match TrimValue(Get(data, "lastName"))
      case Failure(e) => Failure(e)
      case Success(last) =>
        match TrimValue(Get(data, "email"))
        case Failure(e) => Failure(e)
        case Success(email) => Success(ErrorMap(first == "", last == "", email == "", EmailTest(Get(data, "email").s)))
  }

  /** The three checked fields are strings. */
  predicate TextFields(data: Record) {
    Get(data, "firstName").Str? && Get(data, "lastName").Str? && Get(data, "email").Str?
  }

  /** Validation throws exactly when one of the checked fields is not a string. */
  lemma ValidationThrowsIff(data: Record)
    ensures ValidationErrors(data).Failure? <==> !TextFields(data)
    ensures ValidationErrors(data).Failure? ==> ValidationErrors(data).error == TypeErrorThrown
  {
  }

  /** A string matching the e-mail pattern is not blank. */
  lemma MatchingEmailNotBlank(email: string)
    requires MatchesEmailPattern(email)
    ensures !Blank(email)
  {
    var a, b, c :| IsPart(a) && IsPart(b) && IsPart(c) && email == a + "@" + b + "." + c;
    assert email[0] == a[0];
  }

  /** The outcome of the checks on well-typed data, in terms of the pattern
      and of blankness rather than of the trimming code. */
  lemma ValidationErrorsOf(data: Record)
    requires TextFields(data)
    ensures var email := Get(data, "email").s;
      ValidationErrors(data) == Success(ErrorMap(Blank(Get(data, "firstName").s), Blank(Get(data, "lastName").s),
                                                 Blank(email), MatchesEmailPattern(email)))
  {
    TrimEmptyIffBlank(Get(data, "firstName").s);
    TrimEmptyIffBlank(Get(data, "lastName").s);
    TrimEmptyIffBlank(Get(data, "email").s);
    EmailTestIff(Get(data, "email").s);
  }

  /** The form is valid exactly when first and last name are not blank and the
      e-mail matches the pattern (which also makes it not blank). */
  lemma ValidIff(data: Record)
    requires TextFields(data)
    ensures ValidationErrors(data) == Success(map[]) <==>
      && !Blank(Get(data, "firstName").s)
      && !Blank(Get(data, "lastName").s)
      && MatchesEmailPattern(Get(data, "email").s)
  {
    ValidationErrorsOf(data);
    if MatchesEmailPattern(Get(data, "email").s) {
      MatchingEmailNotBlank(Get(data, "email").s);
    }
  }

  /** Each message belongs to its own field: a blank e-mail is reported as
      required, never as invalid, and a malformed one as invalid. */
  lemma EmailMessages(data: Record)
    requires TextFields(data)
    ensures ValidationErrors(data).Success?
    ensures var email, r := Get(data, "email").s, ValidationErrors(data).value;
      && (Blank(email) ==> "email" in r && r["email"] == EmailRequired)
      && (!Blank(email) && !MatchesEmailPattern(email) ==> "email" in r && r["email"] == EmailInvalid)
      && (MatchesEmailPattern(email) ==> "email" !in r)
  {
    ValidationErrorsOf(data);
    if MatchesEmailPattern(Get(data, "email").s) {
      MatchingEmailNotBlank(Get(data, "email").s);
    }
  }

  /** Editing a top-level field: the new state and errors. */
  function Edited(data: Record, field: string, value: JsValue): (r: Record)
    ensures field in r && r[field] == value
    ensures forall k :: k != field ==> (k in r <==> k in data)
    ensures forall k :: k in data && k != field ==> r[k] == data[k]
  {
    data[field := value]
  }

  /** `{...prev, [parent]: {...prev[parent], [field]: value}}` */
  function EditedNested(data: Record, parent: string, field: string, value: JsValue): (r: Record)
    ensures r.Keys == data.Keys + {parent}
    ensures forall k :: k in data && k != parent ==> r[k] == data[k]
    ensures r[parent].Obj? && r[parent].fields.Keys == OwnProps(Get(data, parent)).Keys + {field}
    ensures r[parent].fields[field] == value
    ensures forall k :: k in OwnProps(Get(data, parent)) && k != field ==>
              r[parent].fields[k] == OwnProps(Get(data, parent))[k]
  {
    data[parent := Obj(OwnProps(Get(data, parent))[field := value])]
  }

  /** The accumulation in `validateForm`: starting from `{}`, one message is
      added per failed check, in the order the checks run. */
  method CollectErrors(firstBlank: bool, lastBlank: bool, emailBlank: bool, emailMatches: bool)
    returns (newErrors: Errors)
    ensures newErrors == ErrorMap(firstBlank, lastBlank, emailBlank, emailMatches)
  {
    newErrors := map[];
    if firstBlank {
      newErrors := newErrors["firstName" := FirstNameRequired];
    }
    if lastBlank {
      newErrors := newErrors["lastName" := LastNameRequired];
    }
    if emailBlank {
      newErrors := newErrors["email" := EmailRequired];
    } else if !emailMatches {
      newErrors := newErrors["email" := EmailInvalid];
    }
  }

  /** The checks of `validateForm` in the order they run: trimming the first
      name, the last name and the e-mail (each throws for a non-string), then
      the e-mail pattern. */
  method CheckAll(data: Record) returns (outcome: Result<Errors, Exception>)
    ensures outcome == ValidationErrors(data)
  {
    var first := TrimValue(Get(data, "firstName"));
    if first.Failure? {
      return Failure(first.error);
    }
    var last := TrimValue(Get(data, "lastName"));
    if last.Failure? {
      return Failure(last.error);
    }
    var email := TrimValue(Get(data, "email"));
    if email.Failure? {
      return Failure(email.error);
    }
    var newErrors := CollectErrors(first.value == "", last.value == "", email.value == "",
                                   EmailTest(Get(data, "email").s));
    return Success(newErrors);
  }

  class ContactForm {
    var formData: Record
    var errors: Errors

    constructor ()
      ensures formData == InitialData && errors == map[]
    {
      formData := InitialData;
      errors := map[];
    }

    /** The effect run when the `contact` prop changes. */
    method LoadContact(contact: JsValue)
      modifies this
      ensures Truthy(contact) ==> formData == FromContact(contact)
      ensures !Truthy(contact) ==> formData == old(formData)
      ensures errors == old(errors)
    {
      if Truthy(contact) {
        formData := FromContact(contact);
      }
    }

    /** `validateForm`: builds a fresh error map check by check, stores it,
        and answers whether it is empty. A thrown TypeError leaves `errors`
        as it was. */
    method ValidateForm() returns (valid: Result<bool, Exception>)
      modifies this
      ensures formData == old(formData)
      ensures ValidationErrors(formData).Failure? ==> valid == Failure(ValidationErrors(formData).error) && errors == old(errors)
      ensures ValidationErrors(formData).Success? ==>
                errors == ValidationErrors(formData).value && valid == Success(errors == map[])
    {
      var outcome := CheckAll(formData);
      valid := StoreErrors(outcome);
    }

    /** The end of `validateForm`: a thrown error propagates before `errors`
        is touched; otherwise the new map replaces `errors`, and the answer is
        whether it has no key. */
    method StoreErrors(outcome: Result<Errors, Exception>) returns (valid: Result<bool, Exception>)
      modifies this
      ensures formData == old(formData)
      ensures outcome.Failure? ==> valid == Failure(outcome.error) && errors == old(errors)
      ensures outcome.Success? ==> errors == outcome.value && valid == Success(errors == map[])
    {
      if outcome.Failure? {
        return Failure(outcome.error);
      }
      var newErrors := outcome.value;
      errors := newErrors;
      valid := Success(newErrors == map[]);
    }

    /** `handleSubmit`: the data handed to `onSubmit`, `None` when the form
        is not valid (nothing is submitted). */
    method HandleSubmit() returns (submitted: Result<Option<Record>, Exception>)
      modifies this
      ensures formData == old(formData)
      ensures submitted.Success? <==> ValidationErrors(formData).Success?
      ensures submitted.Success? && submitted.value.Some? <==> ValidationErrors(formData) == Success(map[])
      ensures submitted.Success? && submitted.value.Some? ==> submitted.value.value == formData
      ensures ValidationErrors(formData).Success? ==> errors == ValidationErrors(formData).value
      ensures ValidationErrors(formData).Failure? ==> errors == old(errors)
    {
      var valid := ValidateForm();
      match valid
      case Failure(e) =>
        submitted := Failure(e);
      case Success(ok) =>
        submitted := Success(if ok then Some(formData) else None);
    }

    /** `updateFormData(field, value)` */
    method UpdateFormData(field: string, value: JsValue)
      modifies this
      ensures formData == Edited(old(formData), field, value)
      ensures errors == AfterEdit(old(errors), field)
    {
      formData := formData[field := value];
      if field in errors && errors[field] != "" {
        errors := errors[field := ""];
      }
    }

    /** `updateNestedData(parent, field, value)`; `errors` is not touched. */
    method UpdateNestedData(parent: string, field: string, value: JsValue)
      modifies this
      ensures formData == EditedNested(old(formData), parent, field, value)
      ensures errors == old(errors)
    {
      var inner := OwnProps(Get(formData, parent));
      formData := formData[parent := Obj(inner[field := value])];
    }
  }
}
