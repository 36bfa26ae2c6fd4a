/**
  The lead form: its `formData` (the lead's own column names) and `errors`
  state, the initialisation from a given lead, the validation (name, e-mail,
  and a score in [0, 100] when one is given), the submit that strips an
  empty score and a falsy assignee, and the edit handler.
 */
module LeadForm {
  import opened Wrappers
  import opened Js
  import opened JsText
  import opened FormErrors

  const NameRequired := "Name is required"
  const EmailRequired := "Email is required"
  const EmailInvalid := "Invalid email format"
  const ScoreOutOfRange := "Lead score must be between 0 and 100"

  /** The columns initialised as `lead[k] || ''`. */
  const TextFields: seq<string> := ["name_c", "email_c", "phone_c", "company_c", "job_title_c", "lead_source_c"]

  /** The state the form starts with. */
  const InitialData: Record := map[
    "name_c" := Str(""), "email_c" := Str(""), "phone_c" := Str(""), "company_c" := Str(""),
    "job_title_c" := Str(""), "lead_source_c" := Str(""), "lead_status_c" := Str("New"),
    "lead_score_c" := Str(""), "assigned_to_c" := Str("")]

  /** The three columns that get their own defaults are not text columns. */
  lemma KeysDistinct()
    ensures "lead_status_c" !in TextFields && "lead_score_c" !in TextFields && "assigned_to_c" !in TextFields
    ensures "lead_status_c" != "lead_score_c" && "lead_score_c" != "assigned_to_c" && "assigned_to_c" != "lead_status_c"
  {
  }

  /** The score column as initialised: kept unless null or undefined (so a
      score of 0 stays 0). */
  function ScoreOf(v: JsValue): (r: JsValue)
    ensures Nullish(v) ==> r == Str("")
    ensures !Nullish(v) ==> r == v
  {
    if !v.Null? && !v.Undefined? then v else Str("")
  }

  /** The assignee column as initialised: the lookup's `Id`, or the value
      itself, or ''. */
  function AssigneeOf(v: JsValue): (r: JsValue)
    ensures Truthy(IdOf(v)) ==> r == IdOf(v)
    ensures !Truthy(IdOf(v)) && Truthy(v) ==> r == v
    ensures !Truthy(IdOf(v)) && !Truthy(v) ==> r == Str("")
  {
    Or(Or(IdOf(v), v), Str(""))
  }

  /** The state set from a given lead: text columns default to '', the status
      to 'New'; the score and the assignee as `ScoreOf` and `AssigneeOf` say. */
  function FromLead(lead: JsValue): (r: Record)
    ensures r.Keys == (set k | k in TextFields) + {"lead_status_c", "lead_score_c", "assigned_to_c"}
    ensures forall k :: k in TextFields ==> r[k] == Or(Get(OwnProps(lead), k), Str(""))
    ensures !Truthy(Get(OwnProps(lead), "lead_status_c")) ==> r["lead_status_c"] == Str("New")
    ensures Truthy(Get(OwnProps(lead), "lead_status_c")) ==> r["lead_status_c"] == OwnProps(lead)["lead_status_c"]
    ensures r["lead_score_c"] == ScoreOf(Get(OwnProps(lead), "lead_score_c"))
    ensures r["assigned_to_c"] == AssigneeOf(Get(OwnProps(lead), "assigned_to_c"))
  {
    KeysDistinct();
    var f := OwnProps(lead);
    (map k | k in TextFields :: Or(Get(f, k), Str("")))
      ["lead_status_c" := Or(Get(f, "lead_status_c"), Str("New"))]
      ["lead_score_c" := ScoreOf(Get(f, "lead_score_c"))]
      ["assigned_to_c" := AssigneeOf(Get(f, "assigned_to_c"))]
  }

  /** The score is checked only when it is given (not '', null or undefined). */
  predicate ScoreGiven(v: JsValue) {
    v != Str("") && !v.Null? && !v.Undefined?
  }

  /** The range check on a given score: its `parseInt` is NaN, below 0 or above 100. */
  predicate ScoreRejected(v: JsValue) {
    match ParseInt(v)
    case None => true
    case Some(n) => n < 0 || n > 100
  }

  /** The score check as a whole: a given score whose `parseInt` is out of range. */
  predicate ScoreBad(v: JsValue) {
    ScoreGiven(v) && ScoreRejected(v)
  }

  /** The messages `validateForm` collects from the outcome of each check. */
  function ErrorMap(nameBlank: bool, emailBlank: bool, emailMatches: bool, scoreBad: bool): (r: Errors)
    ensures "name_c" in r <==> nameBlank
    ensures "email_c" in r <==> emailBlank || !emailMatches
    ensures "lead_score_c" in r <==> scoreBad
    ensures r.Keys <= {"name_c", "email_c", "lead_score_c"}
    ensures nameBlank ==> r["name_c"] == NameRequired
    ensures emailBlank ==> r["email_c"] == EmailRequired
    ensures !emailBlank && !emailMatches ==> r["email_c"] == EmailInvalid
    ensures scoreBad ==> r["lead_score_c"] == ScoreOutOfRange
    ensures r == map[] <==> !nameBlank && !emailBlank && emailMatches && !scoreBad
  {
    var withName := if nameBlank then map["name_c" := NameRequired] else map[];
    var withEmail :=
      if emailBlank then withName["email_c" := EmailRequired]
      else if !emailMatches then withName["email_c" := EmailInvalid]
      else withName;
    if scoreBad then withEmail["lead_score_c" := ScoreOutOfRange] else withEmail
  }

  /** The error map `validateForm` builds for `data`, or the TypeError it
      throws when the name or the e-mail is not a string. */
  function ValidationErrors(data: Record): Result<Errors, Exception> {
    match TrimValue(Get(data, "name_c"))
    case Failure(e) => Failure(e)
    case Success(name) =>
      match TrimValue(Get(data, "email_c"))
      case Failure(e) => Failure(e)
      case Success(email) =>
        Success(ErrorMap(name == "", email == "", EmailTest(Get(data, "email_c").s),
                         ScoreBad(Get(data, "lead_score_c"))))
  }

  /** Validation throws exactly when the name or the e-mail is not a string. */
  lemma ValidationThrowsIff(data: Record)
    ensures ValidationErrors(data).Failure? <==> !(Get(data, "name_c").Str? && Get(data, "email_c").Str?)
  {
  }

  /** A string matching the e-mail pattern is not blank. */
  lemma MatchingEmailNotBlank(email: string)
    requires MatchesEmailPattern(email)
    ensures !Blank(email)
  {
    var a, b, c :| IsPart(a) && IsPart(b) && IsPart(c) && email == a + "@" + b + "." + c;
    assert email[0] == a[0];
  }

  /** The outcome of the checks on well-typed data, in terms of the pattern
      and of blankness rather than of the trimming code. */
  lemma ValidationErrorsOf(data: Record)
    requires Get(data, "name_c").Str? && Get(data, "email_c").Str?
    ensures var email := Get(data, "email_c").s;
      ValidationErrors(data) == Success(ErrorMap(Blank(Get(data, "name_c").s), Blank(email),
                                                 MatchesEmailPattern(email), ScoreBad(Get(data, "lead_score_c"))))
  {
    TrimEmptyIffBlank(Get(data, "name_c").s);
    TrimEmptyIffBlank(Get(data, "email_c").s);
    EmailTestIff(Get(data, "email_c").s);
  }

  /** The form is valid exactly when the name is not blank, the e-mail matches
      the pattern, and a given score parses to an integer in [0, 100]. */
  lemma ValidIff(data: Record)
    requires Get(data, "name_c").Str? && Get(data, "email_c").Str?
    ensures var score := Get(data, "lead_score_c");
      ValidationErrors(data) == Success(map[]) <==>
        && !Blank(Get(data, "name_c").s)
        && MatchesEmailPattern(Get(data, "email_c").s)
        && (ScoreGiven(score) ==> ParseInt(score).Some? && 0 <= ParseInt(score).value <= 100)
  {
    ValidationErrorsOf(data);
    if MatchesEmailPattern(Get(data, "email_c").s) {
      MatchingEmailNotBlank(Get(data, "email_c").s);
    }
  }

  /** A score typed as the decimal digits of `n` is accepted exactly when
      0 <= n <= 100; an absent or empty score is never checked. */
  lemma ScoreCheck(n: int)
    ensures ScoreRejected(Str(IntToString(n))) <==> n < 0 || n > 100
    ensures !ScoreGiven(Str("")) && !ScoreGiven(Null) && !ScoreGiven(Undefined)
  {
    var typed := Str(IntToString(n));
    ParseIntOfIntText(n);
    assert ScoreGiven(typed);
  }

  /** `handleSubmit`'s copy of the data: without `lead_score_c` when it is
      exactly '', without `assigned_to_c` when it is falsy, otherwise as is. */
  function SubmitData(data: Record): (r: Record)
    ensures r.Keys <= data.Keys
    ensures forall k :: k in r ==> r[k] == data[k]
    ensures forall k :: k in data && k != "lead_score_c" && k != "assigned_to_c" ==> k in r
    ensures "lead_score_c" in data ==> ("lead_score_c" in r <==> data["lead_score_c"] != Str(""))
    ensures "assigned_to_c" in data ==> ("assigned_to_c" in r <==> Truthy(data["assigned_to_c"]))
  {
    var withoutScore := if Get(data, "lead_score_c") == Str("") then data - {"lead_score_c"} else data;
    if !Truthy(Get(withoutScore, "assigned_to_c")) then withoutScore - {"assigned_to_c"} else withoutScore
  }

  /** The accumulation in `validateForm`: starting from `{}`, one message is
      added per failed check, in the order the checks run. */
  method CollectErrors(nameBlank: bool, emailBlank: bool, emailMatches: bool, scoreBad: bool)
    returns (newErrors: Errors)
    ensures newErrors == ErrorMap(nameBlank, emailBlank, emailMatches, scoreBad)
  {
    newErrors := map[];
    if nameBlank {
      newErrors := newErrors["name_c" := NameRequired];
    }
    if emailBlank {
      newErrors := newErrors["email_c" := EmailRequired];
    } else if !emailMatches {
      newErrors := newErrors["email_c" := EmailInvalid];
    }
    if scoreBad {
      newErrors := newErrors["lead_score_c" := ScoreOutOfRange];
    }
  }

  /** The score step of `validateForm`: only a given score is parsed, and it
      fails when `parseInt` gives NaN or a number outside [0, 100]. */
  method CheckScore(score: JsValue) returns (scoreBad: bool)
    ensures scoreBad <==> ScoreGiven(score) && (ParseInt(score).None? || ParseInt(score).value < 0 || ParseInt(score).value > 100)
    ensures scoreBad == ScoreBad(score)
  {
    scoreBad := false;
    if score != Str("") && !score.Null? && !score.Undefined? {
      var parsed := ParseInt(score);
      scoreBad := parsed.None? || parsed.value < 0 || parsed.value > 100;
    }
  }

  /** The checks of `validateForm` in the order they run: trimming the name
      and the e-mail (each throws for a non-string), then the e-mail pattern
      and the score. */
  method CheckAll(data: Record) returns (outcome: Result<Errors, Exception>)
    ensures outcome == ValidationErrors(data)
  {
    var name := TrimValue(Get(data, "name_c"));
    if name.Failure? {
      return Failure(name.error);
    }
    var email := TrimValue(Get(data, "email_c"));
    if email.Failure? {
      return Failure(email.error);
    }
    var scoreBad := CheckScore(Get(data, "lead_score_c"));
    var newErrors := CollectErrors(name.value == "", email.value == "", EmailTest(Get(data, "email_c").s), scoreBad);
    return Success(newErrors);
  }

  class LeadForm {
    var formData: Record
    var errors: Errors

    constructor ()
      ensures formData == InitialData && errors == map[]
    {
      formData := InitialData;
      errors := map[];
    }

    /** The effect run when the `lead` prop changes. */
    method LoadLead(lead: JsValue)
      modifies this
      ensures Truthy(lead) ==> formData == FromLead(lead)
      ensures !Truthy(lead) ==> formData == old(formData)
      ensures errors == old(errors)
    {
      if Truthy(lead) {
        formData := FromLead(lead);
      }
    }

    /** `validateForm`: builds a fresh error map check by check, stores it,
        and answers whether it is empty. A thrown TypeError leaves `errors`
        as it was. */
    method ValidateForm() returns (valid: Result<bool, Exception>)
      modifies this
      ensures formData == old(formData)
      ensures ValidationErrors(formData).Failure? ==> valid == Failure(ValidationErrors(formData).error) && errors == old(errors)
      ensures ValidationErrors(formData).Success? ==>
                errors == ValidationErrors(formData).value && valid == Success(errors == map[])
    {
      var outcome := CheckAll(formData);
      valid := StoreErrors(outcome);
    }

    /** The end of `validateForm`: a thrown error propagates before `errors`
        is touched; otherwise the new map replaces `errors`, and the answer is
        whether it has no key. */
    method StoreErrors(outcome: Result<Errors, Exception>) returns (valid: Result<bool, Exception>)
      modifies this
      ensures formData == old(formData)
      ensures outcome.Failure? ==> valid == Failure(outcome.error) && errors == old(errors)
      ensures outcome.Success? ==> errors == outcome.value && valid == Success(errors == map[])
    {
      if outcome.Failure? {
        return Failure(outcome.error);
      }
      var newErrors := outcome.value;
      errors := newErrors;
      valid := Success(newErrors == map[]);
    }

    /** `handleSubmit`: when valid, a copy of the data from which an empty
        score and a falsy assignee are deleted is handed to `onSubmit`;
        otherwise nothing is submitted (`None`). */
    method HandleSubmit() returns (submitted: Result<Option<Record>, Exception>)
      modifies this
      ensures formData == old(formData)
      ensures submitted.Success? <==> ValidationErrors(formData).Success?
      ensures submitted.Success? && submitted.value.Some? <==> ValidationErrors(formData) == Success(map[])
      ensures submitted.Success? && submitted.value.Some? ==> submitted.value.value == SubmitData(formData)
      ensures ValidationErrors(formData).Success? ==> errors == ValidationErrors(formData).value
      ensures ValidationErrors(formData).Failure? ==> errors == old(errors)
    {
      var valid := ValidateForm();
      if valid.Failure? {
        return Failure(valid.error);
      }
      if !valid.value {
        return Success(None);
      }
      var submitData := formData;
      if Get(submitData, "lead_score_c") == Str("") {
        submitData := submitData - {"lead_score_c"};
      }
      if !Truthy(Get(submitData, "assigned_to_c")) {
        submitData := submitData - {"assigned_to_c"};
      }
      submitted := Success(Some(submitData));
    }

    /** `handleChange(field, value)` */
    method HandleChange(field: string, value: JsValue)
      modifies this
      ensures formData == old(formData)[field := value]
      ensures errors == AfterEdit(old(errors), field)
    {
      formData := formData[field := value];
      if field in errors && errors[field] != "" {
        errors := errors[field := ""];
      }
    }
  }
}
