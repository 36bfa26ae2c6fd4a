/**
  The deal form: its `formData` and `errors` state, the initialisation from a
  deal in edit mode (numbers and lookups turned into the strings the inputs
  show), the validation of name, value, stage and probability, the submit that
  fills `Name` from the deal name, and the edit handler.
 */
module DealForm {
  import opened Wrappers
  import opened Js
  import opened JsText
  import opened FormErrors
  import DealService

  const NameRequired := "Deal name is required"
  const ValueInvalid := "Please enter a valid deal value"
  const StageRequired := "Please select a deal stage"
  const ProbabilityOutOfRange := "Probability must be between 0 and 100"

  /** The columns initialised as `deal[k] || ''`. */
  const TextFields: seq<string> := ["Name", "deal_name_c", "expected_close_date_c", "associated_company_c"]

  /** The lookup columns, initialised from the referenced record's `Id`. */
  const LookupFields: seq<string> := ["associated_contact_c", "owner_c"]

  /** The state the form starts with. */
  const InitialData: Record := map[
    "Name" := Str(""), "deal_name_c" := Str(""), "deal_value_c" := Str(""),
    "deal_stage_c" := Str("Prospecting"), "probability_c" := Str("0"),
    "expected_close_date_c" := Str(""), "associated_contact_c" := Str(""),
    "associated_company_c" := Str(""), "owner_c" := Str("")]

  /** The column groups and the three single columns are pairwise distinct. */
  lemma KeysDistinct()
    ensures forall k :: k in TextFields ==> k !in LookupFields
    ensures forall k :: k in TextFields + LookupFields ==>
              k != "deal_value_c" && k != "deal_stage_c" && k != "probability_c"
    ensures "deal_value_c" != "deal_stage_c" && "deal_stage_c" != "probability_c" && "probability_c" != "deal_value_c"
  {
  }

  /** `v?.toString() || fallback`: the text of any value that is not null or
      undefined, unless that text is empty. */
  function TextOrDefault(v: JsValue, fallback: string): (r: JsValue)
    ensures r.Str?
    ensures Nullish(v) ==> r == Str(fallback)
    ensures !Nullish(v) && ToString(v) != "" ==> r == Str(ToString(v))
    ensures !Nullish(v) && ToString(v) == "" ==> r == Str(fallback)
    ensures v.Str? && v.s != "" ==> r == v
  {
    if Nullish(v) then Str(fallback) else Or(Str(ToString(v)), Str(fallback))
  }

  /** The state set from a deal in edit mode: the text columns default to '',
      the stage to 'Prospecting'; value and probability become their text
      ('' and '0' when absent); a lookup becomes the text of its `Id`. */
  function FromDeal(deal: JsValue): (r: Record)
    ensures r.Keys == (set k | k in TextFields + LookupFields) + {"deal_value_c", "deal_stage_c", "probability_c"}
    ensures forall k :: k in TextFields ==> r[k] == Or(Get(OwnProps(deal), k), Str(""))
    ensures forall k :: k in LookupFields ==> r[k] == TextOrDefault(IdOf(Get(OwnProps(deal), k)), "")
    ensures r["deal_value_c"] == TextOrDefault(Get(OwnProps(deal), "deal_value_c"), "")
    ensures r["probability_c"] == TextOrDefault(Get(OwnProps(deal), "probability_c"), "0")
    ensures !Truthy(Get(OwnProps(deal), "deal_stage_c")) ==> r["deal_stage_c"] == Str("Prospecting")
    ensures Truthy(Get(OwnProps(deal), "deal_stage_c")) ==> r["deal_stage_c"] == OwnProps(deal)["deal_stage_c"]
  {
    KeysDistinct();
    var f := OwnProps(deal);
    (map k | k in TextFields + LookupFields ::
       if k in LookupFields then TextOrDefault(IdOf(Get(f, k)), "") else Or(Get(f, k), Str("")))
      ["deal_value_c" := TextOrDefault(Get(f, "deal_value_c"), "")]
      ["deal_stage_c" := Or(Get(f, "deal_stage_c"), Str("Prospecting"))]
      ["probability_c" := TextOrDefault(Get(f, "probability_c"), "0")]
  }

  /** The value check: an empty value, or one whose `parseFloat` is negative.
      A value `parseFloat` cannot read at all (NaN) is not rejected. */
  predicate ValueBad(v: JsValue) {
    !Truthy(v) || (ParseFloat(v).Some? && ParseFloat(v).value < 0.0)
  }

  /** The probability check: `parseInt` gives NaN or a number outside [0, 100]. */
  predicate ProbabilityBad(v: JsValue) {
    ParseInt(v).None? || ParseInt(v).value < 0 || ParseInt(v).value > 100
  }

  /** The messages `validateForm` collects from the outcome of each check. */
  function ErrorMap(nameBlank: bool, valueBad: bool, stageMissing: bool, probabilityBad: bool): (r: Errors)
    ensures "deal_name_c" in r <==> nameBlank
    ensures "deal_value_c" in r <==> valueBad
    ensures "deal_stage_c" in r <==> stageMissing
    ensures "probability_c" in r <==> probabilityBad
    ensures r.Keys <= {"deal_name_c", "deal_value_c", "deal_stage_c", "probability_c"}
    ensures nameBlank ==> r["deal_name_c"] == NameRequired
    ensures valueBad ==> r["deal_value_c"] == ValueInvalid
    ensures stageMissing ==> r["deal_stage_c"] == StageRequired
    ensures probabilityBad ==> r["probability_c"] == ProbabilityOutOfRange
    ensures r == map[] <==> !nameBlank && !valueBad && !stageMissing && !probabilityBad
  {
    var withName := if nameBlank then map["deal_name_c" := NameRequired] else map[];
    var withValue := if valueBad then withName["deal_value_c" := ValueInvalid] else withName;
    var withStage := if stageMissing then withValue["deal_stage_c" := StageRequired] else withValue;
    if probabilityBad then withStage["probability_c" := ProbabilityOutOfRange] else withStage
  }

  /** The error map `validateForm` builds for `data`, or the TypeError it
      throws when the deal name is not a string. */
  function ValidationErrors(data: Record): Result<Errors, Exception> {
    match TrimValue(Get(data, "deal_name_c"))
    case Failure(e) => Failure(e)
    case Success(name) =>
      Success(ErrorMap(name == "", ValueBad(Get(data, "deal_value_c")),
                       !Truthy(Get(data, "deal_stage_c")), ProbabilityBad(Get(data, "probability_c"))))
  }

  /** Validation throws exactly when the deal name is not a string. */
  lemma ValidationThrowsIff(data: Record)
    ensures ValidationErrors(data).Failure? <==> !Get(data, "deal_name_c").Str?
    ensures ValidationErrors(data).Failure? ==> ValidationErrors(data).error == TypeErrorThrown
  {
  }

  /** The form is valid exactly when the deal name is not blank, a value is
      given whose `parseFloat` is not negative, a stage is chosen, and the
      probability parses to an integer in [0, 100]. */
  lemma ValidIff(data: Record)
    requires Get(data, "deal_name_c").Str?
    ensures var value, probability := Get(data, "deal_value_c"), Get(data, "probability_c");
      ValidationErrors(data) == Success(map[]) <==>
        && !Blank(Get(data, "deal_name_c").s)
        && Truthy(value) && !(ParseFloat(value).Some? && ParseFloat(value).value < 0.0)
        && Truthy(Get(data, "deal_stage_c"))
        && ParseInt(probability).Some? && 0 <= ParseInt(probability).value <= 100
  {
    TrimEmptyIffBlank(Get(data, "deal_name_c").s);
  }

  /** The value check accepts text that is no number at all: "abc" passes,
      since `parseFloat` gives NaN and NaN < 0 is false. */
  lemma NonNumericValuePasses()
    ensures ParseFloat(Str("abc")) == None
    ensures !ValueBad(Str("abc"))
  {
    var t := "abc";
    assert ToString(Str(t)) == t;
    assert !IsSpace(t[0]) && !IsDigit(t[0]) && t[0] != '.';
    assert TrimStart(t) == t;
    assert SplitSign(t) == (1, t);
    assert PrefixWhile(t, IsDigit) == [];
    assert t[0..] == t;
    assert ParseFloatString(t) == None;
  }

  /** The probability a form shows for a deal with an integral probability
      `n` passes the check exactly when 0 <= n <= 100. */
  lemma ProbabilityRoundTrip(n: int)
    requires -PlainIntegerBound < n < PlainIntegerBound
    ensures var shown := FromDeal(Obj(map["probability_c" := Num(n as real)]))["probability_c"];
      shown == Str(IntToString(n)) && (ProbabilityBad(shown) <==> n < 0 || n > 100)
  {
    var deal := Obj(map["probability_c" := Num(n as real)]);
    var shown := Str(IntToString(n));
    assert FromDeal(deal)["probability_c"] == shown by {
      assert Get(OwnProps(deal), "probability_c") == Num(n as real);
      IntegerText(n);
    }
    ParseIntOfIntText(n);
  }

  /** A lookup loaded into the form and saved again refers to the same record:
      the text of a positive integer `Id` is read back by the service's
      `parseInt` as that number. */
  lemma LookupRoundTrip(n: int)
    requires 0 < n < PlainIntegerBound
    ensures var shown := FromDeal(Obj(map["associated_contact_c" := Obj(map["Id" := Num(n as real)])]))["associated_contact_c"];
      shown == Str(IntToString(n)) && DealService.LookupValue(shown) == Num(n as real)
  {
    var deal := Obj(map["associated_contact_c" := Obj(map["Id" := Num(n as real)])]);
    var shown := Str(IntToString(n));
    assert FromDeal(deal)["associated_contact_c"] == shown by {
      assert IdOf(Get(OwnProps(deal), "associated_contact_c")) == Num(n as real);
      assert "associated_contact_c" in LookupFields;
      IntegerText(n);
    }
    ParseIntOfIntText(n);
    assert Truthy(shown);
  }

  /** `handleSubmit`'s copy of the data: every column as it is, and `Name`
      set to the deal name when that is truthy, else left as it was. */
  function SubmitData(data: Record): (r: Record)
    ensures r.Keys == data.Keys + {"Name"}
    ensures forall k :: k in data && k != "Name" ==> r[k] == data[k]
    ensures Truthy(Get(data, "deal_name_c")) ==> r["Name"] == data["deal_name_c"]
    ensures !Truthy(Get(data, "deal_name_c")) ==> r["Name"] == Get(data, "Name")
  {
    data["Name" := Or(Get(data, "deal_name_c"), Get(data, "Name"))]
  }

  /** After the submit, the name the service writes is the deal name whenever
      one is given, even when the form also holds a different `Name`. */
  lemma SubmittedNameIsDealName(data: Record)
    requires Truthy(Get(data, "deal_name_c"))
    ensures DealService.DealName(SubmitData(data)) == data["deal_name_c"]
  {
  }

  /** The accumulation in `validateForm`: starting from `{}`, one message is
      added per failed check, in the order the checks run. */
  method CollectErrors(nameBlank: bool, valueBad: bool, stageMissing: bool, probabilityBad: bool)
    returns (newErrors: Errors)
    ensures newErrors == ErrorMap(nameBlank, valueBad, stageMissing, probabilityBad)
  {
    newErrors := map[];
    if nameBlank {
      newErrors := newErrors["deal_name_c" := NameRequired];
    }
    if valueBad {
      newErrors := newErrors["deal_value_c" := ValueInvalid];
    }
    if stageMissing {
      newErrors := newErrors["deal_stage_c" := StageRequired];
    }
    if probabilityBad {
      newErrors := newErrors["probability_c" := ProbabilityOutOfRange];
    }
  }

  /** The value step of `validateForm`; `parseFloat` runs only on a truthy value. */
  method CheckValue(value: JsValue) returns (bad: bool)
    ensures bad == ValueBad(value)
  {
    bad := true;
    if Truthy(value) {
      var parsed := ParseFloat(value);
      bad := parsed.Some? && parsed.value < 0.0;
    }
  }

  /** The probability step of `validateForm`. */
  method CheckProbability(probability: JsValue) returns (bad: bool)
    ensures bad == ProbabilityBad(probability)
  {
    var parsed := ParseInt(probability);
    bad := parsed.None? || parsed.value < 0 || parsed.value > 100;
  }

  /** The checks of `validateForm` in the order they run: trimming the deal
      name (which throws for a non-string), then the value, the stage and
      the probability. */
  method CheckAll(data: Record) returns (outcome: Result<Errors, Exception>)
    ensures outcome == ValidationErrors(data)
  {
    var name := TrimValue(Get(data, "deal_name_c"));
    if name.Failure? {
      return Failure(name.error);
    }
    var valueBad := CheckValue(Get(data, "deal_value_c"));
    var probabilityBad := CheckProbability(Get(data, "probability_c"));
    var newErrors := CollectErrors(name.value == "", valueBad, !Truthy(Get(data, "deal_stage_c")), probabilityBad);
    return Success(newErrors);
  }

  class DealForm {
    var mode: string
    var formData: Record
    var errors: Errors

    /** The form as first shown; `mode` defaults to "create". */
    constructor (modeProp: Option<string>)
      ensures mode == (if modeProp.Some? then modeProp.value else "create")
      ensures formData == InitialData && errors == map[]
    {
      mode := if modeProp.Some? then modeProp.value else "create";
      formData := InitialData;
      errors := map[];
    }

    /** The effect run when the `deal` or `mode` prop changes: only a truthy
        deal in "edit" mode replaces the state. */
    method LoadDeal(deal: JsValue)
      modifies this
      ensures Truthy(deal) && mode == "edit" ==> formData == FromDeal(deal)
      ensures !(Truthy(deal) && mode == "edit") ==> formData == old(formData)
      ensures mode == old(mode) && errors == old(errors)
    {
      if Truthy(deal) && mode == "edit" {
        formData := FromDeal(deal);
      }
    }

    /** `validateForm`: builds a fresh error map check by check, stores it,
        and answers whether it is empty. A thrown TypeError leaves `errors`
        as it was. */
    method ValidateForm() returns (valid: Result<bool, Exception>)
      modifies this
      ensures formData == old(formData) && mode == old(mode)
      ensures ValidationErrors(formData).Failure? ==> valid == Failure(ValidationErrors(formData).error) && errors == old(errors)
      ensures ValidationErrors(formData).Success? ==>
                errors == ValidationErrors(formData).value && valid == Success(errors == map[])
    {
      var outcome := CheckAll(formData);
      valid := StoreErrors(outcome);
    }

    /** The end of `validateForm`: a thrown error propagates before `errors`
        is touched; otherwise the new map replaces `errors`, and the answer is
        whether it has no key. */
    method StoreErrors(outcome: Result<Errors, Exception>) returns (valid: Result<bool, Exception>)
      modifies this
      ensures formData == old(formData) && mode == old(mode)
      ensures outcome.Failure? ==> valid == Failure(outcome.error) && errors == old(errors)
      ensures outcome.Success? ==> errors == outcome.value && valid == Success(errors == map[])
    {
      if outcome.Failure? {
        return Failure(outcome.error);
      }
      var newErrors := outcome.value;
      errors := newErrors;
      valid := Success(newErrors == map[]);
    }

    /** `handleSubmit`: when valid, the data with `Name` taken from the deal
        name is handed to `onSubmit`; otherwise nothing is submitted (`None`). */
    method HandleSubmit() returns (submitted: Result<Option<Record>, Exception>)
      modifies this
      ensures formData == old(formData) && mode == old(mode)
      ensures submitted.Success? <==> ValidationErrors(formData).Success?
      ensures submitted.Success? && submitted.value.Some? <==> ValidationErrors(formData) == Success(map[])
      ensures submitted.Success? && submitted.value.Some? ==> submitted.value.value == SubmitData(formData)
      ensures ValidationErrors(formData).Success? ==> errors == ValidationErrors(formData).value
      ensures ValidationErrors(formData).Failure? ==> errors == old(errors)
    {
      var valid := ValidateForm();
      if valid.Failure? {
        return Failure(valid.error);
      }
      if !valid.value {
        return Success(None);
      }
      var submitData := formData["Name" := Or(Get(formData, "deal_name_c"), Get(formData, "Name"))];
      submitted := Success(Some(submitData));
    }

    /** `handleChange(field, value)` */
    method HandleChange(field: string, value: JsValue)
      modifies this
      ensures formData == old(formData)[field := value]
      ensures errors == AfterEdit(old(errors), field)
      ensures mode == old(mode)
    {
      formData := formData[field := value];
      if field in errors && errors[field] != "" {
        errors := errors[field := ""];
      }
    }
  }
}
