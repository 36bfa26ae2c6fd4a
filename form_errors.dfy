/**
  The `errors` state the three forms share in shape: a map from field name
  to message, rebuilt from scratch by each validation and touched by an edit
  only at the edited field.
 */
module FormErrors {

  type Errors = map<string, string>

  /** What an edit of `field` does to the errors: when that field's message is
      truthy (non-empty) it is replaced by ''. No key is added or removed, and
      every other field's message is left as it was. */
  function AfterEdit(errors: Errors, field: string): (r: Errors)
    ensures r.Keys == errors.Keys
    ensures field in errors ==> r[field] == ""
    ensures forall k :: k in errors && k != field ==> r[k] == errors[k]
  {
    if field in errors && errors[field] != "" then errors[field := ""] else errors
  }
}
