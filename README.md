# CRM front-end core, modelled in Dafny

This project models the decision logic of a small CRM web front-end. The
front-end keeps contacts, leads and deals in a hosted table service. The
model covers these parts:

- **Entity services** (`contactService`, `leadService`, `dealService`):
  - how each `create` and `update` turns form data into the record sent over
    the wire. This covers the derived `Name`, integer lookups and scores,
    JSON-encoded nested columns, and the clean-up loop that deletes `''`,
    `null` and `undefined` entries (keeping `Id` on update);
  - how each service reads the `{success, results[]}` envelope the table
    service answers with;
  - how the search queries are shaped.
- **Forms** (contact, lead, deal):
  - loading a stored record into editable state;
  - validation, which fills an error dictionary field by field;
  - submission, including the keys stripped before submit;
  - the change handlers, which clear only the edited field's error.
- **Grids** (contacts, leads, deals): the search predicate and the
  load/search/delete state transitions.
- **Pages** (contacts, deals): the view state machines, including the
  selected record, the loading flag and the refresh counter.
- **Display helpers**: initials, address lines and the lead card's
  status/score/source classifiers.

Everything outside the program is an input to the model:

- the table service's answers (`Sdk.Call`, `Sdk.WriteResponse`,
  `Sdk.FetchResponse`), including a rejected promise;
- the user's confirmation;
- `JSON.stringify`/`JSON.parse` (`Sdk.Json`, whose `parse` may fail).

JavaScript values are `Js.JsValue`, and a plain object is a
`map<string, JsValue>` (`Js.Record`). A missing key reads as `undefined`.
`Js` and `JsText` model the language operations the code relies on:

- truthiness and `||`;
- `String(v)`, `parseInt` and `parseFloat`;
- `trim`, ASCII case mapping and `includes`;
- the e-mail regular expression `^[^\s@]+@[^\s@]+\.[^\s@]+$`, proved equal
  to a direct character-level check.

The source's form determines the model's form:

- React components that hold state are classes, with the state as fields.
  Their handlers are methods with `modifies` clauses, and each handler's
  new state is stated against a specification function.
- The in-place clean-up loop and the step-by-step error collection are
  `while`/`if` methods, each proved equal to a function.
- Pure helpers are functions with lemmas.

Behaviour of the code worth noting:

- A malformed nested JSON column makes the whole contact read fail: the
  parse is not guarded, so the error is re-thrown.
- A deal lookup given as an object is sent as `parseInt` of the object,
  which is `NaN` (`DealService.LookupOfRecordIsNaN`).
- The deal service never throws. Its `create`/`update` give `null`, its
  `delete` gives `false`, and its reads give `[]`/`null`.
- The contact card and contact detail read camel-case keys (`firstName`,
  `address`), while the contact service returns `first_name_c`,
  `address_c` and so on (`ContactDetail.DecodedContactHasNoInitials`).
- With a non-empty search term, a `null` or `undefined` entry in the lead
  or deal list makes the search effect throw, and the shown list stays as
  it was (`LeadGrid.SearchThrows`, `DealGrid.SearchThrows`).

## Model

| member | source | states |
|---|---|---|
| Js.Or | src/services/api/contactService.js:102-109 | `a \|\| b` is `a` when `a` is truthy and `b` otherwise |
| Js.MessageOr | src/components/organisms/ContactGrid.jsx:26 | `err.message \|\| fallback`: the exception's message when it is not empty, else the fallback text |
| Js.ParseIntOfIntToString | src/services/api/leadService.js:95 | `parseInt` of the decimal text of any integer gives back that integer |
| Js.ParseIntOfInteger | src/services/api/leadService.js:102 | `parseInt` of an integral number below 10^21 in magnitude is that integer |
| Js.ParseIntOfIntText | src/components/molecules/DealForm.jsx:49 | `parseInt` of a string holding an integer's text is that integer |
| Js.IntegerText | src/components/molecules/DealForm.jsx:49 | `String` of an integral number below 10^21 in magnitude is the integer's decimal text |
| Js.TrimStartSuffix | src/components/molecules/ContactForm.jsx:59-65 | trimming the start drops exactly the leading white space and stops at the first other character |
| Js.ParseIntOfObject | src/services/api/dealService.js:103 | `parseInt` of a plain object is `NaN`, because its text is `[object Object]` |
| JsText.TrimValue | src/components/molecules/ContactForm.jsx:59-65 | `.trim()` succeeds exactly on strings and gives the trimmed text; any other value throws a TypeError |
| JsText.TrimEndPrefix | src/components/molecules/ContactForm.jsx:59-65 | trimming the end drops exactly the trailing white space and stops at the last other character |
| JsText.TrimEmptyIffBlank | src/components/molecules/ContactForm.jsx:59-65 | a trimmed string is empty exactly when the string is all white space |
| JsText.EmailTestIff | src/components/molecules/ContactForm.jsx:67 | the character-level e-mail check accepts exactly the strings the regular expression matches |
| JsText.EmailTestSound | src/components/molecules/LeadForm.jsx:65 | every string the check accepts matches the e-mail pattern |
| JsText.EmailTestComplete | src/components/molecules/LeadForm.jsx:65 | `a@b.c` passes whenever `a`, `b`, `c` are non-empty and free of white space and `@` |
| Seqs.FilterIsSubsequence | src/components/organisms/ContactGrid.jsx:40-50 | `filter` keeps an order-preserving subsequence of its input |
| Seqs.FilterMembership | src/components/organisms/ContactGrid.jsx:40-50 | an element survives `filter` exactly when it is in the input and satisfies the predicate |
| Seqs.FilterAll | src/services/api/contactService.js:139 | a `filter` whose predicate holds everywhere returns its input |
| Seqs.FilterHead | src/services/api/contactService.js:140 | the first element `filter` keeps is the earliest one satisfying the predicate |
| Seqs.FilterEmpty | src/components/molecules/ContactDetail.jsx:11-17 | `filter` gives `[]` exactly when no element satisfies the predicate |
| Sdk.NoFailures | src/services/api/contactService.js:138-150 | no failed results exactly when every result succeeded, and then the successful ones are all of them |
| Sdk.FirstFailure | src/services/api/contactService.js:141-145 | the first failed result is a result of the response that did not succeed |
| Payload.Pruned | src/services/api/contactService.js:121-125 | clean-up keeps only keys of the record, with their values; a kept value is not `''`/`null`/`undefined` unless it is a protected `Id`; every non-empty entry is kept |
| Payload.PruneEmpty | src/services/api/contactService.js:121-125 | the in-place `forEach`/`delete` loop leaves exactly `Pruned` of the record |
| Payload.PruneIdempotent | src/services/api/leadService.js:106-111 | cleaning a cleaned record changes nothing |
| Payload.PrunedWithoutId | src/services/api/contactService.js:190-194 | cleaning while protecting `Id`, then dropping `Id`, is the same as dropping `Id` and cleaning without protection |
| Payload.PrunedAt | src/services/api/contactService.js:121-125 | the clean-up keeps key `k` exactly when it is in the record and is the protected `Id` or not empty, with its value unchanged |
| Payload.CopiesKept | src/services/api/contactService.js:102-125 | every `v \|\| ''` column survives the clean-up exactly when `v` is truthy, and then carries `v` |
| Payload.OrEmptyKept | src/services/api/contactService.js:102-109 | a `v \|\| ''` column survives the clean-up exactly when `v` is truthy |
| ContactService.BuildPayload | src/services/api/contactService.js:100-125 | the method that builds and cleans the record in place gives `WirePayload` |
| ContactService.DisplayName | src/services/api/contactService.js:101 | the contact's `Name`: first and last name, each `''` when falsy, joined by one space and trimmed (worked out for trimmed parts in `NameOfTrimmedParts`) |
| ContactService.WireRecord | src/services/api/contactService.js:100-118 | the literal before the clean-up: `Name`, each copied column as `data[k] \|\| ''`, `Id` on update only, and the address and social-media objects as their JSON text when truthy (entry by entry in `WireScalars`, `WireCopiedEntry`, `WireNestedEntry`, `WireKeys`) |
| ContactService.WirePayload | src/services/api/contactService.js:100-125 | the record handed to the SDK: `WireRecord` with every `''`, `null` and `undefined` entry deleted, `Id` excepted on update (`BuildPayload` computes it; `CreatePayload…` give its entries) |
| ContactService.WireScalars | src/services/api/contactService.js:100-111 | before the clean-up, `Name` is the derived name and `Id` is present exactly on update, equal to the argument |
| ContactService.WireCopiedEntry | src/services/api/contactService.js:102-109 | before the clean-up, each copied column is `value \|\| ''` |
| ContactService.WireNestedEntry | src/services/api/contactService.js:113-118 | before the clean-up, each nested column is present exactly when its input is truthy, and then as its JSON text |
| ContactService.WireKeys | src/services/api/contactService.js:100-118 | before the clean-up the record holds only `Name`, `Id`, the copied and the nested columns |
| ContactService.WithNestedEntries | src/services/api/contactService.js:113-118 | adding one nested column touches no other key |
| ContactService.CreatePayloadName | src/services/api/contactService.js:101-125 | a create payload holds `Name` iff the derived name is non-empty, and then that name |
| ContactService.CreatePayloadCopied | src/services/api/contactService.js:102-125 | a create payload holds each copied column iff its input is truthy, and then that input |
| ContactService.CreatePayloadNested | src/services/api/contactService.js:112-125 | a create payload holds each nested column iff its input is truthy and encodes to non-empty text, and then that text |
| ContactService.CreatePayloadKeys | src/services/api/contactService.js:100-125 | a create payload holds no other key and no empty value |
| ContactService.UpdatePayloadIsCreatePlusId | src/services/api/contactService.js:165-194 | an update payload always has `Id` equal to the argument, and without `Id` it is exactly the create payload |
| ContactService.NameOfTrimmedParts | src/services/api/contactService.js:101 | for trimmed names, `Name` is "first last", or the one that is not empty |
| ContactService.DecodeNested | src/services/api/contactService.js:46-50 | a falsy nested column decodes to `null`, a truthy one to its parse, and a parse failure throws a SyntaxError |
| ContactService.DecodeContactFields | src/services/api/contactService.js:46-50 | decoding a contact changes only `address_c` and `social_media_c`; every other field passes through |
| ContactService.DecodeContact | src/services/api/contactService.js:46-50 | a `null`/`undefined` entry throws a TypeError; an object keeps its columns, with `address_c` and `social_media_c` set to `null` when falsy or to their parsed JSON, and a failed parse makes the whole read fail |
| ContactService.DecodeAll | src/services/api/contactService.js:46-50 | the list decodes iff every element decodes, element by element and in order; one failure fails the whole read |
| ContactService.ListOutcome | src/services/api/contactService.js:34-55 | a rejected call re-throws; an unsuccessful envelope throws its message; data without a truthy `length` gives `[]`; otherwise the list is decoded |
| ContactService.ByIdOutcome | src/services/api/contactService.js:78-94 | a rejected call re-throws; no data throws the not-found error; an object is decoded |
| ContactService.SearchParams | src/services/api/contactService.js:266-303 | an empty query is the `getAll` request; otherwise name/e-mail/company use the lower-cased query, phone the raw one, with limit 1000 |
| ContactService.WriteSucceedsOnlyOnCleanEnvelope | src/services/api/contactService.js:133-158 | a create/update returns a record only for a successful envelope whose results are present and all succeeded |
| ContactService.WriteOutcome | src/services/api/contactService.js:133-158 | a rejected call re-throws; an unsuccessful envelope throws its message; a failed entry throws its message or "Failed to create contact"; else the first successful entry is decoded; no entries throw "No contact created" (for `update`, lines 202-227, "Failed to update contact" and "Contact not updated") |
| ContactService.WriteReportsFirstFailure | src/services/api/contactService.js:141-145 | with a failed result, the thrown message is the first failure's message, or the default text |
| ContactService.DeleteOutcome | src/services/api/contactService.js:234-262 | delete never answers `false`: it answers `true` or throws |
| ContactService.DeleteSucceedsIff | src/services/api/contactService.js:242-257 | delete answers `true` exactly for a successful envelope with no failed result; absent `results` counts as success |
| LeadService.BuildPayload | src/services/api/leadService.js:86-111 | the in-place build and clean-up gives `WirePayload` |
| LeadService.WireRecord | src/services/api/leadService.js:86-104 | the literal before the clean-up: `Name` and the copied columns as `data[k] \|\| ''`, the status defaulting to 'New', the score as `parseInt` or `undefined`, and the assignee's `parseInt` of its `Id` or itself when truthy (entries in `WireRecordEntries`) |
| LeadService.WirePayload | src/services/api/leadService.js:86-111 | the record handed to the SDK: `WireRecord` with every `''`, `null` and `undefined` entry deleted, `Id` excepted on update (`BuildPayload` computes it; `Payload…` lemmas give its entries) |
| LeadService.WireRecordEntries | src/services/api/leadService.js:86-104 | before the clean-up, key by key, what the record holds |
| LeadService.PayloadNameAndCopies | src/services/api/leadService.js:87-93 | `Name` is present iff `name_c` is truthy and then equals it; each text column is present iff its input is truthy, and then equals it |
| LeadService.PayloadScore | src/services/api/leadService.js:95 | `lead_score_c` is `parseInt` of a given score (NaN survives the clean-up) and absent when the score is undefined, null or `''` |
| LeadService.PayloadAssignee | src/services/api/leadService.js:98-104 | `assigned_to_c` is `parseInt(v.Id \|\| v)` for a truthy input and absent otherwise |
| LeadService.PayloadStatus | src/services/api/leadService.js:94 | on create an empty status becomes `'New'`; on update it is removed |
| LeadService.PayloadId | src/services/api/leadService.js:149 | an update payload keeps `Id` equal to the argument, and a create payload has none |
| LeadService.AssigneeOfRecordOrId | src/services/api/leadService.js:99-103 | a lookup object and its bare id give the same assignee, for any id other than 0 below 10^21 in magnitude |
| LeadService.ListOutcome | src/services/api/leadService.js:11-49 | a rejected call re-throws; an unsuccessful envelope throws its message; no data gives `[]`; a list is returned undecoded |
| LeadService.ByIdOutcome | src/services/api/leadService.js:51-82 | succeeds exactly when data is truthy, returning it unchanged; otherwise throws the not-found message |
| LeadService.SearchParams | src/services/api/leadService.js:239-283 | an empty query is the `getAll` request; otherwise four lower-cased conditions and the raw phone condition |
| LeadService.WriteSucceedsIff | src/services/api/leadService.js:118-139 | a write succeeds exactly for a successful envelope with results, none failed and at least one, and returns the first result's data |
| LeadService.WriteOutcome | src/services/api/leadService.js:119-139 | a rejected call re-throws; an unsuccessful envelope throws its message; a failed entry throws its message or "Failed to create lead"; else the first successful entry's data; no entries throw "No lead created" ("Failed to update lead" and "Lead not updated" for `update`) |
| LeadService.WriteWithoutEntriesThrows | src/services/api/leadService.js:139 | a successful envelope without results, or with none, throws 'No lead created' / 'Lead not updated' |
| LeadService.WriteReportsFirstFailure | src/services/api/leadService.js:127-131 | with a failed result, the thrown message is the first failure's message, or the default text |
| LeadService.DeleteOutcome | src/services/api/leadService.js:209-237 | delete never answers `false` |
| LeadService.DeleteSucceedsIff | src/services/api/leadService.js:217-232 | delete answers `true` exactly for a successful envelope with no failed result; absent `results` counts as success |
| DealService.BuildPayload | src/services/api/dealService.js:95-114 | the in-place build and clean-up gives `WirePayload` |
| DealService.DealName | src/services/api/dealService.js:97 | `Name \|\| deal_name_c \|\| 'New Deal'` is always truthy, so every deal is sent with a name |
| DealService.LookupValue | src/services/api/dealService.js:103-105 | a falsy lookup is sent as `null`; a truthy one as the number `parseInt` gives, possibly `NaN` |
| DealService.WireRecord | src/services/api/dealService.js:95-106 | the record in `records[0]` before the clean-up: name, value, probability and lookups converted, the other columns copied as they are, and `parseInt(id)` as `Id` on update (entries in `WireRecordScalars`, `WireRawEntry`, `WireLookupEntry`, `WireRecordKeys`) |
| DealService.WirePayload | src/services/api/dealService.js:95-114 | the record handed to the SDK: `WireRecord` with every `null`, `undefined` and `''` entry deleted, `Id` excepted on update (`BuildPayload` computes it; `Payload…` lemmas give its entries) |
| DealService.WireRecordScalars | src/services/api/dealService.js:95-106 | before the clean-up, `Name` is the fallback name, value and probability are the parsed-or-0 numbers, and `Id` is `parseInt(id)` exactly on update |
| DealService.WireRawEntry | src/services/api/dealService.js:98-104 | before the clean-up, each raw column holds the input's value unchanged |
| DealService.WireLookupEntry | src/services/api/dealService.js:103-105 | before the clean-up, each lookup holds `parseInt` of a truthy input, and `null` otherwise |
| DealService.WireRecordKeys | src/services/api/dealService.js:95-106 | before the clean-up the record holds only the literal's ten columns |
| DealService.PayloadName | src/services/api/dealService.js:97 | `Name` is `Name \|\| deal_name_c \|\| 'New Deal'`, always present and never empty |
| DealService.PayloadValue | src/services/api/dealService.js:99 | the value is always present: `parseFloat` of a truthy input, else 0, and the 0 survives the clean-up |
| DealService.PayloadProbability | src/services/api/dealService.js:101 | the probability is always present: `parseInt` of a truthy input, else 0 |
| DealService.PayloadLookup | src/services/api/dealService.js:103-105 | a lookup is present iff its input is truthy, and then it is `parseInt` of the input |
| DealService.PayloadRaw | src/services/api/dealService.js:98-104 | a raw column is present iff it is not `''`/`null`/`undefined`, and then it is the input's value |
| DealService.PayloadId | src/services/api/dealService.js:160 | an update payload keeps `Id = parseInt(id)` through the clean-up; a create payload has none |
| DealService.LookupOfRecordIsNaN | src/services/api/dealService.js:103-105 | a numeric lookup (not 0, below 10^21 in magnitude) is sent as is; a lookup object becomes `NaN` |
| DealService.ListOutcome | src/services/api/dealService.js:5-44 | a rejected call or an unsuccessful envelope gives `[]`, otherwise `data \|\| []` |
| DealService.ByIdOutcome | src/services/api/dealService.js:46-85 | a rejected call or an unsuccessful envelope gives `null`, otherwise the data |
| DealService.SearchParams | src/services/api/dealService.js:254-283 | exactly two conditions, `deal_name_c` and `associated_company_c`, both on the query as typed; limit 100 and no empty-query shortcut |
| DealService.WriteOutcomeIff | src/services/api/dealService.js:118-142 | a write answers the first result's data exactly for a clean envelope, and `null` in every other case; it never throws |
| DealService.WriteOutcome | src/services/api/dealService.js:118-142 | `null` for a rejected call, an unsuccessful envelope, a failed entry or no entries; otherwise the first successful entry's data |
| DealService.DeleteOutcome | src/services/api/dealService.js:225-246 | `true` only for a successful envelope whose `results` are present with no failed entry; `false` otherwise, including absent `results` |
| DealService.DeleteSucceedsIff | src/services/api/dealService.js:214-252 | delete answers `true` exactly for a successful envelope whose results are present with no failure; absent `results` gives `false` |
| FormErrors.AfterEdit | src/components/molecules/ContactForm.jsx:84-86 | editing a field blanks that field's error if it had one and leaves every other error as it was |
| ContactForm.FromContact | src/components/molecules/ContactForm.jsx:34-54 | a given contact's fields are copied; a missing address or social media gets the all-empty default; missing tags become `[]` |
| ContactForm.ErrorMap | src/components/molecules/ContactForm.jsx:56-70 | each field has an error exactly when its check fails; a blank e-mail gets 'required' and never 'invalid'; no errors iff all checks pass |
| ContactForm.CollectErrors | src/components/molecules/ContactForm.jsx:56-70 | the step-by-step filling of `newErrors` gives `ErrorMap` |
| ContactForm.ValidationThrowsIff | src/components/molecules/ContactForm.jsx:59-65 | validation throws a TypeError exactly when a name or the e-mail is not a string |
| ContactForm.ValidIff | src/components/molecules/ContactForm.jsx:56-73 | valid iff both names are non-blank and the e-mail matches the pattern |
| ContactForm.EmailMessages | src/components/molecules/ContactForm.jsx:65-69 | a blank e-mail gets 'Email is required'; a non-blank, non-matching one gets 'Please enter a valid email address' |
| ContactForm.MatchingEmailNotBlank | src/components/molecules/ContactForm.jsx:65-69 | a matching e-mail is never blank, so the checks cannot both fire |
| ContactForm.Edited | src/components/molecules/ContactForm.jsx:83 | only the named field changes |
| ContactForm.EditedNested | src/components/molecules/ContactForm.jsx:89-94 | only `parent.field` changes; sibling nested fields and other top-level fields keep their values |
| ContactForm.ContactForm.constructor | src/components/molecules/ContactForm.jsx:8-32 | the form starts with the empty contact (nested address and social-media objects of empty strings, no tags) and no errors |
| ContactForm.ContactForm.LoadContact | src/components/molecules/ContactForm.jsx:34-54 | a truthy contact replaces the form data with `FromContact`; otherwise nothing changes |
| ContactForm.ValidationErrorsOf | src/components/molecules/ContactForm.jsx:56-70 | on string fields the checks give `ErrorMap` of blankness and the e-mail pattern |
| ContactForm.ValidationErrors | src/components/molecules/ContactForm.jsx:56-70 | `.trim()` of first name, last name or e-mail that is not a string throws a TypeError; otherwise the error map of the blank fields and of an e-mail failing the pattern |
| ContactForm.CheckAll | src/components/molecules/ContactForm.jsx:56-70 | the checks run in order give the validation outcome, a TypeError included |
| ContactForm.ContactForm.StoreErrors | src/components/molecules/ContactForm.jsx:71-72 | a thrown check leaves `errors` alone; otherwise `errors` becomes the found errors and the answer is whether there are none |
| ContactForm.ContactForm.ValidateForm | src/components/molecules/ContactForm.jsx:56-73 | `errors` becomes the validation errors, and the answer is true iff there are none |
| ContactForm.ContactForm.HandleSubmit | src/components/molecules/ContactForm.jsx:75-80 | the form data is submitted exactly when validation passes; `errors` becomes the new error map, or stays as it was when validation throws |
| ContactForm.ContactForm.UpdateFormData | src/components/molecules/ContactForm.jsx:82-87 | the form data becomes `Edited`, the errors `AfterEdit` |
| ContactForm.ContactForm.UpdateNestedData | src/components/molecules/ContactForm.jsx:89-94 | the form data becomes `EditedNested`; the errors are untouched |
| LeadForm.ScoreOf | src/components/molecules/LeadForm.jsx:50 | a `null`/`undefined` score shows as `''`; any other score, 0 included, is kept |
| LeadForm.AssigneeOf | src/components/molecules/LeadForm.jsx:51 | an assignee object shows its `Id`; a bare id is kept; nothing shows `''` |
| LeadForm.FromLead | src/components/molecules/LeadForm.jsx:40-54 | text columns are `value \|\| ''`; status defaults to 'New'; score and assignee as `ScoreOf`/`AssigneeOf`; no other keys |
| LeadForm.ErrorMap | src/components/molecules/LeadForm.jsx:56-75 | each field has an error exactly when its check fails, with the source's messages; no errors iff all checks pass |
| LeadForm.CollectErrors | src/components/molecules/LeadForm.jsx:56-75 | the step-by-step filling of `newErrors` gives `ErrorMap` |
| LeadForm.CheckScore | src/components/molecules/LeadForm.jsx:69-74 | a score is an error exactly when it is given and its `parseInt` is `NaN` or outside [0, 100] |
| LeadForm.ValidationThrowsIff | src/components/molecules/LeadForm.jsx:59-63 | validation throws exactly when name or e-mail is not a string |
| LeadForm.ValidIff | src/components/molecules/LeadForm.jsx:56-77 | valid iff the name is non-blank, the e-mail matches, and a given score parses into [0, 100] |
| LeadForm.ScoreCheck | src/components/molecules/LeadForm.jsx:69-74 | the text of an integer is rejected iff it lies outside [0, 100]; `''`, `null` and `undefined` are not checked |
| LeadForm.MatchingEmailNotBlank | src/components/molecules/LeadForm.jsx:63-67 | a matching e-mail is never blank |
| LeadForm.SubmitData | src/components/molecules/LeadForm.jsx:83-91 | `lead_score_c` is dropped iff it is `''`, `assigned_to_c` iff it is falsy; every other key is copied |
| LeadForm.LeadForm.constructor | src/components/molecules/LeadForm.jsx:10-22 | the form starts with empty fields, status 'New', and no errors |
| LeadForm.LeadForm.LoadLead | src/components/molecules/LeadForm.jsx:40-54 | a truthy lead replaces the form data with `FromLead` |
| LeadForm.ValidationErrorsOf | src/components/molecules/LeadForm.jsx:56-75 | on string fields the checks give `ErrorMap` of blankness, the e-mail pattern and the score check |
| LeadForm.ValidationErrors | src/components/molecules/LeadForm.jsx:56-75 | `.trim()` of a name or e-mail that is not a string throws a TypeError; otherwise the error map of a blank name, a blank or non-matching e-mail and a score out of 0-100 |
| LeadForm.CheckAll | src/components/molecules/LeadForm.jsx:56-75 | the checks run in order give the validation outcome, a TypeError included |
| LeadForm.LeadForm.StoreErrors | src/components/molecules/LeadForm.jsx:76-77 | a thrown check leaves `errors` alone; otherwise `errors` becomes the found errors and the answer is whether there are none |
| LeadForm.LeadForm.ValidateForm | src/components/molecules/LeadForm.jsx:56-78 | `errors` becomes the validation errors, and the answer is true iff there are none |
| LeadForm.LeadForm.HandleSubmit | src/components/molecules/LeadForm.jsx:80-95 | exactly when valid, the copy with keys deleted one by one is submitted, equal to `SubmitData`; `errors` becomes the new error map, or stays as it was when validation throws |
| LeadForm.LeadForm.HandleChange | src/components/molecules/LeadForm.jsx:97-102 | sets one field and clears only that field's error |
| DealForm.TextOrDefault | src/components/molecules/DealForm.jsx:47-53 | `v?.toString() \|\| fallback`: the text of a present value unless it is empty, else the fallback |
| DealForm.FromDeal | src/components/molecules/DealForm.jsx:42-56 | lookups become their `Id` text or `''`; stage defaults to 'Prospecting', probability to '0'; text columns `value \|\| ''` |
| DealForm.ErrorMap | src/components/molecules/DealForm.jsx:78-97 | each field has an error exactly when its check fails; no errors iff all pass |
| DealForm.CollectErrors | src/components/molecules/DealForm.jsx:78-97 | the step-by-step filling of `newErrors` gives `ErrorMap` |
| DealForm.CheckValue | src/components/molecules/DealForm.jsx:85-87 | the value check: an error when empty or when its `parseFloat` is negative |
| DealForm.CheckProbability | src/components/molecules/DealForm.jsx:93-96 | the probability check: an error unless `parseInt` lies in [0, 100] |
| DealForm.ValidationThrowsIff | src/components/molecules/DealForm.jsx:81 | validation throws exactly when the deal name is not a string |
| DealForm.ValidIff | src/components/molecules/DealForm.jsx:78-100 | valid iff the name is non-blank, the value is given and not negative, the stage is given, and the probability parses into [0, 100] |
| DealForm.NonNumericValuePasses | src/components/molecules/DealForm.jsx:85-87 | a non-numeric value such as "abc" passes the value check, since `NaN < 0` is false |
| DealForm.ProbabilityRoundTrip | src/components/molecules/DealForm.jsx:49 | a stored integer probability below 10^21 in magnitude loads as text that the probability check judges by that integer |
| DealForm.LookupRoundTrip | src/components/molecules/DealForm.jsx:51 | a stored lookup object with a positive id below 10^21 loads as the id's text, which the service sends back as the same id |
| DealForm.SubmitData | src/components/molecules/DealForm.jsx:109-112 | `Name` becomes `deal_name_c` when that is truthy, else the previous `Name`; every other key is copied |
| DealForm.SubmittedNameIsDealName | src/components/molecules/DealForm.jsx:109-112 | a submitted form with a deal name makes the service send that deal name as `Name` |
| DealForm.DealForm.constructor | src/components/molecules/DealForm.jsx:11-21 | the mode defaults to 'create' and the form starts with the initial data |
| DealForm.DealForm.LoadDeal | src/components/molecules/DealForm.jsx:42-56 | the form is filled only when a deal is given and the mode is 'edit' |
| DealForm.CheckAll | src/components/molecules/DealForm.jsx:78-97 | the checks run in order give the validation outcome, a TypeError included |
| DealForm.ValidationErrors | src/components/molecules/DealForm.jsx:78-97 | `.trim()` of a deal name that is not a string throws a TypeError; otherwise the error map of a blank name, a bad value, a missing stage and a probability out of 0-100 |
| DealForm.DealForm.StoreErrors | src/components/molecules/DealForm.jsx:98-99 | a thrown check leaves `errors` alone; otherwise `errors` becomes the found errors and the answer is whether there are none |
| DealForm.DealForm.ValidateForm | src/components/molecules/DealForm.jsx:78-100 | `errors` becomes the validation errors, and the answer is true iff there are none |
| DealForm.DealForm.HandleSubmit | src/components/molecules/DealForm.jsx:102-115 | exactly when valid, `SubmitData` is submitted; `errors` becomes the new error map, or stays as it was when validation throws |
| DealForm.DealForm.HandleChange | src/components/molecules/DealForm.jsx:117-122 | sets one field and clears only that field's error |
| Search.TextIncludesIgnoresCase | src/components/organisms/ContactGrid.jsx:40-47 | a lower-cased column match does not depend on the case of the term |
| Search.IncludesEdges | src/components/organisms/ContactGrid.jsx:40-49 | an absent column never matches; the empty term matches any string column |
| ContactGrid.Visible | src/components/organisms/ContactGrid.jsx:36-52 | an empty term shows all contacts; otherwise only matching contacts are shown |
| ContactGrid.Matches | src/components/organisms/ContactGrid.jsx:41-48 | a contact matches when the lower-cased term occurs in its lower-cased first name, last name, e-mail or company, or the term as typed in its phone (case-independence in `SearchIgnoresCase`) |
| ContactGrid.VisibleMembership | src/components/organisms/ContactGrid.jsx:40-49 | a contact is shown exactly when it is loaded and matches |
| ContactGrid.VisibleIsSubsequence | src/components/organisms/ContactGrid.jsx:36-52 | the shown list is an order-preserving subsequence of the loaded one |
| ContactGrid.SearchIgnoresCase | src/components/organisms/ContactGrid.jsx:41-48 | apart from the raw phone match, the case of the term does not matter |
| ContactGrid.ContactGrid.constructor | src/components/organisms/ContactGrid.jsx:12-16 | no contacts, nothing shown, loading, no error, empty search |
| ContactGrid.ContactGrid.Load | src/components/organisms/ContactGrid.jsx:18-30 | success sets both lists to the data and clears the error; failure sets the error; loading ends false |
| ContactGrid.ContactGrid.ApplySearch | src/components/organisms/ContactGrid.jsx:36-52 | the shown list becomes `Visible(contacts, searchTerm)` |
| ContactGrid.ContactGrid.HandleSearch | src/components/organisms/ContactGrid.jsx:65-67 | only the search term changes |
| ContactGrid.ContactGrid.HandleDelete | src/components/organisms/ContactGrid.jsx:54-63 | delete is called iff confirmed; a delete then reload that succeed replace both lists; a failed reload keeps both lists and shows its message; a failed delete keeps everything but the error |
| LeadGrid.Visible | src/components/organisms/LeadGrid.jsx:36-53 | an empty term shows all leads; otherwise only matching leads are shown |
| LeadGrid.Matches | src/components/organisms/LeadGrid.jsx:41-49 | a lead matches when the lower-cased term occurs in its lower-cased name, e-mail, company, job title or status, or the term as typed in its phone |
| LeadGrid.SearchThrows | src/components/organisms/LeadGrid.jsx:40-50 | with a non-empty term, a `null` or `undefined` entry makes the `filter` callback throw |
| LeadGrid.VisibleMembership | src/components/organisms/LeadGrid.jsx:40-50 | a lead is shown exactly when it is loaded and matches |
| LeadGrid.VisibleIsSubsequence | src/components/organisms/LeadGrid.jsx:36-53 | the shown list is an order-preserving subsequence of the loaded one |
| LeadGrid.NonObjectNeverMatches | src/components/organisms/LeadGrid.jsx:40-50 | a string, number, boolean or array entry never matches a search |
| LeadGrid.LeadGrid.constructor | src/components/organisms/LeadGrid.jsx:12-16 | no leads, nothing shown, loading, no error, empty search |
| LeadGrid.LeadGrid.Load | src/components/organisms/LeadGrid.jsx:18-30 | success sets both lists to the data; failure sets the error; loading ends false |
| LeadGrid.LeadGrid.ApplySearch | src/components/organisms/LeadGrid.jsx:36-53 | the effect throws exactly when `SearchThrows`, leaving the shown list as it was; otherwise the shown list becomes `Visible(leads, searchTerm)` |
| LeadGrid.LeadGrid.HandleSearch | src/components/organisms/LeadGrid.jsx:66-68 | only the search term changes |
| LeadGrid.LeadGrid.HandleDelete | src/components/organisms/LeadGrid.jsx:55-64 | delete is called iff confirmed; a delete then reload that succeed replace both lists; a failed reload keeps both lists and shows its message; a failed delete keeps everything but the error |
| DealGrid.Visible | src/components/organisms/DealGrid.jsx:23-34 | an empty term shows all deals; otherwise only matching deals are shown |
| DealGrid.Matches | src/components/organisms/DealGrid.jsx:25-29 | a deal matches when the lower-cased term occurs in its lower-cased deal name, `Name` or company |
| DealGrid.SearchThrows | src/components/organisms/DealGrid.jsx:25-29 | with a non-empty term, a `null` or `undefined` entry makes the `filter` callback throw |
| DealGrid.VisibleMembership | src/components/organisms/DealGrid.jsx:25-29 | a deal is shown exactly when it is loaded and its name, `Name` or company contains the term, ignoring case |
| DealGrid.VisibleIsSubsequence | src/components/organisms/DealGrid.jsx:23-34 | the shown list is an order-preserving subsequence of the loaded one |
| DealGrid.SearchIgnoresCase | src/components/organisms/DealGrid.jsx:25-29 | the case of the term does not matter |
| DealGrid.DealGrid.constructor | src/components/organisms/DealGrid.jsx:13-17 | no deals, nothing shown, loading, error `null`, empty search |
| DealGrid.DealGrid.Load | src/components/organisms/DealGrid.jsx:36-48 | both lists become the data, with no error and loading ended |
| DealGrid.DealGrid.ApplySearch | src/components/organisms/DealGrid.jsx:23-34 | the effect throws exactly when `SearchThrows`, leaving the shown list as it was; otherwise the shown list becomes `Visible(deals, searchTerm)` |
| DealGrid.DealGrid.HandleSearch | src/components/organisms/DealGrid.jsx:61-63 | only the search term changes |
| DealGrid.DealGrid.HandleDelete | src/components/organisms/DealGrid.jsx:50-59 | no call without confirmation; reload happens iff confirmed and delete answered true; otherwise nothing changes |
| ContactsPage.SubmitCall | src/components/pages/ContactsPage.jsx:45-53 | submit updates `selected.Id` exactly when a contact is selected, and creates otherwise |
| ContactsPage.SubmitToast | src/components/pages/ContactsPage.jsx:41-61 | the four success/failure messages for create and update |
| ContactsPage.ContactsPage.constructor | src/components/pages/ContactsPage.jsx:10-12 | the page starts on the list with no selection and not loading, which keeps `Valid()` |
| ContactsPage.ContactsPage.HandleCreate | src/components/pages/ContactsPage.jsx:14-17 | view 'create' with no selection |
| ContactsPage.ContactsPage.HandleEdit | src/components/pages/ContactsPage.jsx:19-22 | view 'edit' with the given contact selected |
| ContactsPage.ContactsPage.HandleView | src/components/pages/ContactsPage.jsx:24-27 | view 'detail' with the given contact selected |
| ContactsPage.ContactsPage.HandleDelete | src/components/pages/ContactsPage.jsx:29-39 | no call unless confirmed; success moves to the list, failure leaves the view |
| ContactsPage.ContactsPage.HandleFormSubmit | src/components/pages/ContactsPage.jsx:41-61 | calls `SubmitCall`; success moves to the list, failure leaves the view; loading ends false |
| ContactsPage.ContactsPage.HandleFormCancel | src/components/pages/ContactsPage.jsx:63-66 | back to the list, no selection |
| ContactsPage.ContactsPage.HandleBackToList | src/components/pages/ContactsPage.jsx:68-71 | back to the list, no selection |
| DealsPage.SubmitCall | src/components/pages/DealsPage.jsx:45-51 | create mode creates; otherwise updates `selected.Id`, and a missing selection throws a TypeError |
| DealsPage.DealsPage.constructor | src/components/pages/DealsPage.jsx:10-13 | the page starts on the grid with no selection, create mode and refresh counter 0, which keeps `Valid()` |
| DealsPage.DealsPage.HandleCreate | src/components/pages/DealsPage.jsx:15-19 | form view, create mode, no selection; the counter is unchanged |
| DealsPage.DealsPage.HandleEdit | src/components/pages/DealsPage.jsx:21-25 | form view, edit mode, the deal selected |
| DealsPage.DealsPage.HandleView | src/components/pages/DealsPage.jsx:27-30 | detail view with the deal selected |
| DealsPage.DealsPage.HandleDelete | src/components/pages/DealsPage.jsx:32-43 | no call unless confirmed; success moves to the grid, clears the selection and adds 1 to the counter; otherwise nothing changes |
| DealsPage.DealsPage.HandleFormSubmit | src/components/pages/DealsPage.jsx:45-58 | a truthy result moves to the grid, clears the selection and adds 1 to the counter; otherwise nothing changes |
| DealsPage.DealsPage.HandleFormCancel | src/components/pages/DealsPage.jsx:60-63 | grid view, no selection, the counter unchanged |
| DealsPage.DealsPage.HandleBackToList | src/components/pages/DealsPage.jsx:65-68 | grid view, no selection, the counter unchanged |
| ContactCard.PartInitial | src/components/molecules/ContactCard.jsx:7 | the first character of a non-empty string part, nothing for an absent or empty one, and a TypeError for any other value |
| ContactCard.Initials | src/components/molecules/ContactCard.jsx:6-8 | throws a TypeError exactly when a part is neither absent nor a string; otherwise at most two characters, none lower-case: both first letters upper-cased, and a missing or empty part contributes nothing |
| ContactCard.JoinEmpty | src/components/molecules/ContactCard.jsx:13 | joining with ", " gives "" only for no parts or one empty part |
| ContactCard.FormatPartsEmptyIff | src/components/molecules/ContactCard.jsx:10-14 | an address formats to "" exactly when it is falsy or none of its listed parts is truthy |
| ContactCard.FormatParts | src/components/molecules/ContactCard.jsx:10-14 | a falsy address formats as ""; otherwise its truthy parts, in the given order, joined by ", " (when that is empty: `FormatPartsEmptyIff`) |
| ContactCard.FormatAddress | src/components/molecules/ContactCard.jsx:10-14 | the card formats city, then state (`CityAndState`) |
| ContactCard.AddressShown | src/components/molecules/ContactCard.jsx:48 | the address row needs a truthy address whose formatted text is not empty (`AddressShownIff`) |
| ContactCard.CityAndState | src/components/molecules/ContactCard.jsx:12-13 | the line is "city, state", whichever one is non-empty, or "" |
| ContactCard.AddressShownIff | src/components/molecules/ContactCard.jsx:48 | the address row is shown exactly when city or state is non-empty |
| ContactDetail.AddressHiddenIff | src/components/molecules/ContactDetail.jsx:140 | the address section is hidden exactly when the address is falsy or all five parts are empty |
| ContactDetail.FormatFullAddress | src/components/molecules/ContactDetail.jsx:9-19 | the detail view formats street, city, state, zip code and country (`AllPartsGiven`) |
| ContactDetail.AddressSectionShown | src/components/molecules/ContactDetail.jsx:140 | the address section needs a truthy address whose formatted text is not empty (`AddressHiddenIff`) |
| ContactDetail.SocialSectionShown | src/components/molecules/ContactDetail.jsx:157 | the social section needs a truthy object with some truthy own value |
| ContactDetail.SocialSectionShownIff | src/components/molecules/ContactDetail.jsx:157 | for the form's four string links, the social section is shown exactly when one link is not empty |
| ContactDetail.AllPartsGiven | src/components/molecules/ContactDetail.jsx:9-19 | with every part given, the line is the parts in order street, city, state, zip code, country joined by ", " |
| ContactDetail.EmptyFormShowsNothing | src/components/molecules/ContactDetail.jsx:140-157 | the form's all-empty address and social defaults show neither section |
| ContactDetail.DecodedContactHasNoInitials | src/components/molecules/ContactDetail.jsx:5-7 | a contact decoded from the service has no `firstName`/`lastName`, so its initials are empty |
| LeadCard.StatusColor | src/components/molecules/LeadCard.jsx:7-16 | the five known statuses get their colour; any other or missing status gets gray |
| LeadCard.MissingStatusLabelAndColour | src/components/molecules/LeadCard.jsx:42 | a missing status is labelled 'New' but coloured gray, while a stored 'New' is not gray |
| LeadCard.StatusLabel | src/components/molecules/LeadCard.jsx:42 | the badge text is always truthy: a truthy status as it is, otherwise 'New' |
| LeadCard.NumberOf | src/components/molecules/LeadCard.jsx:18-22 | the number a `>=` comparison sees: numbers as they are, `null` as 0, `undefined` and `NaN` as none |
| LeadCard.ScoreColor | src/components/molecules/LeadCard.jsx:18-22 | green at 75 and above, yellow from 50 below 75, gray below 50 or when not a number |
| LeadCard.ScoreColorMonotone | src/components/molecules/LeadCard.jsx:18-22 | a higher score never gets a lower colour |
| LeadCard.ZeroScoreShown | src/components/molecules/LeadCard.jsx:80-83 | a score of 0 is shown, in gray; a `null` or `undefined` score is not shown |
| LeadCard.ScoreShown | src/components/molecules/LeadCard.jsx:80 | the score is shown unless it is `null` or `undefined`; 0 and `''` are shown (`ZeroScoreShown`) |
| LeadCard.SourceIcon | src/components/molecules/LeadCard.jsx:24-31 | the three known sources get their icon; anything else 'HelpCircle' |

## Left out

- Network I/O. The table-service calls (`fetchRecords`, `getRecordById`,
  `createRecord`, `updateRecord`, `deleteRecord`) and client set-up are
  inputs: each call's answer or rejection is a parameter.
- JSON. `JSON.stringify`/`JSON.parse` are opaque parameters, with parse
  allowed to fail.
- `window.confirm` is a boolean parameter.
- `toast` and `console.error` are left out. The contact page's toast text
  is returned as a value.
- Asynchronous interleaving is not modelled. That covers double submits,
  effects racing loads and React's batching of state updates. Each handler
  runs to completion with the service answers given.
- The grids' search effect is a separate `ApplySearch` method. It is not
  run automatically after `Load`/`HandleSearch`.
- Loading the option lists for the lead and deal forms is left out. It is
  display-only I/O.
- Rendering, routing, date/number formatting and the files with no other
  logic are left out. DealCard, DealDetail, LeadDetail, the user service,
  the layout, the remaining pages and the UI atoms are not part of this
  model.
- Js.ParseFloat: exponents, `Infinity` and the precision of floating
  point are not modelled, because they are floating-point numerics.
  Decimal text parses to an exact real.
- LeadCard.NumberOf: hexadecimal, exponent and `Infinity` strings count as
  not a number (gray), where JavaScript's `Number` would convert them.
- Search.TextIncludes: a column whose value is not a string counts as not
  matching. JavaScript would throw when calling `toLowerCase` on a number.
- JsText.Lower: case mapping is ASCII only. Unicode case folding is not
  modelled.
- JsText.Upper: upper-casing is ASCII only. So `ContactCard.Initials`'s
  bound of two characters holds for this mapping; JavaScript's `"ß".toUpperCase()`
  is `"SS"`, which would give more.
- Js.NumberToString: only the plain notation is modelled. JavaScript writes
  magnitudes from 10^21 up, and non-zero ones below 10^-6, in exponent form
  (`String(1e21)` is `"1e+21"`, so `parseInt(1e21)` is 1). The rounding of
  integers above 2^53 to doubles is not modelled either. The integer
  round-trip lemmas (`Js.ParseIntOfInteger`, `Js.IntegerText`,
  `LeadService.AssigneeOfRecordOrId`, `DealService.LookupOfRecordIsNaN`,
  `DealForm.ProbabilityRoundTrip`, `DealForm.LookupRoundTrip`) are stated
  below 10^21 in magnitude only.
- The colour tables are plain maps. The keys that objects inherit from
  their prototype (such as `toString`) are not modelled.
- ContactDetail.SocialSectionShown: only a plain object's own values are
  read. `Object.values` of a string or array is not modelled.
- The grids' `Load` takes the list as a sequence. A service answer that is
  not an array is not modelled.
