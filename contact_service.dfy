/**
  The contact service (table `contact_c`): the payload `create` and `update`
  send, the decoding of the two JSON-text columns on every read, and how the
  response envelopes turn into a value or a thrown error. Every failure is
  re-thrown to the caller.
 */
module ContactService {
  import opened Wrappers
  import opened Js
  import opened JsText
  import opened Sdk
  import Payload
  import Seqs

  const Table := "contact_c"

  /** The columns every read asks for. */
  const Fields: seq<string> := [
    "Id", "Name", "first_name_c", "last_name_c", "email_c", "phone_c", "company_c",
    "job_title_c", "address_c", "social_media_c", "notes_c", "tags_c", "CreatedOn", "ModifiedOn"]

  /** The columns copied into a write payload as `data[k] || ''`. */
  const CopiedFields: seq<string> := [
    "first_name_c", "last_name_c", "email_c", "phone_c", "company_c", "job_title_c", "notes_c", "tags_c"]

  /** The columns holding a nested object serialised as JSON text. */
  const NestedFields: seq<string> := ["address_c", "social_media_c"]

  // ---------------------------------------------------------------------------
  // Encoding
  // ---------------------------------------------------------------------------

  /** `${data.first_name_c || ''} ${data.last_name_c || ''}`.trim() */
  function DisplayName(data: Record): string {
    Trim(ToString(Or(Get(data, "first_name_c"), Str(""))) + " " + ToString(Or(Get(data, "last_name_c"), Str(""))))
  }

  /** The object literal both writes start from: `Name`, and every copied
      column as `data[k] || ''`. */
  function BaseRecord(data: Record): Record {
    CopiedRecord(data)["Name" := Str(DisplayName(data))]
  }

  /** The copied columns of the literal, each as `data[k] || ''`. */
  function CopiedRecord(data: Record): (r: Record)
    ensures forall k :: k in r <==> k in CopiedFields
    ensures forall k :: k in r ==> r[k] == Or(Get(data, k), Str(""))
  {
    map k | k in CopiedFields :: Or(Get(data, k), Str(""))
  }

  /** A nested object as the payload carries it: its JSON text when it is
      truthy; otherwise the literal has no such entry. */
  function WithNested(r: Record, k: string, data: Record, json: Json): Record {
    if Truthy(Get(data, k)) then r[k := Str(json.stringify(Get(data, k)))] else r
  }

  /** The record `create` (no `id`) or `update` (with `id`) builds before the clean-up. */
  function WireRecord(data: Record, id: Option<JsValue>, json: Json): Record {
    var withId := if id.Some? then BaseRecord(data)["Id" := id.value] else BaseRecord(data);
    WithNested(WithNested(withId, "address_c", data, json), "social_media_c", data, json)
  }

  /** The record sent to `createRecord` (id `None`) or `updateRecord`. */
  function WirePayload(data: Record, id: Option<JsValue>, json: Json): Record {
    Payload.Pruned(WireRecord(data, id, json), id.Some?)
  }

  /** `create`/`update` up to the SDK call: build the record, add the
      serialised nested objects, then delete the empty entries in place. */
  method BuildPayload(data: Record, id: Option<JsValue>, json: Json) returns (payload: Record)
    ensures payload == WirePayload(data, id, json)
  {
    var record := BaseRecord(data);
    if id.Some? {
      record := record["Id" := id.value];
    }
    if Truthy(Get(data, "address_c")) {
      record := record["address_c" := Str(json.stringify(Get(data, "address_c")))];
    }
    if Truthy(Get(data, "social_media_c")) {
      record := record["social_media_c" := Str(json.stringify(Get(data, "social_media_c")))];
    }
    payload := Payload.PruneEmpty(record, id.Some?);
  }

  /** The keys the literal writes are pairwise distinct. */
  lemma KeysDistinct()
    ensures "Name" !in CopiedFields && "Id" !in CopiedFields && "Id" != "Name"
    ensures forall k :: k in NestedFields ==> k !in CopiedFields && k != "Name" && k != "Id"
    ensures "address_c" != "social_media_c"
  {
  }

  /** The record before the clean-up: `Name` is the derived name, and `Id`
      is there exactly on update. */
  lemma WireScalars(data: Record, id: Option<JsValue>, json: Json)
    ensures var w := WireRecord(data, id, json);
      && "Name" in w && w["Name"] == Str(DisplayName(data))
      && ("Id" in w <==> id.Some?)
      && (id.Some? ==> w["Id"] == id.value)
  {
    KeysDistinct();
    var i := if id.Some? then BaseRecord(data)["Id" := id.value] else BaseRecord(data);
    WithNestedEntries(i, "address_c", data, json);
    WithNestedEntries(WithNested(i, "address_c", data, json), "social_media_c", data, json);
  }

  /** The record before the clean-up holds a copied column as `data[k] || ''`. */
  lemma WireCopiedEntry(data: Record, id: Option<JsValue>, json: Json, k: string)
    requires k in CopiedFields
    ensures var w := WireRecord(data, id, json); k in w && w[k] == Or(Get(data, k), Str(""))
  {
    KeysDistinct();
    var b := BaseRecord(data);
    assert k in b && b[k] == Or(Get(data, k), Str(""));
    var i := if id.Some? then b["Id" := id.value] else b;
    WithNestedEntries(i, "address_c", data, json);
    WithNestedEntries(WithNested(i, "address_c", data, json), "social_media_c", data, json);
  }

  /** The record before the clean-up holds a nested column, as its JSON text,
      exactly when the input is truthy. */
  lemma WireNestedEntry(data: Record, id: Option<JsValue>, json: Json, k: string)
    requires k in NestedFields
    ensures var w := WireRecord(data, id, json);
      && (k in w <==> Truthy(Get(data, k)))
      && (k in w ==> w[k] == Str(json.stringify(data[k])))
  {
    KeysDistinct();
    var b := BaseRecord(data);
    assert k !in b;
    var i := if id.Some? then b["Id" := id.value] else b;
    WithNestedEntries(i, "address_c", data, json);
    WithNestedEntries(WithNested(i, "address_c", data, json), "social_media_c", data, json);
  }

  /** The record before the clean-up has only the literal's keys. */
  lemma WireKeys(data: Record, id: Option<JsValue>, json: Json)
    ensures forall k :: k in WireRecord(data, id, json) ==>
              k == "Name" || k == "Id" || k in CopiedFields || k in NestedFields
  {
    var i := if id.Some? then BaseRecord(data)["Id" := id.value] else BaseRecord(data);
    WithNestedEntries(i, "address_c", data, json);
    WithNestedEntries(WithNested(i, "address_c", data, json), "social_media_c", data, json);
  }

  /** Adding a nested column commutes with removing another key. */
  lemma WithNestedWithout(r: Record, k: string, j: string, data: Record, json: Json)
    requires j != k
    ensures WithNested(r, k, data, json) - {j} == WithNested(r - {j}, k, data, json)
  {
  }

  /** Adding one nested column touches no other key. */
  lemma WithNestedEntries(r: Record, k: string, data: Record, json: Json)
    ensures var w := WithNested(r, k, data, json);
      && (k in w <==> k in r || Truthy(Get(data, k)))
      && (Truthy(Get(data, k)) ==> w[k] == Str(json.stringify(data[k])))
      && (forall j :: j != k ==> (j in w <==> j in r))
      && (forall j :: j != k && j in r ==> w[j] == r[j])
  {
  }

  /** A create payload holds `Name` exactly when the derived name is not
      empty, and then that name. */
  lemma {:induction false} CreatePayloadName(data: Record, json: Json)
    ensures var p := WirePayload(data, None, json);
      && ("Name" in p <==> DisplayName(data) != "")
      && ("Name" in p ==> p["Name"] == Str(DisplayName(data)))
  {
    WireScalars(data, None, json);
    Payload.PrunedAt(WireRecord(data, None, json), false, "Name");
  }

  /** A create payload holds each copied column exactly when the input's
      value is truthy, and then that value. */
  lemma {:induction false} CreatePayloadCopied(data: Record, json: Json)
    ensures var p := WirePayload(data, None, json);
      && (forall k :: k in CopiedFields ==> (k in p <==> Truthy(Get(data, k))))
      && (forall k :: k in CopiedFields && k in p ==> p[k] == data[k])
  {
    var w := WireRecord(data, None, json);
    var p := WirePayload(data, None, json);
    forall k | k in CopiedFields
      ensures (k in p <==> Truthy(Get(data, k))) && (k in p ==> p[k] == data[k])
    {
      WireCopiedEntry(data, None, json, k);
      Payload.PrunedAt(w, false, k);
      Payload.OrEmptyKept(Get(data, k));
    }
  }

  /** A create payload holds each nested column exactly when the input is
      truthy and serialises to non-empty text, and then that text. */
  lemma {:induction false} CreatePayloadNested(data: Record, json: Json)
    ensures var p := WirePayload(data, None, json);
      && (forall k :: k in NestedFields ==> (k in p <==> Truthy(Get(data, k)) && json.stringify(Get(data, k)) != ""))
      && (forall k :: k in NestedFields && k in p ==> p[k] == Str(json.stringify(data[k])))
  {
    var w := WireRecord(data, None, json);
    var p := WirePayload(data, None, json);
    forall k | k in NestedFields
      ensures (k in p <==> Truthy(Get(data, k)) && json.stringify(Get(data, k)) != "")
      ensures k in p ==> p[k] == Str(json.stringify(data[k]))
    {
      WireNestedEntry(data, None, json, k);
      Payload.PrunedAt(w, false, k);
    }
  }

  /** A create payload holds nothing but `Name`, the copied and the nested
      columns, and no empty value. */
  lemma {:induction false} CreatePayloadKeys(data: Record, json: Json)
    ensures var p := WirePayload(data, None, json);
      && (forall k :: k in p ==> k == "Name" || k in CopiedFields || k in NestedFields)
      && (forall k :: k in p ==> !Payload.IsEmptyValue(p[k]))
  {
    WireKeys(data, None, json);
    WireScalars(data, None, json);
  }

  /** An update payload is the create payload for the same input plus `Id`,
      which is always present and equal to the `id` argument, even when that
      argument is empty. */
  lemma {:induction false} UpdatePayloadIsCreatePlusId(id: JsValue, data: Record, json: Json)
    ensures var p := WirePayload(data, Some(id), json);
      && "Id" in p && p["Id"] == id
      && p - {"Id"} == WirePayload(data, None, json)
  {
    var b := BaseRecord(data);
    KeysDistinct();
    assert "Id" !in b;
    assert b["Id" := id] - {"Id"} == b;
    WithNestedWithout(b["Id" := id], "address_c", "Id", data, json);
    WithNestedWithout(WithNested(b["Id" := id], "address_c", data, json), "social_media_c", "Id", data, json);
    Payload.PrunedWithoutId(WireRecord(data, Some(id), json));
    WireScalars(data, Some(id), json);
  }

  /** A string with no white space at either end. */
  predicate Trimmed(s: string) {
    s == [] || (!IsSpace(s[0]) && !IsSpace(s[|s| - 1]))
  }

  /** For names without surrounding white space, the derived name is the two
      names joined by one space, or just the one that is not empty: "Ada" and
      "Lovelace" give "Ada Lovelace", and an empty first name gives just the
      last name. */
  lemma NameOfTrimmedParts(data: Record, first: string, last: string)
    requires Get(data, "first_name_c") == Str(first) && Get(data, "last_name_c") == Str(last)
    requires Trimmed(first) && Trimmed(last)
    ensures DisplayName(data) == if first == "" then last else if last == "" then first else first + " " + last
  {
    var joined := first + " " + last;
    var name := if first == "" then last else if last == "" then first else joined;
    assert Trim(joined) == name by {
      if first == "" {
        assert joined == " " + last;
        TrimOfSpaceThen(last);
      } else if last == "" {
        assert joined == first + " ";
        TrimOfThenSpace(first);
      } else {
        TrimOfJoined(first, last);
      }
    }
    assert DisplayName(data) == Trim(joined) by {
      assert ToString(Or(Str(first), Str(""))) == first;
      assert ToString(Or(Str(last), Str(""))) == last;
    }
  }

  /** " " + last trims to last. */
  lemma TrimOfSpaceThen(last: string)
    requires Trimmed(last)
    ensures Trim(" " + last) == last
  {
    var s := " " + last;
    assert TrimStart(s) == last by {
      assert s[0] == ' ' && s[1..] == last;
      TrimStartTrimmed(last);
    }
    TrimEndTrimmed(last);
  }

  /** first + " " trims to first. */
  lemma TrimOfThenSpace(first: string)
    requires Trimmed(first) && first != ""
    ensures Trim(first + " ") == first
  {
    var s := first + " ";
    assert s[0] == first[0];
    TrimStartKeeps(s);
    assert s[..|s| - 1] == first;
    TrimEndDrops(s);
    TrimEndTrimmed(first);
  }

  /** first + " " + last is already trimmed when both parts are non-empty. */
  lemma TrimOfJoined(first: string, last: string)
    requires Trimmed(first) && Trimmed(last) && first != "" && last != ""
    ensures Trim(first + " " + last) == first + " " + last
  {
    var s := first + " " + last;
    assert s[0] == first[0];
    TrimStartKeeps(s);
    assert s[|s| - 1] == last[|last| - 1];
    TrimEndKeeps(s);
  }

  lemma TrimStartKeeps(s: string)
    requires s != [] && !IsSpace(s[0])
    ensures TrimStart(s) == s
  {
  }

  lemma TrimEndKeeps(s: string)
    requires s != [] && !IsSpace(s[|s| - 1])
    ensures TrimEnd(s) == s
  {
  }

  lemma TrimEndDrops(s: string)
    requires s != [] && s[|s| - 1] == ' '
    ensures TrimEnd(s) == TrimEnd(s[..|s| - 1])
  {
  }

  lemma TrimStartTrimmed(s: string)
    requires Trimmed(s)
    ensures TrimStart(s) == s
  {
  }

  lemma TrimEndTrimmed(s: string)
    requires Trimmed(s)
    ensures TrimEnd(s) == s
  {
  }

  // ---------------------------------------------------------------------------
  // Decoding
  // ---------------------------------------------------------------------------

  /** `v ? JSON.parse(v) : null`; a parse error propagates. */
  function DecodeNested(v: JsValue, json: Json): (r: Result<JsValue, Exception>)
    ensures !Truthy(v) ==> r == Success(Null)
    ensures Truthy(v) && json.parse(ToString(v)).Some? ==> r == Success(json.parse(ToString(v)).value)
    ensures Truthy(v) && json.parse(ToString(v)).None? ==> r == Failure(SyntaxErrorThrown)
  {
    if !Truthy(v) then Success(Null)
    else match json.parse(ToString(v))
      case Some(x) => Success(x)
      case None => Failure(SyntaxErrorThrown)
  }

  /** `{...contact, address_c: <decoded>, social_media_c: <decoded>}`. Reading a
      property of `undefined`/`null` throws. */
  function DecodeContact(v: JsValue, json: Json): (r: Result<Record, Exception>)
  {
    if Nullish(v) then Failure(TypeErrorThrown)
    else
      var fields := OwnProps(v);
      match DecodeNested(Get(fields, "address_c"), json)
      case Failure(e) => Failure(e)
      case Success(address) =>
        match DecodeNested(Get(fields, "social_media_c"), json)
        case Failure(e) => Failure(e)
        case Success(social) => Success(fields["address_c" := address]["social_media_c" := social])
  }

  /** Decoding an object keeps every other column as it is, and replaces each
      nested column by `null` when it is falsy or by its parsed value; it fails
      exactly when a truthy nested column does not parse. */
  lemma DecodeContactFields(f: Record, json: Json)
    ensures var r := DecodeContact(Obj(f), json);
      && (r.Success? <==> forall k :: k in NestedFields && Truthy(Get(f, k)) ==> json.parse(ToString(f[k])).Some?)
      && (r.Success? ==>
            && r.value.Keys == f.Keys + {"address_c", "social_media_c"}
            && (forall k :: k in f && k !in NestedFields ==> r.value[k] == f[k])
            && (forall k :: k in NestedFields && !Truthy(Get(f, k)) ==> r.value[k] == Null)
            && (forall k :: k in NestedFields && Truthy(Get(f, k)) ==> r.value[k] == json.parse(ToString(f[k])).value))
  {
  }

  /** `response.data.map(decode)`: all decoded, or the first failure. */
  function DecodeAll(items: seq<JsValue>, json: Json): (r: Result<seq<Record>, Exception>)
    ensures r.Success? ==> |r.value| == |items|
    ensures r.Success? ==> forall i :: 0 <= i < |items| ==> DecodeContact(items[i], json) == Success(r.value[i])
    ensures r.Success? <==> forall i :: 0 <= i < |items| ==> DecodeContact(items[i], json).Success?
  {
    if items == [] then Success([])
    else match DecodeContact(items[0], json)
      case Failure(e) => Failure(e)
      case Success(first) =>
        match DecodeAll(items[1..], json)
        case Failure(e) => Failure(e)
        case Success(rest) =>
          assert forall i :: 1 <= i < |items| ==> items[i] == items[1..][i - 1];
          Success([first] + rest)
  }

  // ---------------------------------------------------------------------------
  // Reads
  // ---------------------------------------------------------------------------

  /** The parameters of `getAll`: every column, newest change first, 1000 rows. */
  const AllParams := FetchParams(Fields, [], 1000)

  /** `getAll` (and `searchContacts` once its request is sent): an unsuccessful
      envelope throws its message; no rows give `[]`; otherwise every row is
      decoded, and one malformed nested column fails the whole call. */
  function ListOutcome(call: Call<FetchResponse>, json: Json): (r: Result<seq<Record>, Exception>)
    ensures call.Rejected? ==> r == Failure(call.error)
    ensures call.Resolved? && !call.response.success ==> r == Failure(NewError(call.response.message))
    ensures call.Resolved? && call.response.success && !Truthy(LengthOf(call.response.data)) ==> r == Success([])
    ensures call.Resolved? && call.response.success && call.response.data.Arr? ==>
              r == DecodeAll(call.response.data.items, json)
  {
    match call
    case Rejected(e) => Failure(e)
    case Resolved(resp) =>
      if !resp.success then Failure(NewError(resp.message))
      else if !Truthy(LengthOf(resp.data)) then Success([])
      else match resp.data
        case Arr(items) => DecodeAll(items, json)
        case _ => Failure(TypeErrorThrown)
  }

  /** `getById(id)`: no `data` throws "Contact with Id <id> not found" (the
      envelope's `success` flag is not consulted); otherwise the record is decoded. */
  function ByIdOutcome(id: JsValue, call: Call<FetchResponse>, json: Json): (r: Result<Record, Exception>)
    ensures call.Rejected? ==> r == Failure(call.error)
    ensures call.Resolved? && !Truthy(call.response.data) ==>
              r == Failure(Exception(Error, "Contact with Id " + ToString(id) + " not found"))
    ensures call.Resolved? && call.response.data.Obj? ==> r == DecodeContact(call.response.data, json)
  {
    match call
    case Rejected(e) => Failure(e)
    case Resolved(resp) =>
      if !Truthy(resp.data) then Failure(Exception(Error, "Contact with Id " + ToString(id) + " not found"))
      else DecodeContact(resp.data, json)
  }

  /** `searchContacts(query)`: an empty query sends exactly the `getAll` request;
      otherwise first name, last name, email and company are matched against
      the lower-cased query and phone against the query as typed. */
  function SearchParams(query: string): (p: FetchParams)
    ensures query == "" ==> p == AllParams
    ensures query != "" ==> p.fields == Fields && p.limit == 1000
    ensures query != "" ==> p.conditions == [
              Contains("first_name_c", [Lower(query)]), Contains("last_name_c", [Lower(query)]),
              Contains("email_c", [Lower(query)]), Contains("company_c", [Lower(query)]),
              Contains("phone_c", [query])]
  {
    if query == "" then AllParams
    else
      var term := Lower(query);
      FetchParams(Fields, [Contains("first_name_c", [term]), Contains("last_name_c", [term]),
                           Contains("email_c", [term]), Contains("company_c", [term]),
                           Contains("phone_c", [query])], 1000)
  }

  // ---------------------------------------------------------------------------
  // Writes
  // ---------------------------------------------------------------------------

  datatype WriteKind = Create | Update

  function FailureText(kind: WriteKind): string {
    if kind == Create then "Failed to create contact" else "Failed to update contact"
  }

  function NothingText(kind: WriteKind): string {
    if kind == Create then "No contact created" else "Contact not updated"
  }

  /** How `create`/`update` read the envelope: an unsuccessful envelope throws
      its message; a failed entry throws the first failed entry's message, or
      the default text when that message is falsy; otherwise the first
      successful entry is decoded; with no entries (or no `results`) the call
      throws "No contact created" / "Contact not updated". */
  function WriteOutcome(kind: WriteKind, call: Call<WriteResponse>, json: Json): (r: Result<Record, Exception>)
  {
    match call
    case Rejected(e) => Failure(e)
    case Resolved(resp) =>
      if !resp.success then Failure(NewError(resp.message))
      else if resp.results.None? then Failure(Exception(Error, NothingText(kind)))
      else
        var failed := Failed(resp.results.value);
        var successful := Successful(resp.results.value);
        if |failed| > 0 then Failure(NewError(Or(failed[0].message, Str(FailureText(kind)))))
        else if |successful| > 0 then DecodeContact(successful[0].data, json)
        else Failure(Exception(Error, NothingText(kind)))
  }

  /** A write returns a record only when the envelope succeeded, `results` is
      present, no entry failed, and there is an entry; the record is then the
      decoding of the first entry's data. */
  lemma WriteSucceedsOnlyOnCleanEnvelope(kind: WriteKind, call: Call<WriteResponse>, json: Json)
    requires WriteOutcome(kind, call, json).Success?
    ensures call.Resolved? && call.response.success && call.response.results.Some?
    ensures var rs := call.response.results.value;
      && |rs| > 0
      && (forall i :: 0 <= i < |rs| ==> rs[i].success)
      && WriteOutcome(kind, call, json) == DecodeContact(rs[0].data, json)
  {
    var rs := call.response.results.value;
    NoFailures(rs);
  }

  /** A failed entry makes the write throw the message of the earliest failed
      entry, or the default text when that message is falsy. */
  lemma WriteReportsFirstFailure(kind: WriteKind, resp: WriteResponse, json: Json, i: nat)
    requires resp.success && resp.results.Some?
    requires i < |resp.results.value| && !resp.results.value[i].success
    requires forall j :: 0 <= j < i ==> resp.results.value[j].success
    ensures WriteOutcome(kind, Resolved(resp), json)
            == Failure(NewError(Or(resp.results.value[i].message, Str(FailureText(kind)))))
  {
    var rs := resp.results.value;
    assert rs[i] in rs;
    Seqs.FilterMembership(rs, IsFailed, rs[i]);
    FirstFailure(rs);
    var j :| 0 <= j < |rs| && rs[j] == Failed(rs)[0] && !rs[j].success
             && forall m :: 0 <= m < j ==> rs[m].success;
    assert j == i;
  }

  /** `delete(id)`: true when the envelope succeeded and no entry failed;
      an absent `results` counts as success. Every other case throws. */
  function DeleteOutcome(call: Call<WriteResponse>): (r: Result<bool, Exception>)
    ensures r.Success? ==> r.value
  {
    match call
    case Rejected(e) => Failure(e)
    case Resolved(resp) =>
      if !resp.success then Failure(NewError(resp.message))
      else if resp.results.Some? && |Failed(resp.results.value)| > 0 then
        Failure(NewError(Or(Failed(resp.results.value)[0].message, Str("Failed to delete contact"))))
      else Success(true)
  }

  /** `delete` answers true exactly when the call resolved, the envelope
      succeeded, and either `results` is absent or every entry succeeded. */
  lemma DeleteSucceedsIff(call: Call<WriteResponse>)
    ensures DeleteOutcome(call) == Success(true) <==>
      && call.Resolved? && call.response.success
      && (call.response.results.None? || forall i :: 0 <= i < |call.response.results.value| ==> call.response.results.value[i].success)
  {
    if call.Resolved? && call.response.results.Some? {
      NoFailures(call.response.results.value);
    }
  }
}
