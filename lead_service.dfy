/**
  The lead service (table `leads_c`): the payload `create` and `update` send
  (the `Name` copy, the integer score and assignee, the status default), and
  how the response envelopes turn into a value or a thrown error. Reads hand
  the rows back undecoded. Every failure is re-thrown to the caller.
 */
module LeadService {
  import opened Wrappers
  import opened Js
  import opened JsText
  import opened Sdk
  import Payload
  import Seqs

  const Table := "leads_c"

  /** The columns every read asks for. */
  const Fields: seq<string> := [
    "Id", "Name", "name_c", "email_c", "phone_c", "company_c", "job_title_c", "lead_source_c",
    "lead_status_c", "lead_score_c", "assigned_to_c", "CreatedOn", "ModifiedOn"]

  /** The columns copied into a write payload as `data[k] || ''`. */
  const CopiedFields: seq<string> := ["name_c", "email_c", "phone_c", "company_c", "job_title_c", "lead_source_c"]

  // ---------------------------------------------------------------------------
  // Encoding
  // ---------------------------------------------------------------------------

  /** The score as sent: `parseInt` of the input unless it is undefined, null
      or '', in which case it is `undefined` (and pruned). */
  function ScoreValue(v: JsValue): JsValue {
    if v.Undefined? || v.Null? || v == Str("") then Undefined else ParseIntNumber(v)
  }

  /** The assignee as sent, when sent: a truthy input is reduced to its `Id`
      (or taken as it is when it has none) and passed through `parseInt`. */
  function AssigneeValue(v: JsValue): Option<JsValue> {
    if Truthy(v) then
      var id := Or(IdOf(v), v);
      if Truthy(id) then Some(ParseIntNumber(id)) else None
    else None
  }

  /** The status as sent: on create an empty status becomes 'New', on update ''. */
  function StatusValue(v: JsValue, id: Option<JsValue>): JsValue {
    Or(v, Str(if id.None? then "New" else ""))
  }

  /** The object literal of `create` (id `None`) or `update`, before the assignee. */
  function BaseRecord(data: Record, id: Option<JsValue>): Record {
    (map k | k in CopiedFields :: Or(Get(data, k), Str("")))
      ["Name" := Or(Get(data, "name_c"), Str(""))]
      ["lead_status_c" := StatusValue(Get(data, "lead_status_c"), id)]
      ["lead_score_c" := ScoreValue(Get(data, "lead_score_c"))]
  }

  /** The record built before the clean-up. */
  function WireRecord(data: Record, id: Option<JsValue>): Record {
    var withId := if id.Some? then BaseRecord(data, id)["Id" := id.value] else BaseRecord(data, id);
    match AssigneeValue(Get(data, "assigned_to_c"))
    case Some(a) => withId["assigned_to_c" := a]
    case None => withId
  }

  /** The record sent to `createRecord` (id `None`) or `updateRecord`. */
  function WirePayload(data: Record, id: Option<JsValue>): Record {
    Payload.Pruned(WireRecord(data, id), id.Some?)
  }

  /** `create`/`update` up to the SDK call: build the record, add the assignee
      by mutation, then delete the empty entries in place. */
  method BuildPayload(data: Record, id: Option<JsValue>) returns (payload: Record)
    ensures payload == WirePayload(data, id)
  {
    var record := BaseRecord(data, id);
    if id.Some? {
      record := record["Id" := id.value];
    }
    var lookup := Get(data, "assigned_to_c");
    if Truthy(lookup) {
      var lookupId := Or(IdOf(lookup), lookup);
      if Truthy(lookupId) {
        record := record["assigned_to_c" := ParseIntNumber(lookupId)];
      }
    }
    payload := Payload.PruneEmpty(record, id.Some?);
  }

  /** The keys the literal writes are pairwise distinct. */
  lemma KeysDistinct()
    ensures "Name" !in CopiedFields && "Id" !in CopiedFields && "lead_status_c" !in CopiedFields
    ensures "lead_score_c" !in CopiedFields && "assigned_to_c" !in CopiedFields
    ensures |{"Id", "Name", "lead_status_c", "lead_score_c", "assigned_to_c"}| == 5
  {
  }

  /** The record before the clean-up, key by key. */
  lemma WireRecordEntries(data: Record, id: Option<JsValue>)
    ensures var w := WireRecord(data, id);
      && "Name" in w && w["Name"] == Or(Get(data, "name_c"), Str(""))
      && "lead_status_c" in w && w["lead_status_c"] == StatusValue(Get(data, "lead_status_c"), id)
      && "lead_score_c" in w && w["lead_score_c"] == ScoreValue(Get(data, "lead_score_c"))
      && ("assigned_to_c" in w <==> AssigneeValue(Get(data, "assigned_to_c")).Some?)
      && ("assigned_to_c" in w ==> w["assigned_to_c"] == AssigneeValue(Get(data, "assigned_to_c")).value)
      && ("Id" in w <==> id.Some?)
      && (id.Some? ==> w["Id"] == id.value)
      && (forall k :: k in CopiedFields ==> k in w && w[k] == Or(Get(data, k), Str("")))
      && (forall k :: k in w ==> k in CopiedFields || k in {"Id", "Name", "lead_status_c", "lead_score_c", "assigned_to_c"})
  {
    KeysDistinct();
  }

  /** `Name` mirrors `name_c` on both writes: both are present, and equal to
      the input, exactly when the input name is truthy. Every other copied
      column is present exactly when truthy, with the input's value. */
  lemma {:induction false} PayloadNameAndCopies(data: Record, id: Option<JsValue>)
    ensures var p := WirePayload(data, id);
      && ("Name" in p <==> Truthy(Get(data, "name_c")))
      && ("Name" in p ==> "name_c" in data && p["Name"] == data["name_c"] && "name_c" in p && p["name_c"] == data["name_c"])
      && (forall k :: k in CopiedFields ==> (k in p <==> Truthy(Get(data, k))))
      && (forall k :: k in CopiedFields && k in p ==> p[k] == data[k])
  {
    WireRecordEntries(data, id);
    KeysDistinct();
    var w := WireRecord(data, id);
    Payload.CopiesKept(data, w, id.Some?, CopiedFields);
    Payload.PrunedAt(w, id.Some?, "Name");
    Payload.OrEmptyKept(Get(data, "name_c"));
    assert "name_c" in CopiedFields;
  }

  /** The score is sent, as `parseInt` of the input (possibly NaN, which the
      clean-up keeps), exactly when the input is not undefined, null or ''. */
  lemma {:induction false} PayloadScore(data: Record, id: Option<JsValue>)
    ensures var p := WirePayload(data, id);
      var score := Get(data, "lead_score_c");
      && ("lead_score_c" in p <==> !(score.Undefined? || score.Null? || score == Str("")))
      && ("lead_score_c" in p ==> p["lead_score_c"] == ParseIntNumber(score))
  {
    var w := WireRecord(data, id);
    var score := Get(data, "lead_score_c");
    assert "lead_score_c" in w && w["lead_score_c"] == ScoreValue(score) by {
      WireRecordEntries(data, id);
    }
    Payload.PrunedAt(w, id.Some?, "lead_score_c");
    assert !Payload.IsEmptyValue(ParseIntNumber(score));
  }

  /** The assignee is sent exactly when the input is truthy, as `parseInt` of
      its `Id`, or of the input itself when that `Id` is falsy. */
  lemma {:induction false} PayloadAssignee(data: Record, id: Option<JsValue>)
    ensures var p := WirePayload(data, id);
      var lookup := Get(data, "assigned_to_c");
      && ("assigned_to_c" in p <==> Truthy(lookup))
      && ("assigned_to_c" in p ==> p["assigned_to_c"] == ParseIntNumber(Or(IdOf(lookup), lookup)))
  {
    var w := WireRecord(data, id);
    var lookup := Get(data, "assigned_to_c");
    assert ("assigned_to_c" in w <==> AssigneeValue(lookup).Some?)
        && ("assigned_to_c" in w ==> w["assigned_to_c"] == AssigneeValue(lookup).value) by {
      WireRecordEntries(data, id);
    }
    Payload.PrunedAt(w, id.Some?, "assigned_to_c");
    if Truthy(lookup) {
      assert Truthy(Or(IdOf(lookup), lookup));
      assert !Payload.IsEmptyValue(ParseIntNumber(Or(IdOf(lookup), lookup)));
    }
  }

  /** A create always sends a status, 'New' when the input's is empty; an
      update sends the status only when it is truthy, and never invents one. */
  lemma {:induction false} PayloadStatus(data: Record, id: Option<JsValue>)
    ensures var p := WirePayload(data, id);
      var status := Get(data, "lead_status_c");
      && (id.None? ==> "lead_status_c" in p && p["lead_status_c"] == Or(status, Str("New")))
      && (id.Some? ==> ("lead_status_c" in p <==> Truthy(status)))
      && (id.Some? && "lead_status_c" in p ==> p["lead_status_c"] == status)
  {
    WireRecordEntries(data, id);
    Payload.PrunedAt(WireRecord(data, id), id.Some?, "lead_status_c");
  }

  /** An update keeps `Id` equal to the argument through the clean-up; a create
      has no `Id`. Nothing else empty survives. */
  lemma {:induction false} PayloadId(data: Record, id: Option<JsValue>)
    ensures var p := WirePayload(data, id);
      && ("Id" in p <==> id.Some?)
      && (id.Some? ==> p["Id"] == id.value)
      && (forall k :: k in p && k != "Id" ==> !Payload.IsEmptyValue(p[k]))
  {
    WireRecordEntries(data, id);
    Payload.PrunedAt(WireRecord(data, id), id.Some?, "Id");
  }

  /** A lookup given as the record `{Id: n}` and one given as the bare id `n`
      are sent the same, as the integer `n` (for any id other than 0). */
  lemma AssigneeOfRecordOrId(n: int)
    requires n != 0 && -PlainIntegerBound < n < PlainIntegerBound
    ensures AssigneeValue(Obj(map["Id" := Num(n as real)])) == Some(Num(n as real))
    ensures AssigneeValue(Num(n as real)) == Some(Num(n as real))
  {
    var v := Num(n as real);
    assert ParseIntNumber(v) == v by {
      ParseIntOfInteger(n);
    }
    assert Or(IdOf(Obj(map["Id" := v])), Obj(map["Id" := v])) == v;
  }

  // ---------------------------------------------------------------------------
  // Reads
  // ---------------------------------------------------------------------------

  /** The parameters of `getAll`: every column, newest change first, 1000 rows. */
  const AllParams := FetchParams(Fields, [], 1000)

  /** `getAll` (and `searchLeads` once its request is sent): an unsuccessful
      envelope throws its message; no rows give `[]`; otherwise `data` is
      returned as it came, undecoded. */
  function ListOutcome(call: Call<FetchResponse>): (r: Result<JsValue, Exception>)
    ensures call.Rejected? ==> r == Failure(call.error)
    ensures call.Resolved? && !call.response.success ==> r == Failure(NewError(call.response.message))
    ensures call.Resolved? && call.response.success ==>
              r.Success? && (r.value == call.response.data || r.value == Arr([]))
    ensures call.Resolved? && call.response.success && call.response.data.Arr? ==> r == Success(call.response.data)
  {
    match call
    case Rejected(e) => Failure(e)
    case Resolved(resp) =>
      if !resp.success then Failure(NewError(resp.message))
      else if !Truthy(LengthOf(resp.data)) then Success(Arr([]))
      else Success(resp.data)
  }

  /** `getById(id)`: no `data` throws "Lead with Id <id> not found"; otherwise
      `data` is returned undecoded. */
  function ByIdOutcome(id: JsValue, call: Call<FetchResponse>): (r: Result<JsValue, Exception>)
    ensures call.Resolved? ==> (r.Success? <==> Truthy(call.response.data))
    ensures call.Resolved? && !Truthy(call.response.data) ==>
              r == Failure(Exception(Error, "Lead with Id " + ToString(id) + " not found"))
    ensures r.Success? ==> call.Resolved? && r.value == call.response.data
  {
    match call
    case Rejected(e) => Failure(e)
    case Resolved(resp) =>
      if !Truthy(resp.data) then Failure(Exception(Error, "Lead with Id " + ToString(id) + " not found"))
      else Success(resp.data)
  }

  /** `searchLeads(query)`: an empty query sends exactly the `getAll` request;
      otherwise name, email, company and job title are matched against the
      lower-cased query and phone against the query as typed. */
  function SearchParams(query: string): (p: FetchParams)
    ensures query == "" ==> p == AllParams
    ensures query != "" ==> p.fields == Fields && p.limit == 1000
    ensures query != "" ==> p.conditions == [
              Contains("name_c", [Lower(query)]), Contains("email_c", [Lower(query)]),
              Contains("company_c", [Lower(query)]), Contains("job_title_c", [Lower(query)]),
              Contains("phone_c", [query])]
  {
    if query == "" then AllParams
    else
      var term := Lower(query);
      FetchParams(Fields, [Contains("name_c", [term]), Contains("email_c", [term]),
                           Contains("company_c", [term]), Contains("job_title_c", [term]),
                           Contains("phone_c", [query])], 1000)
  }

  // ---------------------------------------------------------------------------
  // Writes
  // ---------------------------------------------------------------------------

  datatype WriteKind = Create | Update

  function FailureText(kind: WriteKind): string {
    if kind == Create then "Failed to create lead" else "Failed to update lead"
  }

  function NothingText(kind: WriteKind): string {
    if kind == Create then "No lead created" else "Lead not updated"
  }

  /** How `create`/`update` read the envelope: an unsuccessful envelope throws
      its message; a failed entry throws the first failed entry's message, or
      the default text when that message is falsy; otherwise the first
      successful entry's data is returned; with no entries (or no `results`)
      the call throws "No lead created" / "Lead not updated". */
  function WriteOutcome(kind: WriteKind, call: Call<WriteResponse>): (r: Result<JsValue, Exception>)
  {
    match call
    case Rejected(e) => Failure(e)
    case Resolved(resp) =>
      if !resp.success then Failure(NewError(resp.message))
      else if resp.results.None? then Failure(Exception(Error, NothingText(kind)))
      else
        var failed := Failed(resp.results.value);
        var successful := Successful(resp.results.value);
        if |failed| > 0 then Failure(NewError(Or(failed[0].message, Str(FailureText(kind)))))
        else if |successful| > 0 then Success(successful[0].data)
        else Failure(Exception(Error, NothingText(kind)))
  }

  /** A write returns a value exactly when the envelope succeeded, `results`
      is present and non-empty, and no entry failed; the value is the first
      entry's data. */
  lemma WriteSucceedsIff(kind: WriteKind, call: Call<WriteResponse>)
    ensures WriteOutcome(kind, call).Success? <==>
      && call.Resolved? && call.response.success && call.response.results.Some?
      && |call.response.results.value| > 0
      && (forall i :: 0 <= i < |call.response.results.value| ==> call.response.results.value[i].success)
    ensures WriteOutcome(kind, call).Success? ==> WriteOutcome(kind, call).value == call.response.results.value[0].data
  {
    if call.Resolved? && call.response.results.Some? {
      NoFailures(call.response.results.value);
    }
  }

  /** A successful envelope with an empty `results`, or none, throws
      "No lead created" / "Lead not updated". */
  lemma WriteWithoutEntriesThrows(kind: WriteKind, message: JsValue)
    ensures WriteOutcome(kind, Resolved(WriteResponse(true, message, None))) == Failure(Exception(Error, NothingText(kind)))
    ensures WriteOutcome(kind, Resolved(WriteResponse(true, message, Some([])))) == Failure(Exception(Error, NothingText(kind)))
  {
  }

  /** A failed entry makes the write throw the message of the earliest failed
      entry, or the default text when that message is falsy. */
  lemma WriteReportsFirstFailure(kind: WriteKind, resp: WriteResponse, i: nat)
    requires resp.success && resp.results.Some?
    requires i < |resp.results.value| && !resp.results.value[i].success
    requires forall j :: 0 <= j < i ==> resp.results.value[j].success
    ensures WriteOutcome(kind, Resolved(resp))
            == Failure(NewError(Or(resp.results.value[i].message, Str(FailureText(kind)))))
  {
    var rs := resp.results.value;
    assert rs[i] in rs;
    Seqs.FilterMembership(rs, IsFailed, rs[i]);
    FirstFailure(rs);
    var j :| 0 <= j < |rs| && rs[j] == Failed(rs)[0] && !rs[j].success
             && forall m :: 0 <= m < j ==> rs[m].success;
    assert j == i;
  }

  /** `delete(id)`: true when the envelope succeeded and no entry failed;
      an absent `results` counts as success. Every other case throws. */
  function DeleteOutcome(call: Call<WriteResponse>): (r: Result<bool, Exception>)
    ensures r.Success? ==> r.value
  {
    match call
    case Rejected(e) => Failure(e)
    case Resolved(resp) =>
      if !resp.success then Failure(NewError(resp.message))
      else if resp.results.Some? && |Failed(resp.results.value)| > 0 then
        Failure(NewError(Or(Failed(resp.results.value)[0].message, Str("Failed to delete lead"))))
      else Success(true)
  }

  /** `delete` answers true exactly when the call resolved, the envelope
      succeeded, and either `results` is absent or every entry succeeded. */
  lemma DeleteSucceedsIff(call: Call<WriteResponse>)
    ensures DeleteOutcome(call) == Success(true) <==>
      && call.Resolved? && call.response.success
      && (call.response.results.None? || forall i :: 0 <= i < |call.response.results.value| ==> call.response.results.value[i].success)
  {
    if call.Resolved? && call.response.results.Some? {
      NoFailures(call.response.results.value);
    }
  }
}
