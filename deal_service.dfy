/**
  The deal service (table `deals_c`): the payload `create` and `update` send
  (the `Name` fallback, numeric defaults, integer lookups), and how the
  response envelopes are read. Unlike the contact and lead services it never
  throws: every failure, a missing SDK client included, turns into `[]`,
  `null` or `false`.
 */
module DealService {
  import opened Wrappers
  import opened Js
  import opened Sdk
  import Payload

  const Table := "deals_c"

  /** The columns `getAll` asks for. */
  const Fields: seq<string> := [
    "Id", "Name", "deal_name_c", "deal_value_c", "deal_stage_c", "probability_c",
    "expected_close_date_c", "associated_contact_c", "associated_company_c", "owner_c",
    "Tags", "CreatedOn", "ModifiedOn"]

  /** The columns `searchDeals` asks for. */
  const SearchFields: seq<string> := [
    "Id", "Name", "deal_name_c", "deal_value_c", "deal_stage_c", "probability_c",
    "expected_close_date_c", "associated_contact_c", "associated_company_c", "owner_c"]

  /** The columns copied into a write payload as they are. */
  const RawFields: seq<string> := ["deal_name_c", "deal_stage_c", "expected_close_date_c", "associated_company_c"]

  /** The lookup columns, sent as `parseInt` of a truthy input, otherwise `null`. */
  const LookupFields: seq<string> := ["associated_contact_c", "owner_c"]

  // ---------------------------------------------------------------------------
  // Encoding
  // ---------------------------------------------------------------------------

  /** `Name || deal_name_c || 'New Deal'` */
  function DealName(data: Record): (r: JsValue)
    ensures Truthy(r)
  {
    Or(Or(Get(data, "Name"), Get(data, "deal_name_c")), Str("New Deal"))
  }

  /** `v ? parseInt(v) : null` */
  function LookupValue(v: JsValue): (r: JsValue)
    ensures r == Null <==> !Truthy(v)
    ensures Truthy(v) ==> r.Num? || r.NaN?
  {
    if Truthy(v) then ParseIntNumber(v) else Null
  }

  /** `v ? parseFloat(v) : 0` */
  function ValueField(v: JsValue): JsValue {
    if Truthy(v) then ParseFloatNumber(v) else Num(0.0)
  }

  /** `v ? parseInt(v) : 0` */
  function ProbabilityField(v: JsValue): JsValue {
    if Truthy(v) then ParseIntNumber(v) else Num(0.0)
  }

  /** The columns of the literal copied as they are. */
  function RawRecord(data: Record): (r: Record)
    ensures forall k :: k in r <==> k in RawFields
    ensures forall k :: k in r ==> r[k] == Get(data, k)
  {
    map k | k in RawFields :: Get(data, k)
  }

  /** The record `create` (id `None`) or `update` puts in `records[0]`,
      before the clean-up. */
  function WireRecord(data: Record, id: Option<JsValue>): Record {
    var fields := RawRecord(data)
      ["Name" := DealName(data)]
      ["deal_value_c" := ValueField(Get(data, "deal_value_c"))]
      ["probability_c" := ProbabilityField(Get(data, "probability_c"))]
      ["associated_contact_c" := LookupValue(Get(data, "associated_contact_c"))]
      ["owner_c" := LookupValue(Get(data, "owner_c"))];
    if id.Some? then fields["Id" := ParseIntNumber(id.value)] else fields
  }

  /** The record sent to `createRecord` (id `None`) or `updateRecord`. */
  function WirePayload(data: Record, id: Option<JsValue>): Record {
    Payload.Pruned(WireRecord(data, id), id.Some?)
  }

  /** `create`/`update` up to the SDK call: the literal, then the in-place
      deletion of its empty entries (`Id` excepted on update). */
  method BuildPayload(data: Record, id: Option<JsValue>) returns (payload: Record)
    ensures payload == WirePayload(data, id)
  {
    var record := WireRecord(data, id);
    payload := Payload.PruneEmpty(record, id.Some?);
  }

  /** The keys the literal writes are pairwise distinct. */
  lemma KeysDistinct()
    ensures forall k :: k in RawFields ==> k !in LookupFields
    ensures forall k :: k in RawFields + LookupFields ==> k !in {"Id", "Name", "deal_value_c", "probability_c"}
    ensures |{"Id", "Name", "deal_value_c", "probability_c"}| == 4
    ensures "associated_contact_c" != "owner_c"
    ensures "Id" !in RawFields && "Id" !in LookupFields
  {
    assert "associated_company_c"[13] != "associated_contact_c"[13];
    assert "deal_stage_c"[5] != "deal_value_c"[5];
  }

  /** A raw column is none of the keys the literal computes. */
  lemma RawKeyDistinct(k: string)
    requires k in RawFields
    ensures k !in LookupFields && k !in {"Id", "Name", "deal_value_c", "probability_c"}
  {
    if k == "deal_stage_c" {
      assert k[5] != "deal_value_c"[5];
    } else if k == "associated_company_c" {
      assert k[13] != "associated_contact_c"[13];
    }
  }

  /** The record before the clean-up: the computed entries. */
  lemma WireRecordScalars(data: Record, id: Option<JsValue>)
    ensures var w := WireRecord(data, id);
      && "Name" in w && w["Name"] == DealName(data)
      && "deal_value_c" in w && w["deal_value_c"] == ValueField(Get(data, "deal_value_c"))
      && "probability_c" in w && w["probability_c"] == ProbabilityField(Get(data, "probability_c"))
      && ("Id" in w <==> id.Some?)
      && (id.Some? ==> w["Id"] == ParseIntNumber(id.value))
  {
    var r := RawRecord(data);
    assert "Id" !in r by {
      assert "Id" !in RawFields;
    }
    var fields := r
      ["Name" := DealName(data)]
      ["deal_value_c" := ValueField(Get(data, "deal_value_c"))]
      ["probability_c" := ProbabilityField(Get(data, "probability_c"))]
      ["associated_contact_c" := LookupValue(Get(data, "associated_contact_c"))]
      ["owner_c" := LookupValue(Get(data, "owner_c"))];
    assert "Id" !in fields;
    assert WireRecord(data, id) == if id.Some? then fields["Id" := ParseIntNumber(id.value)] else fields;
  }

  /** The record before the clean-up holds a raw column as the input's value. */
  lemma WireRawEntry(data: Record, id: Option<JsValue>, k: string)
    requires k in RawFields
    ensures var w := WireRecord(data, id); k in w && w[k] == Get(data, k)
  {
    var r := RawRecord(data);
    assert k in r && r[k] == Get(data, k);
    var fields := r
      ["Name" := DealName(data)]
      ["deal_value_c" := ValueField(Get(data, "deal_value_c"))]
      ["probability_c" := ProbabilityField(Get(data, "probability_c"))]
      ["associated_contact_c" := LookupValue(Get(data, "associated_contact_c"))]
      ["owner_c" := LookupValue(Get(data, "owner_c"))];
    assert k in fields && fields[k] == r[k] by {
      RawKeyDistinct(k);
    }
    assert WireRecord(data, id) == if id.Some? then fields["Id" := ParseIntNumber(id.value)] else fields;
    assert k != "Id" by {
      RawKeyDistinct(k);
    }
  }

  /** The record before the clean-up holds a lookup as `v ? parseInt(v) : null`. */
  lemma WireLookupEntry(data: Record, id: Option<JsValue>, k: string)
    requires k in LookupFields
    ensures var w := WireRecord(data, id); k in w && w[k] == LookupValue(Get(data, k))
  {
  }

  /** The record before the clean-up has only the literal's keys. */
  lemma WireRecordKeys(data: Record, id: Option<JsValue>)
    ensures forall k :: k in WireRecord(data, id) ==>
              k in RawFields || k in LookupFields || k in {"Id", "Name", "deal_value_c", "probability_c"}
  {
  }

  /** `Name` is always sent and never empty: the given `Name`, else the deal
      name, else 'New Deal'. */
  lemma {:induction false} PayloadName(data: Record, id: Option<JsValue>)
    ensures var p := WirePayload(data, id);
      && "Name" in p && p["Name"] == DealName(data) && Truthy(p["Name"])
      && (!Truthy(Get(data, "Name")) && !Truthy(Get(data, "deal_name_c")) ==> p["Name"] == Str("New Deal"))
  {
    var w := WireRecord(data, id);
    assert "Name" in w && w["Name"] == DealName(data) by {
      WireRecordScalars(data, id);
    }
    Payload.PrunedAt(w, id.Some?, "Name");
  }

  /** The value is always sent: a falsy input becomes the number 0, which the
      clean-up keeps; a truthy one is parsed, and an unparsable one is sent as NaN. */
  lemma PayloadValue(data: Record, id: Option<JsValue>)
    ensures var p := WirePayload(data, id);
      var value := Get(data, "deal_value_c");
      && "deal_value_c" in p
      && (!Truthy(value) ==> p["deal_value_c"] == Num(0.0))
      && (Truthy(value) ==> p["deal_value_c"] == ParseFloatNumber(value))
  {
    var w := WireRecord(data, id);
    var value := ValueField(Get(data, "deal_value_c"));
    assert "deal_value_c" in w && w["deal_value_c"] == value by {
      WireRecordScalars(data, id);
    }
    assert !Payload.IsEmptyValue(value);
    Payload.PrunedAt(w, id.Some?, "deal_value_c");
  }

  /** The probability is always sent: a falsy input becomes the number 0; a
      truthy one is sent as `parseInt` of it, NaN included. */
  lemma PayloadProbability(data: Record, id: Option<JsValue>)
    ensures var p := WirePayload(data, id);
      var probability := Get(data, "probability_c");
      && "probability_c" in p
      && (!Truthy(probability) ==> p["probability_c"] == Num(0.0))
      && (Truthy(probability) ==> p["probability_c"] == ParseIntNumber(probability))
  {
    var w := WireRecord(data, id);
    var probability := ProbabilityField(Get(data, "probability_c"));
    assert "probability_c" in w && w["probability_c"] == probability by {
      WireRecordScalars(data, id);
    }
    assert !Payload.IsEmptyValue(probability);
    Payload.PrunedAt(w, id.Some?, "probability_c");
  }

  /** A lookup is sent, as `parseInt` of the input, exactly when the input is
      truthy; a falsy one becomes `null` and is removed. */
  lemma PayloadLookup(data: Record, id: Option<JsValue>, k: string)
    requires k in LookupFields
    ensures var p := WirePayload(data, id);
      && (k in p <==> Truthy(Get(data, k)))
      && (k in p ==> p[k] == ParseIntNumber(Get(data, k)))
  {
    var w := WireRecord(data, id);
    var lookup := LookupValue(Get(data, k));
    assert k in w && w[k] == lookup by {
      WireLookupEntry(data, id, k);
    }
    assert !Payload.IsEmptyValue(lookup) <==> Truthy(Get(data, k));
    Payload.PrunedAt(w, id.Some?, k);
  }

  /** A raw column is sent, unchanged, exactly when it is not '', null or
      undefined. */
  lemma PayloadRaw(data: Record, id: Option<JsValue>, k: string)
    requires k in RawFields
    ensures var p := WirePayload(data, id);
      && (k in p <==> !Payload.IsEmptyValue(Get(data, k)))
      && (k in p ==> p[k] == Get(data, k))
  {
    var w := WireRecord(data, id);
    assert k in w && w[k] == Get(data, k) && k != "Id" by {
      WireRawEntry(data, id, k);
      RawKeyDistinct(k);
    }
    Payload.PrunedAt(w, id.Some?, k);
  }

  /** An update sends `Id` as `parseInt(id)`, even when that is NaN; a create
      sends no `Id`. Only the ten columns of the literal can appear. */
  lemma {:induction false} PayloadId(data: Record, id: Option<JsValue>)
    ensures var p := WirePayload(data, id);
      && ("Id" in p <==> id.Some?)
      && (id.Some? ==> p["Id"] == ParseIntNumber(id.value))
      && (forall k :: k in p ==> k in RawFields || k in LookupFields || k in {"Id", "Name", "deal_value_c", "probability_c"})
  {
    var w := WireRecord(data, id);
    assert ("Id" in w <==> id.Some?) && (id.Some? ==> w["Id"] == ParseIntNumber(id.value))
        && (forall k :: k in w ==> k in RawFields || k in LookupFields || k in {"Id", "Name", "deal_value_c", "probability_c"}) by {
      WireRecordScalars(data, id);
      WireRecordKeys(data, id);
    }
    Payload.PrunedAt(w, id.Some?, "Id");
  }

  /** A lookup given as the bare id `n` is sent as `n`; given as the record
      `{Id: n}` it goes through `parseInt("[object Object]")` and is sent as NaN. */
  lemma LookupOfRecordIsNaN(n: int)
    requires n != 0 && -PlainIntegerBound < n < PlainIntegerBound
    ensures LookupValue(Num(n as real)) == Num(n as real)
    ensures LookupValue(Obj(map["Id" := Num(n as real)])) == NaN
  {
    assert LookupValue(Num(n as real)) == Num(n as real) by {
      ParseIntOfInteger(n);
    }
    var record := Obj(map["Id" := Num(n as real)]);
    assert ParseIntNumber(record) == NaN by {
      ParseIntOfObject(record.fields);
    }
    assert Truthy(record);
  }

  // ---------------------------------------------------------------------------
  // Reads
  // ---------------------------------------------------------------------------

  /** `getAll`: `[]` on a rejected call or an unsuccessful envelope,
      otherwise `data || []`. */
  function ListOutcome(call: Call<FetchResponse>): (r: JsValue)
    ensures call.Rejected? || !call.response.success ==> r == Arr([])
    ensures call.Resolved? && call.response.success ==>
              r == (if Truthy(call.response.data) then call.response.data else Arr([]))
  {
    match call
    case Rejected(_) => Arr([])
    case Resolved(resp) => if !resp.success then Arr([]) else Or(resp.data, Arr([]))
  }

  /** `getById`: `null` on a rejected call or an unsuccessful envelope,
      otherwise `data` as it came. */
  function ByIdOutcome(call: Call<FetchResponse>): (r: JsValue)
    ensures call.Rejected? || !call.response.success ==> r == Null
    ensures call.Resolved? && call.response.success ==> r == call.response.data
  {
    match call
    case Rejected(_) => Null
    case Resolved(resp) => if !resp.success then Null else resp.data
  }

  /** `searchDeals(query)`: deal name or company contains the query exactly as
      given (not lower-cased), 100 rows; an empty query is sent like any other. */
  function SearchParams(query: string): (p: FetchParams)
    ensures p.fields == SearchFields && p.limit == 100
    ensures |p.conditions| == 2
    ensures forall i :: 0 <= i < 2 ==> p.conditions[i].values == [query]
    ensures p.conditions[0].fieldName == "deal_name_c" && p.conditions[1].fieldName == "associated_company_c"
  {
    FetchParams(SearchFields, [Contains("deal_name_c", [query]), Contains("associated_company_c", [query])], 100)
  }

  // ---------------------------------------------------------------------------
  // Writes
  // ---------------------------------------------------------------------------

  /** How `create`/`update` read the envelope: `null` on a rejected call, an
      unsuccessful envelope, any failed entry, or no entries; otherwise the
      first successful entry's data. */
  function WriteOutcome(call: Call<WriteResponse>): (r: JsValue)
  {
    match call
    case Rejected(_) => Null
    case Resolved(resp) =>
      if !resp.success then Null
      else if resp.results.None? then Null
      else
        var failed := Failed(resp.results.value);
        var successful := Successful(resp.results.value);
        if |failed| > 0 then Null
        else if |successful| > 0 then successful[0].data
        else Null
  }

  /** The envelope of a write that went through: resolved, successful, with
      a non-empty `results` in which no entry failed. */
  predicate CleanWrite(call: Call<WriteResponse>) {
    && call.Resolved? && call.response.success && call.response.results.Some?
    && |call.response.results.value| > 0
    && forall i :: 0 <= i < |call.response.results.value| ==> call.response.results.value[i].success
  }

  /** A write yields the first entry's data when the envelope is clean, and
      `null` in every other case: it never throws. */
  lemma WriteOutcomeIff(call: Call<WriteResponse>)
    ensures CleanWrite(call) ==> WriteOutcome(call) == call.response.results.value[0].data
    ensures !CleanWrite(call) ==> WriteOutcome(call) == Null
  {
    if call.Resolved? && call.response.results.Some? {
      NoFailures(call.response.results.value);
    }
  }

  /** `delete(id)`: true only when the envelope succeeded, `results` is present
      and no entry failed. */
  function DeleteOutcome(call: Call<WriteResponse>): bool
  {
    match call
    case Rejected(_) => false
    case Resolved(resp) =>
      if !resp.success then false
      else if resp.results.Some? then |Failed(resp.results.value)| == 0
      else false
  }

  /** `delete` answers true exactly when the call resolved, the envelope
      succeeded, `results` is present and every entry succeeded; an absent
      `results` is a failure here. */
  lemma DeleteSucceedsIff(call: Call<WriteResponse>)
    ensures DeleteOutcome(call) <==>
      && call.Resolved? && call.response.success && call.response.results.Some?
      && forall i :: 0 <= i < |call.response.results.value| ==> call.response.results.value[i].success
  {
    if call.Resolved? && call.response.results.Some? {
      NoFailures(call.response.results.value);
    }
  }
}
