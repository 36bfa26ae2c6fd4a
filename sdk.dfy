/**
  What the vendor data SDK hands back, as input values: the envelopes of
  `fetchRecords`, `getRecordById`, `createRecord`, `updateRecord` and
  `deleteRecord`, whether the call resolved or rejected, and the request
  parameters the services build. `JSON.stringify` and `JSON.parse` are
  likewise supplied from outside.
 */
module Sdk {
  import opened Wrappers
  import opened Js
  import Seqs

  /** One entry of `response.results`. */
  datatype RecordResult = RecordResult(success: bool, message: JsValue, data: JsValue)

  /** The envelope of a write call; `results` is `None` when the property is absent. */
  datatype WriteResponse = WriteResponse(success: bool, message: JsValue, results: Option<seq<RecordResult>>)

  /** The envelope of `fetchRecords` and `getRecordById`. */
  datatype FetchResponse = FetchResponse(success: bool, message: JsValue, data: JsValue)

  /** An awaited SDK call: it resolves to a response or rejects with an exception. */
  datatype Call<R> = Resolved(response: R) | Rejected(error: Exception)

  /** The service write a page issues: `create(data)`, `update(id, data)` or `delete(id)`. */
  datatype ServiceCall = CreateCall(data: Record) | UpdateCall(id: JsValue, data: Record) | DeleteCall(id: JsValue)

  /** `JSON.stringify` and `JSON.parse`; `parse` answers `None` where it would throw. */
  datatype Json = Json(stringify: JsValue -> string, parse: string -> Option<JsValue>)

  /** `{fieldName, operator: "Contains", values}` of a `whereGroups` sub-group. */
  datatype Condition = Contains(fieldName: string, values: seq<string>)

  /** The parameters of a `fetchRecords` call: requested fields, the OR-ed
      conditions of the where group (empty: no where group), and the page size.
      Every list request here orders by `ModifiedOn` descending. */
  datatype FetchParams = FetchParams(fields: seq<string>, conditions: seq<Condition>, limit: nat)

  predicate IsFailed(r: RecordResult) { !r.success }

  predicate IsSuccessful(r: RecordResult) { r.success }

  /** `results.filter(r => !r.success)` */
  function Failed(rs: seq<RecordResult>): seq<RecordResult> {
    Seqs.Filter(rs, IsFailed)
  }

  /** `results.filter(r => r.success)` */
  function Successful(rs: seq<RecordResult>): seq<RecordResult> {
    Seqs.Filter(rs, IsSuccessful)
  }

  /** No entry failed exactly when the failed filter is empty; and then every
      entry is successful, so the successful filter is the whole list. */
  lemma NoFailures(rs: seq<RecordResult>)
    ensures Failed(rs) == [] <==> forall i :: 0 <= i < |rs| ==> rs[i].success
    ensures Failed(rs) == [] ==> Successful(rs) == rs
  {
    Seqs.FilterEmpty(rs, IsFailed);
    if Failed(rs) == [] {
      Seqs.FilterAll(rs, IsSuccessful);
    }
  }

  /** The failure a caller reports is that of the earliest failed entry. */
  lemma FirstFailure(rs: seq<RecordResult>)
    requires Failed(rs) != []
    ensures exists i :: 0 <= i < |rs| && rs[i] == Failed(rs)[0] && !rs[i].success
                        && forall j :: 0 <= j < i ==> rs[j].success
  {
    Seqs.FilterHead(rs, IsFailed);
  }
}
