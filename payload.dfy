/**
  The clean-up step every create/update encoder runs on its record before
  sending it: walk the keys of the record and delete each one whose value is
  '', null or undefined (on update, never the `Id` key). Other values,
  `0`, `false` and NaN among them, are kept.
 */
module Payload {
  import opened Js

  /** The values the clean-up loops delete. */
  predicate IsEmptyValue(v: JsValue) {
    v == Str("") || v.Null? || v.Undefined?
  }

  /** The clean-up loop's test for key `k`: kept when it is the preserved `Id`,
      or when its value is not empty. */
  predicate Keeps(r: Record, k: string, keepId: bool)
    requires k in r
  {
    (keepId && k == "Id") || !IsEmptyValue(r[k])
  }

  /** The record the clean-up loop leaves behind. */
  function Pruned(r: Record, keepId: bool): (p: Record)
    ensures p.Keys <= r.Keys
    ensures forall k :: k in p ==> p[k] == r[k] && ((keepId && k == "Id") || !IsEmptyValue(p[k]))
    ensures forall k :: k in r && !IsEmptyValue(r[k]) ==> k in p
    ensures keepId && "Id" in r ==> "Id" in p
  {
    map k | k in r && Keeps(r, k, keepId) :: r[k]
  }

  /** `Object.keys(record).forEach(key => { if (<empty>) delete record[key]; })`,
      run on a copy: the keys are visited in any order and each visit decides
      only about its own key. */
  method PruneEmpty(record: Record, keepId: bool) returns (pruned: Record)
    ensures pruned == Pruned(record, keepId)
  {
    pruned := record;
    var pending := record.Keys;
    while pending != {}
      invariant pending <= record.Keys
      invariant pruned.Keys <= record.Keys
      invariant forall k :: k in pruned ==> pruned[k] == record[k]
      invariant forall k :: k in pending ==> k in pruned
      invariant forall k :: k in record && k !in pending ==> (k in pruned <==> Keeps(record, k, keepId))
      decreases pending
    {
      var key :| key in pending;
      if !Keeps(pruned, key, keepId) {
        pruned := pruned - {key};
      }
      pending := pending - {key};
    }
    assert pruned.Keys == Pruned(record, keepId).Keys;
  }

  /** Pruning an already pruned record changes nothing. */
  lemma PruneIdempotent(r: Record, keepId: bool)
    ensures Pruned(Pruned(r, keepId), keepId) == Pruned(r, keepId)
  {
    var p := Pruned(r, keepId);
    assert Pruned(p, keepId).Keys == p.Keys;
  }

  /** Pruning with `Id` preserved, then dropping `Id`, is pruning the record
      without `Id`: preserving `Id` affects that one key only. */
  lemma PrunedWithoutId(r: Record)
    ensures Pruned(r, true) - {"Id"} == Pruned(r - {"Id"}, false)
  {
    assert (Pruned(r, true) - {"Id"}).Keys == Pruned(r - {"Id"}, false).Keys;
  }

  /** What the clean-up decides for one key `k` of `r`, and that it adds no key. */
  lemma PrunedAt(r: Record, keepId: bool, k: string)
    ensures k in Pruned(r, keepId) <==> k in r && Keeps(r, k, keepId)
    ensures k in Pruned(r, keepId) ==> Pruned(r, keepId)[k] == r[k]
  {
  }

  /** Columns written as `data[k] || ''` survive the clean-up exactly when the
      input is truthy, and then carry the input's value. */
  lemma {:induction false} CopiesKept(data: Record, r: Record, keepId: bool, keys: seq<string>)
    requires forall k :: k in keys ==> k in r && r[k] == Or(Get(data, k), Str(""))
    requires keepId ==> "Id" !in keys
    ensures forall k :: k in keys ==> (k in Pruned(r, keepId) <==> Truthy(Get(data, k)))
    ensures forall k :: k in keys && k in Pruned(r, keepId) ==> Pruned(r, keepId)[k] == Get(data, k)
  {
    forall k | k in keys
      ensures k in Pruned(r, keepId) <==> Truthy(Get(data, k))
      ensures k in Pruned(r, keepId) ==> Pruned(r, keepId)[k] == Get(data, k)
    {
      PrunedAt(r, keepId, k);
      OrEmptyKept(Get(data, k));
    }
  }

  /** `v || ''` survives the clean-up exactly when `v` is truthy. */
  lemma OrEmptyKept(v: JsValue)
    ensures !IsEmptyValue(Or(v, Str(""))) <==> Truthy(v)
  {
  }
}
