/**
  The deal list: the loaded deals, the subset the search shows, and the
  `loading`/`error` flags; loading (again whenever the page's refresh counter
  changes), searching, and deleting after a confirmation. The deal service
  never throws to this component: `getAll` answers a list and `delete` a
  boolean, both parameters here, as is the user's confirmation.
 */
module DealGrid {
  import opened Wrappers
  import opened Js
  import opened JsText
  import opened Seqs
  import opened Search

  /** A deal is kept when the lower-cased term occurs in its lower-cased deal
      name, `Name` or company. A `null` or `undefined` entry is never asked:
      reading its column throws first (`SearchThrows`). */
  predicate Matches(deal: JsValue, term: string) {
    var f, lower := OwnProps(deal), Lower(term);
    || TextIncludes(f, "deal_name_c", lower)
    || TextIncludes(f, "Name", lower)
    || TextIncludes(f, "associated_company_c", lower)
  }

  /** The callback handed to `filter`. */
  function Matcher(term: string): JsValue -> bool {
    deal => Matches(deal, term)
  }

  /** The list the search effect shows: everything for an empty term, else
      the matching deals in their loaded order. */
  function Visible(deals: seq<JsValue>, term: string): (r: seq<JsValue>)
    ensures term == "" ==> r == deals
    ensures |r| <= |deals|
    ensures forall i :: 0 <= i < |r| ==> term == "" || Matches(r[i], term)
  {
    if term != "" then Filter(deals, Matcher(term)) else deals
  }

  /** Reading a column of a `null` or `undefined` entry throws a TypeError
      inside the `filter` callback, so with a non-empty term the search
      effect throws before it sets the shown list. */
  predicate SearchThrows(deals: seq<JsValue>, term: string) {
    term != "" && (Null in deals || Undefined in deals)
  }

  /** A deal is shown exactly when it is loaded and the term is empty or
      matches it. */
  lemma VisibleMembership(deals: seq<JsValue>, term: string, deal: JsValue)
    ensures deal in Visible(deals, term) <==> deal in deals && (term == "" || Matches(deal, term))
  {
    if term != "" {
      FilterMembership(deals, Matcher(term), deal);
    }
  }

  /** The shown list keeps the loaded order: it is a subsequence. */
  lemma VisibleIsSubsequence(deals: seq<JsValue>, term: string)
    ensures IsSubsequence(Visible(deals, term), deals)
  {
    if term == "" {
      var idx := seq(|deals|, i requires 0 <= i < |deals| => i);
      assert Embeds(deals, deals, idx);
    } else {
      FilterIsSubsequence(deals, Matcher(term));
    }
  }

  /** The search does not depend on the case of the term at all. */
  lemma SearchIgnoresCase(deal: JsValue, term: string)
    ensures Matches(deal, Upper(term)) <==> Matches(deal, term)
  {
    LowerOfUpper(term);
  }

  class DealGrid {
    var deals: seq<JsValue>
    var filteredDeals: seq<JsValue>
    var loading: bool
    var error: Option<string>
    var searchTerm: string

    constructor ()
      ensures deals == [] && filteredDeals == [] && loading && error == None && searchTerm == ""
    {
      deals := [];
      filteredDeals := [];
      loading := true;
      error := None;
      searchTerm := "";
    }

    /** `loadDeals`, given the list `getAll` answered: it replaces both
        `deals` and `filteredDeals`, the error is cleared, and `loading`
        ends false. */
    method Load(data: seq<JsValue>)
      modifies this
      ensures deals == data && filteredDeals == data
      ensures error == None && !loading && searchTerm == old(searchTerm)
    {
      loading := true;
      error := None;
      deals := data;
      filteredDeals := data;
      loading := false;
    }

    /** The effect that runs whenever `deals` or `searchTerm` changes; it
        reports whether it threw, in which case the shown list is unchanged. */
    method ApplySearch() returns (thrown: bool)
      modifies this
      ensures thrown <==> SearchThrows(deals, searchTerm)
      ensures !thrown ==> filteredDeals == Visible(deals, searchTerm)
      ensures thrown ==> filteredDeals == old(filteredDeals)
      ensures deals == old(deals) && searchTerm == old(searchTerm)
      ensures loading == old(loading) && error == old(error)
    {
      thrown := SearchThrows(deals, searchTerm);
      if thrown {
        return;
      }
      if searchTerm != "" {
        filteredDeals := Filter(deals, Matcher(searchTerm));
      } else {
        filteredDeals := deals;
      }
    }

    /** `handleSearch(term)`; the search effect then recomputes the list. */
    method HandleSearch(term: string)
      modifies this
      ensures searchTerm == term
      ensures deals == old(deals) && filteredDeals == old(filteredDeals)
      ensures loading == old(loading) && error == old(error)
    {
      searchTerm := term;
    }

    /** `handleDeleteDeal`: a declined confirmation returns before any call;
        the list is reloaded only when `delete` answered true. */
    method HandleDelete(confirmed: bool, deleted: bool, reload: seq<JsValue>)
      returns (deleteCalled: bool, reloaded: bool)
      modifies this
      ensures deleteCalled == confirmed
      ensures reloaded <==> confirmed && deleted
      ensures !reloaded ==> unchanged(this)
      ensures reloaded ==> deals == reload && filteredDeals == reload && error == None && !loading
      ensures searchTerm == old(searchTerm)
    {
      deleteCalled, reloaded := false, false;
      if !confirmed {
        return;
      }
      deleteCalled := true;
      if deleted {
        Load(reload);
        reloaded := true;
      }
    }
  }
}
