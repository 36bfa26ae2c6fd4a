/**
  The lead list: the loaded leads, the subset the search shows, and the
  `loading`/`error` flags; loading through the lead service, searching, and
  deleting after a confirmation. The service's answers and the user's
  confirmation are parameters.
 */
module LeadGrid {
  import opened Wrappers
  import opened Js
  import opened JsText
  import opened Seqs
  import opened Search

  const LoadFailed := "Failed to load leads"
  const DeleteFailed := "Failed to delete lead"

  /** A lead is kept when the lower-cased term occurs in its lower-cased name,
      e-mail, company, job title or status, or the term as typed occurs in
      its phone. A `null` or `undefined` entry is never asked: reading its
      column throws first (`SearchThrows`). */
  predicate Matches(lead: JsValue, term: string) {
    var f, lower := OwnProps(lead), Lower(term);
    || TextIncludes(f, "name_c", lower)
    || TextIncludes(f, "email_c", lower)
    || TextIncludes(f, "company_c", lower)
    || TextIncludes(f, "job_title_c", lower)
    || TextIncludes(f, "lead_status_c", lower)
    || RawIncludes(f, "phone_c", term)
  }

  /** The callback handed to `filter`. */
  function Matcher(term: string): JsValue -> bool {
    lead => Matches(lead, term)
  }

  /** The list the search effect shows: everything for an empty term, else
      the matching leads in their loaded order. */
  function Visible(leads: seq<JsValue>, term: string): (r: seq<JsValue>)
    ensures term == "" ==> r == leads
    ensures |r| <= |leads|
    ensures forall i :: 0 <= i < |r| ==> term == "" || Matches(r[i], term)
  {
    if term == "" then leads else Filter(leads, Matcher(term))
  }

  /** Reading a column of a `null` or `undefined` entry throws a TypeError
      inside the `filter` callback, so with a non-empty term the search
      effect throws before it sets the shown list. */
  predicate SearchThrows(leads: seq<JsValue>, term: string) {
    term != "" && (Null in leads || Undefined in leads)
  }

  /** A lead is shown exactly when it is loaded and the term is empty or
      matches it. */
  lemma VisibleMembership(leads: seq<JsValue>, term: string, lead: JsValue)
    ensures lead in Visible(leads, term) <==> lead in leads && (term == "" || Matches(lead, term))
  {
    if term != "" {
      FilterMembership(leads, Matcher(term), lead);
    }
  }

  /** The shown list keeps the loaded order: it is a subsequence. */
  lemma VisibleIsSubsequence(leads: seq<JsValue>, term: string)
    ensures IsSubsequence(Visible(leads, term), leads)
  {
    if term == "" {
      var idx := seq(|leads|, i requires 0 <= i < |leads| => i);
      assert Embeds(leads, leads, idx);
    } else {
      FilterIsSubsequence(leads, Matcher(term));
    }
  }

  /** A string, number, boolean or array has no column the search reads and
      matches no term; it is shown only while the term is empty. */
  lemma NonObjectNeverMatches(lead: JsValue, term: string)
    requires !lead.Obj? && !Nullish(lead)
    ensures !Matches(lead, term)
  {
  }

  class LeadGrid {
    var leads: seq<JsValue>
    var filteredLeads: seq<JsValue>
    var loading: bool
    var error: string
    var searchTerm: string

    constructor ()
      ensures leads == [] && filteredLeads == [] && loading && error == "" && searchTerm == ""
    {
      leads := [];
      filteredLeads := [];
      loading := true;
      error := "";
      searchTerm := "";
    }

    /** `loadLeads`, given what `getAll` answered: the list replaces both
        `leads` and `filteredLeads`, or the message is shown; the error is
        cleared first and `loading` ends false either way. */
    method Load(outcome: Result<seq<JsValue>, Exception>)
      modifies this
      ensures outcome.Success? ==> leads == outcome.value && filteredLeads == outcome.value && error == ""
      ensures outcome.Failure? ==>
                leads == old(leads) && filteredLeads == old(filteredLeads)
                && error == MessageOr(outcome.error, LoadFailed)
      ensures !loading && searchTerm == old(searchTerm)
    {
      loading := true;
      error := "";
      match outcome {
        case Success(data) =>
          leads := data;
          filteredLeads := data;
        case Failure(e) =>
          error := MessageOr(e, LoadFailed);
      }
      loading := false;
    }

    /** The effect that runs whenever `leads` or `searchTerm` changes; it
        reports whether it threw, in which case the shown list is unchanged. */
    method ApplySearch() returns (thrown: bool)
      modifies this
      ensures thrown <==> SearchThrows(leads, searchTerm)
      ensures !thrown ==> filteredLeads == Visible(leads, searchTerm)
      ensures thrown ==> filteredLeads == old(filteredLeads)
      ensures leads == old(leads) && searchTerm == old(searchTerm)
      ensures loading == old(loading) && error == old(error)
    {
      thrown := SearchThrows(leads, searchTerm);
      if thrown {
        return;
      }
      if searchTerm == "" {
        filteredLeads := leads;
      } else {
        filteredLeads := Filter(leads, Matcher(searchTerm));
      }
    }

    /** `handleSearch(term)`; the search effect then recomputes the list. */
    method HandleSearch(term: string)
      modifies this
      ensures searchTerm == term
      ensures leads == old(leads) && filteredLeads == old(filteredLeads)
      ensures loading == old(loading) && error == old(error)
    {
      searchTerm := term;
    }

    /** `handleDeleteLead`: without confirmation nothing is called and nothing
        changes; a delete that succeeds is followed by a reload, one that
        throws shows its message. */
    method HandleDelete(confirmed: bool, deleted: Result<bool, Exception>, reload: Result<seq<JsValue>, Exception>)
      returns (deleteCalled: bool)
      modifies this
      ensures deleteCalled == confirmed
      ensures !confirmed ==> unchanged(this)
      ensures confirmed && deleted.Success? && reload.Success? ==>
                leads == reload.value && filteredLeads == reload.value && error == "" && !loading
      ensures confirmed && deleted.Success? && reload.Failure? ==>
                leads == old(leads) && filteredLeads == old(filteredLeads)
                && error == MessageOr(reload.error, LoadFailed) && !loading
      ensures confirmed && deleted.Failure? ==>
                leads == old(leads) && filteredLeads == old(filteredLeads)
                && loading == old(loading) && error == MessageOr(deleted.error, DeleteFailed)
      ensures searchTerm == old(searchTerm)
    {
      deleteCalled := confirmed;
      if !confirmed {
        return;
      }
      match deleted
      case Success(_) =>
        Load(reload);
      case Failure(e) =>
        error := MessageOr(e, DeleteFailed);
    }
  }
}
