/**
  The contact list: the loaded contacts, the subset the search shows, and the
  `loading`/`error` flags; loading through the contact service, searching,
  and deleting after a confirmation. The service's answers and the user's
  confirmation are parameters.
 */
module ContactGrid {
  import opened Wrappers
  import opened Js
  import opened JsText
  import opened Seqs
  import opened Search

  const LoadFailed := "Failed to load contacts"
  const DeleteFailed := "Failed to delete contact"

  /** A contact is kept when the lower-cased term occurs in its lower-cased
      first name, last name, e-mail or company, or the term as typed occurs
      in its phone. */
  predicate Matches(c: Record, term: string) {
    var lower := Lower(term);
    || TextIncludes(c, "first_name_c", lower)
    || TextIncludes(c, "last_name_c", lower)
    || TextIncludes(c, "email_c", lower)
    || TextIncludes(c, "company_c", lower)
    || RawIncludes(c, "phone_c", term)
  }

  /** The callback handed to `filter`. */
  function Matcher(term: string): Record -> bool {
    c => Matches(c, term)
  }

  /** The list the search effect shows: everything for an empty term, else
      the matching contacts in their loaded order. */
  function Visible(contacts: seq<Record>, term: string): (r: seq<Record>)
    ensures term == "" ==> r == contacts
    ensures |r| <= |contacts|
    ensures forall i :: 0 <= i < |r| ==> term == "" || Matches(r[i], term)
  {
    if term == "" then contacts else Filter(contacts, Matcher(term))
  }

  /** A contact is shown exactly when it is loaded and the term is empty or
      matches it. */
  lemma VisibleMembership(contacts: seq<Record>, term: string, c: Record)
    ensures c in Visible(contacts, term) <==> c in contacts && (term == "" || Matches(c, term))
  {
    if term != "" {
      FilterMembership(contacts, Matcher(term), c);
    }
  }

  /** The shown list keeps the loaded order: it is a subsequence. */
  lemma VisibleIsSubsequence(contacts: seq<Record>, term: string)
    ensures IsSubsequence(Visible(contacts, term), contacts)
  {
    if term == "" {
      var idx := seq(|contacts|, i requires 0 <= i < |contacts| => i);
      assert Embeds(contacts, contacts, idx);
    } else {
      FilterIsSubsequence(contacts, Matcher(term));
    }
  }

  /** The case of the term matters only to the phone column. */
  lemma SearchIgnoresCase(c: Record, term: string)
    requires !RawIncludes(c, "phone_c", term) && !RawIncludes(c, "phone_c", Upper(term))
    ensures Matches(c, Upper(term)) <==> Matches(c, term)
  {
    LowerOfUpper(term);
  }

  class ContactGrid {
    var contacts: seq<Record>
    var filteredContacts: seq<Record>
    var loading: bool
    var error: string
    var searchTerm: string

    constructor ()
      ensures contacts == [] && filteredContacts == [] && loading && error == "" && searchTerm == ""
    {
      contacts := [];
      filteredContacts := [];
      loading := true;
      error := "";
      searchTerm := "";
    }

    /** `loadContacts`, given what `getAll` answered: the list replaces both
        `contacts` and `filteredContacts`, or the message is shown; the error
        is cleared first and `loading` ends false either way. */
    method Load(outcome: Result<seq<Record>, Exception>)
      modifies this
      ensures outcome.Success? ==> contacts == outcome.value && filteredContacts == outcome.value && error == ""
      ensures outcome.Failure? ==>
                contacts == old(contacts) && filteredContacts == old(filteredContacts)
                && error == MessageOr(outcome.error, LoadFailed)
      ensures !loading && searchTerm == old(searchTerm)
    {
      loading := true;
      error := "";
      match outcome {
        case Success(data) =>
          contacts := data;
          filteredContacts := data;
        case Failure(e) =>
          error := MessageOr(e, LoadFailed);
      }
      loading := false;
    }

    /** The effect that runs whenever `contacts` or `searchTerm` changes. */
    method ApplySearch()
      modifies this
      ensures filteredContacts == Visible(contacts, searchTerm)
      ensures contacts == old(contacts) && searchTerm == old(searchTerm)
      ensures loading == old(loading) && error == old(error)
    {
      if searchTerm == "" {
        filteredContacts := contacts;
      } else {
        filteredContacts := Filter(contacts, Matcher(searchTerm));
      }
    }

    /** `handleSearch(term)`; the search effect then recomputes the list. */
    method HandleSearch(term: string)
      modifies this
      ensures searchTerm == term
      ensures contacts == old(contacts) && filteredContacts == old(filteredContacts)
      ensures loading == old(loading) && error == old(error)
    {
      searchTerm := term;
    }

    /** `handleDeleteContact`: without confirmation nothing is called and
        nothing changes; a delete that succeeds is followed by a reload, one
        that throws shows its message. */
    method HandleDelete(confirmed: bool, deleted: Result<bool, Exception>, reload: Result<seq<Record>, Exception>)
      returns (deleteCalled: bool)
      modifies this
      ensures deleteCalled == confirmed
      ensures !confirmed ==> unchanged(this)
      ensures confirmed && deleted.Success? && reload.Success? ==>
                contacts == reload.value && filteredContacts == reload.value && error == "" && !loading
      ensures confirmed && deleted.Success? && reload.Failure? ==>
                contacts == old(contacts) && filteredContacts == old(filteredContacts)
                && error == MessageOr(reload.error, LoadFailed) && !loading
      ensures confirmed && deleted.Failure? ==>
                contacts == old(contacts) && filteredContacts == old(filteredContacts)
                && loading == old(loading) && error == MessageOr(deleted.error, DeleteFailed)
      ensures searchTerm == old(searchTerm)
    {
      deleteCalled := confirmed;
      if !confirmed {
        return;
      }
      match deleted
      case Success(_) =>
        Load(reload);
      case Failure(e) =>
        error := MessageOr(e, DeleteFailed);
    }
  }
}
