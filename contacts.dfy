/** The Contacts page: the contact list, the search box, and the list the table
    shows, which the page recomputes whenever the contacts or the query
    change. */
module Contacts {
  import Text
  import Lists
  import opened Records

  /** The lowercased, untrimmed query occurs in the lowercased name, email,
      company or phone. */
  predicate MatchesSearch(c: Contact, searchQuery: string) {
    var q := Text.Lower(searchQuery);
    Text.Contains(Text.Lower(c.name), q) ||
    Text.Contains(Text.Lower(c.email), q) ||
    Text.Contains(Text.Lower(c.company), q) ||
    Text.Contains(Text.Lower(c.phone), q)
  }

  function SearchTest(searchQuery: string): Contact -> bool {
    c => MatchesSearch(c, searchQuery)
  }

  /** `filterContacts`: a query that trims to nothing shows every contact;
      otherwise the contacts matching the query, in list order. */
  function FilterContacts(contacts: seq<Contact>, searchQuery: string): (r: seq<Contact>)
    ensures Text.Trim(searchQuery) == "" ==> r == contacts
    ensures Lists.IsSubsequence(r, contacts)
    ensures Text.Trim(searchQuery) != "" ==>
              (forall i :: 0 <= i < |r| ==> MatchesSearch(r[i], searchQuery)) &&
              (forall i :: 0 <= i < |contacts| && MatchesSearch(contacts[i], searchQuery) ==> contacts[i] in r)
    ensures Text.Trim(searchQuery) != "" ==>
              forall x :: multiset(r)[x] == if MatchesSearch(x, searchQuery) then multiset(contacts)[x] else 0
  {
    if Text.Trim(searchQuery) == "" then
      Lists.IsSubsequenceRefl(contacts);
      contacts
    else
      Lists.FilterMembers(contacts, SearchTest(searchQuery));
      Lists.FilterIsSubsequence(contacts, SearchTest(searchQuery));
      Lists.FilterMultiplicity(contacts, SearchTest(searchQuery));
      Lists.Filter(contacts, SearchTest(searchQuery))
  }

  /** The page's state; its effect keeps the shown list equal to the filtered
      contacts. */
  class Page {
    var contacts: seq<Contact>
    var searchQuery: string
    var filteredContacts: seq<Contact>

    ghost predicate Valid()
      reads this
    {
      filteredContacts == FilterContacts(contacts, searchQuery)
    }

    constructor ()
      ensures Valid()
      ensures contacts == [] && searchQuery == "" && filteredContacts == []
    {
      contacts := [];
      searchQuery := "";
      filteredContacts := [];
      Text.TrimEmptyIffBlank("");
    }

    /** The effect on `[contacts, searchQuery]`. */
    method Refilter()
      modifies this`filteredContacts
      ensures Valid()
    {
      filteredContacts := FilterContacts(contacts, searchQuery);
    }

    /** `loadContacts` after the service answered. */
    method Loaded(data: seq<Contact>)
      modifies this
      ensures Valid()
      ensures contacts == data && searchQuery == old(searchQuery)
    {
      contacts := data;
      Refilter();
    }

    /** `handleSearch` */
    method SetSearch(query: string)
      modifies this
      ensures Valid()
      ensures searchQuery == query && contacts == old(contacts)
    {
      searchQuery := query;
      Refilter();
    }

    /** `handleDeleteContact` after the service deleted the contact. */
    method Deleted(id: int)
      modifies this
      ensures Valid()
      ensures contacts == Lists.RemoveById(old(contacts), ContactId, id)
      ensures searchQuery == old(searchQuery)
    {
      contacts := Lists.RemoveById(contacts, ContactId, id);
      Refilter();
    }

    /** `handleSubmit` while editing, after the service returned the update. */
    method Updated(updated: Contact)
      modifies this
      ensures Valid()
      ensures contacts == Lists.ReplaceById(old(contacts), ContactId, updated)
      ensures searchQuery == old(searchQuery)
    {
      contacts := Lists.ReplaceById(contacts, ContactId, updated);
      Refilter();
    }

    /** `handleSubmit` when adding, after the service returned the new contact. */
    method Created(created: Contact)
      modifies this
      ensures Valid()
      ensures contacts == old(contacts) + [created]
      ensures searchQuery == old(searchQuery)
    {
      contacts := contacts + [created];
      Refilter();
    }
  }
}
