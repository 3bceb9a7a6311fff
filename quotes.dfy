/** The Quotes page: the quote list as the backend returns it, the labels of a
    quote's related company, contact and deal, the status badge, and the list
    shown for the search term. */
module Quotes {
  import opened Optional
  import Text
  import Lists
  import opened Records

  /** A quote as far as the page's list reads it; a missing Name or status is
      None. */
  datatype Quote = Quote(name: Option<string>, company: Ref, contact: Ref, deal: Ref, status: Option<string>)

  /** `getCompanyName` */
  function CompanyLabel(r: Ref): (text: string)
    ensures text != ""
    ensures r.Obj? && r.name != "" ==> text == r.name
  {
    RefLabel(r, "No Company", "Unknown Company")
  }

  /** `getContactName` */
  function ContactLabel(r: Ref): (text: string)
    ensures text != ""
    ensures r.Obj? && r.name != "" ==> text == r.name
  {
    RefLabel(r, "No Contact", "Unknown Contact")
  }

  /** `getDealName` */
  function DealLabel(r: Ref): (text: string)
    ensures text != ""
    ensures r.Obj? && r.name != "" ==> text == r.name
  {
    RefLabel(r, "No Deal", "Unknown Deal")
  }

  /** A label is never empty, so the table always shows some text. */
  lemma LabelsNeverEmpty(r: Ref)
    ensures CompanyLabel(r) != "" && ContactLabel(r) != "" && DealLabel(r) != ""
  {
  }

  /** `getStatusBadgeVariant`: the five statuses, compared after lowercasing,
      and "secondary" for a missing or unknown status. */
  function StatusBadge(status: Option<string>): (variant: string)
    ensures variant in {"secondary", "info", "success", "error", "warning"}
    ensures status.None? ==> variant == "secondary"
    ensures status.Some? && Text.Lower(status.value) == "sent" ==> variant == "info"
    ensures status.Some? && Text.Lower(status.value) == "accepted" ==> variant == "success"
    ensures status.Some? && Text.Lower(status.value) == "rejected" ==> variant == "error"
    ensures status.Some? && Text.Lower(status.value) == "expired" ==> variant == "warning"
    ensures status.Some? && Text.Lower(status.value) !in {"sent", "accepted", "rejected", "expired"} ==> variant == "secondary"
  {
    if status.None? then "secondary"
    else
      match Text.Lower(status.value)
      case "draft" => "secondary"
      case "sent" => "info"
      case "accepted" => "success"
      case "rejected" => "error"
      case "expired" => "warning"
      case _ => "secondary"
  }

  /** The badge does not depend on the case of the status. */
  lemma StatusBadgeIgnoresCase(s: string)
    ensures StatusBadge(Some(s)) == StatusBadge(Some(Text.Lower(s)))
  {
    Text.LowerIdempotent(s);
  }

  /** The search of one quote: the lowercased term occurs in the lowercased
      Name, company label, contact label or status. The deal label is not
      searched. */
  predicate MatchesSearch(q: Quote, searchTerm: string) {
    var t := Text.Lower(searchTerm);
    FieldHas(q.name, t) ||
    Text.Contains(Text.Lower(CompanyLabel(q.company)), t) ||
    Text.Contains(Text.Lower(ContactLabel(q.contact)), t) ||
    FieldHas(q.status, t)
  }

  function SearchTest(searchTerm: string): Quote -> bool {
    q => MatchesSearch(q, searchTerm)
  }

  /** `filteredQuotes`: an empty term shows every quote; any other term,
      whitespace included, shows the matching quotes in list order. */
  function FilteredQuotes(quotes: seq<Quote>, searchTerm: string): (r: seq<Quote>)
    ensures searchTerm == "" ==> r == quotes
    ensures Lists.IsSubsequence(r, quotes)
    ensures searchTerm != "" ==>
              (forall i :: 0 <= i < |r| ==> MatchesSearch(r[i], searchTerm)) &&
              (forall i :: 0 <= i < |quotes| && MatchesSearch(quotes[i], searchTerm) ==> quotes[i] in r)
    ensures searchTerm != "" ==>
              forall x :: multiset(r)[x] == if MatchesSearch(x, searchTerm) then multiset(quotes)[x] else 0
  {
    if searchTerm == "" then
      Lists.IsSubsequenceRefl(quotes);
      quotes
    else
      Lists.FilterMembers(quotes, SearchTest(searchTerm));
      Lists.FilterIsSubsequence(quotes, SearchTest(searchTerm));
      Lists.FilterMultiplicity(quotes, SearchTest(searchTerm));
      Lists.Filter(quotes, SearchTest(searchTerm))
  }

  /** A quote without a company is found by the term "no company", because the
      placeholder label is what is searched. */
  lemma NoCompanyPlaceholderIsSearched(q: Quote)
    requires q.company.NotObject?
    ensures MatchesSearch(q, "no company")
  {
    assert Text.Lower("No Company") == "no company";
    assert Text.Lower("no company") == "no company";
    assert Text.OccursAt(Text.Lower(CompanyLabel(q.company)), Text.Lower("no company"), 0);
  }

  /** A term of spaces is searched like any other term: a quote with no Name,
      no status and related records whose names hold no space is not listed. */
  lemma SpacesAreNotBlank()
    ensures FilteredQuotes([Quote(None, Obj("Acme"), Obj("Ann"), NotObject, None)], " ") == []
  {
    var q := Quote(None, Obj("Acme"), Obj("Ann"), NotObject, None);
    assert Text.Lower(" ") == " ";
    NoSpaceIn("Acme");
    NoSpaceIn("Ann");
    assert !MatchesSearch(q, " ");
    Lists.FilterMembers([q], SearchTest(" "));
  }

  lemma NoSpaceIn(s: string)
    requires forall i :: 0 <= i < |s| ==> s[i] != ' ' && Text.LowerChar(s[i]) != ' '
    ensures !Text.Contains(Text.Lower(s), " ")
  {
    forall i | 0 <= i < |s| ensures !Text.OccursAt(Text.Lower(s), " ", i) {
      assert Text.Lower(s)[i..i + 1] == [Text.LowerChar(s[i])];
    }
  }
}
