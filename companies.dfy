/** The Companies page: the company list, the search box and the filters the
    filter panel reports, and the list the table shows, which the page
    recomputes stage by stage whenever one of the three changes. */
module Companies {
  import Text
  import Lists
  import opened Records
  import FilterPanel

  type Filters = FilterPanel.Filters

  /** `activeFilters[k]` is truthy. */
  predicate IsSet(af: Filters, k: FilterPanel.FilterKey) {
    k in af && af[k] != ""
  }

  /** The search: the lowercased, untrimmed query occurs in the lowercased
      name, industry, city, state or phone, or in the website when there is
      one. */
  predicate MatchesSearch(c: Company, searchQuery: string) {
    var q := Text.Lower(searchQuery);
    Text.Contains(Text.Lower(c.name), q) ||
    Text.Contains(Text.Lower(c.industry), q) ||
    Text.Contains(Text.Lower(c.city), q) ||
    Text.Contains(Text.Lower(c.state), q) ||
    Text.Contains(Text.Lower(c.phone), q) ||
    (c.website != "" && Text.Contains(Text.Lower(c.website), q))
  }

  /** The four filter keys the page applies: industry exactly, the others as
      case-insensitive substrings of city, state and name. */
  datatype Stage = Search | Industry | City | State | Name

  const Stages: seq<Stage> := [Search, Industry, City, State, Name]

  predicate SearchActive(q: string) { Text.Trim(q) != "" }

  /** Whether the page runs a stage: a query that is not blank after trimming,
      or a truthy filter value. */
  predicate Active(st: Stage, searchQuery: string, af: Filters) {
    match st
    case Search => SearchActive(searchQuery)
    case Industry => IsSet(af, FilterPanel.Industry)
    case City => IsSet(af, FilterPanel.City)
    case State => IsSet(af, FilterPanel.State)
    case Name => IsSet(af, FilterPanel.Company)
  }

  /** A company passes a stage that does not run, and otherwise passes its test. */
  predicate Passes(c: Company, st: Stage, searchQuery: string, af: Filters) {
    Active(st, searchQuery, af) ==>
      match st
      case Search => MatchesSearch(c, searchQuery)
      case Industry => c.industry == af[FilterPanel.Industry]
      case City => Text.Contains(Text.Lower(c.city), Text.Lower(af[FilterPanel.City]))
      case State => Text.Contains(Text.Lower(c.state), Text.Lower(af[FilterPanel.State]))
      case Name => Text.Contains(Text.Lower(c.name), Text.Lower(af[FilterPanel.Company]))
  }

  /** The companies the page lists: those passing every active test. */
  predicate Kept(c: Company, searchQuery: string, af: Filters) {
    Passes(c, Search, searchQuery, af) &&
    Passes(c, Industry, searchQuery, af) &&
    Passes(c, City, searchQuery, af) &&
    Passes(c, State, searchQuery, af) &&
    Passes(c, Name, searchQuery, af)
  }

  function StageTest(st: Stage, searchQuery: string, af: Filters): Company -> bool {
    c => Passes(c, st, searchQuery, af)
  }

  function KeepTest(searchQuery: string, af: Filters): Company -> bool {
    c => Kept(c, searchQuery, af)
  }

  /** Passing the first n stages. */
  predicate PassesFirst(c: Company, n: nat, searchQuery: string, af: Filters)
    requires n <= |Stages|
  {
    n == 0 || (PassesFirst(c, n - 1, searchQuery, af) && Passes(c, Stages[n - 1], searchQuery, af))
  }

  function FirstStagesTest(n: nat, searchQuery: string, af: Filters): Company -> bool
    requires n <= |Stages|
  {
    c => PassesFirst(c, n, searchQuery, af)
  }

  /** Running stage n on the companies that passed the first n stages leaves
      those that pass the first n + 1. */
  /** One stage of `filterCompanies`: the list narrowed by the stage's test
      when the stage runs, and unchanged otherwise. */
  function Narrow(s: seq<Company>, st: Stage, searchQuery: string, af: Filters): seq<Company> {
    if Active(st, searchQuery, af) then Lists.Filter(s, StageTest(st, searchQuery, af)) else s
  }

  /** The five stages in the page's order. */
  function Narrowed(companies: seq<Company>, searchQuery: string, af: Filters): seq<Company> {
    var bySearch := Narrow(companies, Search, searchQuery, af);
    var byIndustry := Narrow(bySearch, Industry, searchQuery, af);
    var byCity := Narrow(byIndustry, City, searchQuery, af);
    var byState := Narrow(byCity, State, searchQuery, af);
    Narrow(byState, Name, searchQuery, af)
  }

  /** Running stage n on the companies that passed the first n stages leaves
      those that pass the first n + 1. */
  lemma NarrowStep(companies: seq<Company>, n: nat, searchQuery: string, af: Filters)
    requires n < |Stages|
    ensures Narrow(Lists.Filter(companies, FirstStagesTest(n, searchQuery, af)), Stages[n], searchQuery, af)
         == Lists.Filter(companies, FirstStagesTest(n + 1, searchQuery, af))
  {
    if Active(Stages[n], searchQuery, af) {
      Lists.FilterFilter(companies, FirstStagesTest(n, searchQuery, af),
                         StageTest(Stages[n], searchQuery, af), FirstStagesTest(n + 1, searchQuery, af));
    } else {
      Lists.FilterExt(companies, FirstStagesTest(n, searchQuery, af), FirstStagesTest(n + 1, searchQuery, af));
    }
  }

  /** Running the stages one after the other keeps exactly the companies that
      pass every active test, in list order. */
  lemma NarrowedIsKept(companies: seq<Company>, searchQuery: string, af: Filters)
    ensures Narrowed(companies, searchQuery, af) == Lists.Filter(companies, KeepTest(searchQuery, af))
  {
    var f0 := Lists.Filter(companies, FirstStagesTest(0, searchQuery, af));
    var f1 := Lists.Filter(companies, FirstStagesTest(1, searchQuery, af));
    var f2 := Lists.Filter(companies, FirstStagesTest(2, searchQuery, af));
    var f3 := Lists.Filter(companies, FirstStagesTest(3, searchQuery, af));
    var f4 := Lists.Filter(companies, FirstStagesTest(4, searchQuery, af));
    var f5 := Lists.Filter(companies, FirstStagesTest(5, searchQuery, af));
    assert f0 == companies by {
      Lists.FilterAll(companies, FirstStagesTest(0, searchQuery, af));
    }
    assert Narrow(f0, Search, searchQuery, af) == f1 by {
      NarrowStep(companies, 0, searchQuery, af);
    }
    assert Narrow(f1, Industry, searchQuery, af) == f2 by {
      NarrowStep(companies, 1, searchQuery, af);
    }
    assert Narrow(f2, City, searchQuery, af) == f3 by {
      NarrowStep(companies, 2, searchQuery, af);
    }
    assert Narrow(f3, State, searchQuery, af) == f4 by {
      NarrowStep(companies, 3, searchQuery, af);
    }
    assert Narrow(f4, Name, searchQuery, af) == f5 by {
      NarrowStep(companies, 4, searchQuery, af);
    }
    AllStagesIsKept(companies, searchQuery, af);
  }

  /** `filterCompanies`: a copy of the list, narrowed by the search and then
      by the industry, city, state and company filters, each only when it is
      set. The result is the companies passing every active test, in list
      order. */
  method FilterCompanies(companies: seq<Company>, searchQuery: string, activeFilters: Filters)
    returns (filtered: seq<Company>)
    ensures filtered == Lists.Filter(companies, KeepTest(searchQuery, activeFilters))
  {
    filtered := companies;
    if Text.Trim(searchQuery) != "" {
      filtered := Lists.Filter(filtered, StageTest(Search, searchQuery, activeFilters));
    }
    if IsSet(activeFilters, FilterPanel.Industry) {
      filtered := Lists.Filter(filtered, StageTest(Industry, searchQuery, activeFilters));
    }
    if IsSet(activeFilters, FilterPanel.City) {
      filtered := Lists.Filter(filtered, StageTest(City, searchQuery, activeFilters));
    }
    if IsSet(activeFilters, FilterPanel.State) {
      filtered := Lists.Filter(filtered, StageTest(State, searchQuery, activeFilters));
    }
    if IsSet(activeFilters, FilterPanel.Company) {
      filtered := Lists.Filter(filtered, StageTest(Name, searchQuery, activeFilters));
    }
    assert filtered == Narrowed(companies, searchQuery, activeFilters);
    NarrowedIsKept(companies, searchQuery, activeFilters);
  }

  lemma AllStagesIsKept(companies: seq<Company>, searchQuery: string, af: Filters)
    ensures Lists.Filter(companies, FirstStagesTest(5, searchQuery, af))
         == Lists.Filter(companies, KeepTest(searchQuery, af))
  {
    forall c | c in companies
      ensures FirstStagesTest(5, searchQuery, af)(c) == KeepTest(searchQuery, af)(c)
    {
      assert PassesFirst(c, 1, searchQuery, af) == Passes(c, Search, searchQuery, af);
      assert PassesFirst(c, 2, searchQuery, af) == (PassesFirst(c, 1, searchQuery, af) && Passes(c, Industry, searchQuery, af));
      assert PassesFirst(c, 3, searchQuery, af) == (PassesFirst(c, 2, searchQuery, af) && Passes(c, City, searchQuery, af));
      assert PassesFirst(c, 4, searchQuery, af) == (PassesFirst(c, 3, searchQuery, af) && Passes(c, State, searchQuery, af));
      assert PassesFirst(c, 5, searchQuery, af) == (PassesFirst(c, 4, searchQuery, af) && Passes(c, Name, searchQuery, af));
    }
    Lists.FilterExt(companies, FirstStagesTest(5, searchQuery, af), KeepTest(searchQuery, af));
  }

  /** A blank query and none of the four keys set: every company, in order. */
  lemma InactiveKeepsAll(companies: seq<Company>, searchQuery: string, af: Filters)
    requires Text.Trim(searchQuery) == ""
    requires !IsSet(af, FilterPanel.Industry) && !IsSet(af, FilterPanel.City)
    requires !IsSet(af, FilterPanel.State) && !IsSet(af, FilterPanel.Company)
    ensures Lists.Filter(companies, KeepTest(searchQuery, af)) == companies
  {
    Lists.FilterAll(companies, KeepTest(searchQuery, af));
  }

  /** The listed companies are a subsequence of the company list. */
  lemma FilteredIsSubsequence(companies: seq<Company>, searchQuery: string, af: Filters)
    ensures Lists.IsSubsequence(Lists.Filter(companies, KeepTest(searchQuery, af)), companies)
  {
    Lists.FilterIsSubsequence(companies, KeepTest(searchQuery, af));
  }

  /** Any two stages can run in either order. */
  lemma StagesCommute(companies: seq<Company>, a: Stage, b: Stage, searchQuery: string, af: Filters)
    ensures Lists.Filter(Lists.Filter(companies, StageTest(a, searchQuery, af)), StageTest(b, searchQuery, af))
         == Lists.Filter(Lists.Filter(companies, StageTest(b, searchQuery, af)), StageTest(a, searchQuery, af))
  {
    Lists.FilterCommute(companies, StageTest(a, searchQuery, af), StageTest(b, searchQuery, af));
  }

  /** Filter keys other than industry, city, state and company (the deal-value
      and date keys, status, stage) do not change the list. */
  lemma OtherKeysIgnored(companies: seq<Company>, searchQuery: string, af: Filters,
                         k: FilterPanel.FilterKey, v: string)
    requires k != FilterPanel.Industry && k != FilterPanel.City
    requires k != FilterPanel.State && k != FilterPanel.Company
    ensures Lists.Filter(companies, KeepTest(searchQuery, af[k := v]))
         == Lists.Filter(companies, KeepTest(searchQuery, af))
  {
    Lists.FilterExt(companies, KeepTest(searchQuery, af[k := v]), KeepTest(searchQuery, af));
  }

  /** The query is lowercased but not trimmed: " acme" makes the search run
      and does not find a company named "Acme", while "acme" does. */
  lemma PaddedQueryMisses(c: Company)
    requires c == Company(1, "Acme", "", "", "", "", "", "", "", 0, "")
    ensures Active(Search, " acme", map[]) && !MatchesSearch(c, " acme")
  {
    PaddedQueryIsNotBlank();
    var q := Text.Lower(" acme");
    assert |q| == 5;
    Text.LongerNotContained(Text.Lower(c.name), q);
    Text.LongerNotContained(Text.Lower(c.industry), q);
    Text.LongerNotContained(Text.Lower(c.city), q);
    Text.LongerNotContained(Text.Lower(c.state), q);
    Text.LongerNotContained(Text.Lower(c.phone), q);
  }

  lemma PaddedQueryIsNotBlank()
    ensures Text.Trim(" acme") != ""
  {
    Text.TrimEmptyIffBlank(" acme");
    assert !Text.IsSpace(" acme"[1]);
  }

  lemma PlainQueryHits(c: Company)
    requires c == Company(1, "Acme", "", "", "", "", "", "", "", 0, "")
    ensures MatchesSearch(c, "acme")
  {
    assert Text.Lower("Acme") == "acme";
    assert Text.Lower("acme") == "acme";
    assert Text.OccursAt(Text.Lower(c.name), Text.Lower("acme"), 0);
  }

  /** The page's state: the loaded companies, the query, the filters the
      panel reported, and the list shown, which the page's effect keeps equal
      to the filtered companies. */
  class Page {
    var companies: seq<Company>
    var searchQuery: string
    var activeFilters: Filters
    var filteredCompanies: seq<Company>

    ghost predicate Valid()
      reads this
    {
      filteredCompanies == Lists.Filter(companies, KeepTest(searchQuery, activeFilters))
    }

    constructor ()
      ensures Valid()
      ensures companies == [] && searchQuery == "" && activeFilters == map[] && filteredCompanies == []
    {
      companies := [];
      searchQuery := "";
      activeFilters := map[];
      filteredCompanies := [];
    }

    /** The effect on `[companies, searchQuery, activeFilters]`. */
    method Refilter()
      modifies this`filteredCompanies
      ensures Valid()
    {
      filteredCompanies := FilterCompanies(companies, searchQuery, activeFilters);
    }

    /** `loadCompanies` after the service answered. */
    method Loaded(data: seq<Company>)
      modifies this
      ensures Valid()
      ensures companies == data && searchQuery == old(searchQuery) && activeFilters == old(activeFilters)
    {
      companies := data;
      Refilter();
    }

    /** `handleSearch` */
    method SetSearch(query: string)
      modifies this
      ensures Valid()
      ensures searchQuery == query && companies == old(companies) && activeFilters == old(activeFilters)
    {
      searchQuery := query;
      Refilter();
    }

    /** `handleFiltersChange` */
    method SetFilters(filters: Filters)
      modifies this
      ensures Valid()
      ensures activeFilters == filters && companies == old(companies) && searchQuery == old(searchQuery)
    {
      activeFilters := filters;
      Refilter();
    }

    /** `handleDeleteCompany` after the service deleted the company. */
    method Deleted(id: int)
      modifies this
      ensures Valid()
      ensures companies == Lists.RemoveById(old(companies), CompanyId, id)
      ensures searchQuery == old(searchQuery) && activeFilters == old(activeFilters)
    {
      companies := Lists.RemoveById(companies, CompanyId, id);
      Refilter();
    }

    /** `handleSubmit` while editing, after the service returned the update. */
    method Updated(updated: Company)
      modifies this
      ensures Valid()
      ensures companies == Lists.ReplaceById(old(companies), CompanyId, updated)
      ensures searchQuery == old(searchQuery) && activeFilters == old(activeFilters)
    {
      companies := Lists.ReplaceById(companies, CompanyId, updated);
      Refilter();
    }

    /** `handleSubmit` when adding, after the service returned the new company. */
    method Created(created: Company)
      modifies this
      ensures Valid()
      ensures companies == old(companies) + [created]
      ensures searchQuery == old(searchQuery) && activeFilters == old(activeFilters)
    {
      companies := companies + [created];
      Refilter();
    }
  }
}
