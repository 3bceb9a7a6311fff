/** The company table: its columns, the sort state it keeps, the comparator it
    sorts a copy of the company list with, the industry badge colour and the
    website link. */
module CompanyTable {
  import Text
  import Lists
  import opened Records
  import opened Sorting

  datatype Field = Name | Industry | City | State | Phone | Website | EmployeeCount | CompanyEmailAddress

  /** The table's sort state as it mounts: the name column, ascending. */
  method NewSortState() returns (s: SortState<Field>)
    ensures fresh(s) && s.sortField == Name && s.sortDirection == Asc
  {
    s := new SortState(Name);
  }

  datatype Column = Column(field: Field, heading: string, sortable: bool)

  const Columns: seq<Column> := [
    Column(Name, "Company", true),
    Column(Industry, "Industry", true),
    Column(City, "City", true),
    Column(State, "State", true),
    Column(Phone, "Phone", false),
    Column(Website, "Website", false),
    Column(EmployeeCount, "Employee Count", true),
    Column(CompanyEmailAddress, "Email", false)
  ]

  /** Phone, website and email are the columns whose header does not sort. */
  lemma SortableColumns()
    ensures forall i :: 0 <= i < |Columns| ==>
              (Columns[i].sortable <==> Columns[i].field !in {Phone, Website, CompanyEmailAddress})
  {
  }

  /** A header click: a sortable column runs `handleSort`, any other column
      does nothing. */
  method HeaderClick(state: SortState<Field>, column: Column)
    modifies state
    ensures column.sortable ==>
              (state.sortField, state.sortDirection) == NextSort(old(state.sortField), old(state.sortDirection), column.field)
    ensures !column.sortable ==> state.sortField == old(state.sortField) && state.sortDirection == old(state.sortDirection)
  {
    if column.sortable {
      state.HandleSort(column.field);
    }
  }

  /** `company[field]`; a missing employee count is mapped to '' by the
      service and is 0 here. */
  function FieldValue(c: Company, f: Field): Value {
    match f
    case Name => Str(c.name)
    case Industry => Str(c.industry)
    case City => Str(c.city)
    case State => Str(c.state)
    case Phone => Str(c.phone)
    case Website => Str(c.website)
    case EmployeeCount => if c.employeeCount == 0 then Str("") else Num(c.employeeCount)
    case CompanyEmailAddress => Str(c.companyEmailAddress)
  }

  /** `value || ''`: the falsy values (the empty string and 0) become ''. */
  function OrEmpty(v: Value): (r: Value)
    ensures v == Str("") || v == Num(0) ==> r == Str("")
    ensures v != Str("") && v != Num(0) ==> r == v
  {
    if v == Num(0) then Str("") else v
  }

  /** The comparator of `sortedCompanies`: a string left value is collated
      with the right value (negated for descending); otherwise the numeric
      difference, with the operands swapped for descending. */
  function Compare(a: Company, b: Company, field: Field, dir: Direction, collate: (string, string) -> int): (r: int)
    ensures field != EmployeeCount ==>
              var c := collate(TextOf(FieldValue(a, field)), TextOf(FieldValue(b, field)));
              r == if dir == Asc then c else -c
    ensures field == EmployeeCount && a.employeeCount != 0 && b.employeeCount != 0 ==>
              r == if dir == Asc then a.employeeCount - b.employeeCount else b.employeeCount - a.employeeCount
  {
    var aValue := OrEmpty(FieldValue(a, field));
    var bValue := OrEmpty(FieldValue(b, field));
    if aValue.Str? then
      var comparison := collate(aValue.s, TextOf(bValue));
      if dir == Asc then comparison else -comparison
    else if dir == Asc then Difference(aValue, bValue) else Difference(bValue, aValue)
  }

  function Comparator(field: Field, dir: Direction, collate: (string, string) -> int): (Company, Company) -> int {
    (a, b) => Compare(a, b, field, dir, collate)
  }

  /** `[...companies].sort(comparator)`: a stable sort of a copy, so the result
      is a permutation of the list. */
  function SortedCompanies(companies: seq<Company>, field: Field, dir: Direction, collate: (string, string) -> int)
    : (r: seq<Company>)
    ensures multiset(r) == multiset(companies) && |r| == |companies|
  {
    Lists.SortBy(companies, Comparator(field, dir, collate))
  }

  /** Descending compares exactly as ascending with the sign flipped. */
  lemma DescendingIsReversed(a: Company, b: Company, field: Field, collate: (string, string) -> int)
    ensures Compare(a, b, field, Desc, collate) == -Compare(a, b, field, Asc, collate)
  {
    DifferenceAntisymmetric(OrEmpty(FieldValue(a, field)), OrEmpty(FieldValue(b, field)));
  }

  function TextKey(field: Field): Company -> string {
    (c: Company) => TextOf(FieldValue(c, field))
  }

  /** On a text column the sorted copy is in collation order, and companies
      that collate equal keep their relative order. */
  lemma TextColumnSorted(companies: seq<Company>, field: Field, dir: Direction, collate: (string, string) -> int)
    requires field != EmployeeCount && IsCollation(collate)
    ensures Lists.SortedBy(SortedCompanies(companies, field, dir, collate), Comparator(field, dir, collate))
    ensures forall x :: x in companies ==>
              Lists.TiedWith(SortedCompanies(companies, field, dir, collate), x, Comparator(field, dir, collate))
              == Lists.TiedWith(companies, x, Comparator(field, dir, collate))
  {
    var cmp := Comparator(field, dir, collate);
    forall a, b | a in companies && b in companies
      ensures cmp(a, b) == Directed(dir, collate(TextKey(field)(a), TextKey(field)(b)))
    {
      assert FieldValue(a, field).Str? && FieldValue(b, field).Str?;
    }
    KeyedConsistent(cmp, TextKey(field), dir, collate, companies);
    Lists.SortBySorted(companies, cmp);
    forall x | x in companies
      ensures Lists.TiedWith(Lists.SortBy(companies, cmp), x, cmp) == Lists.TiedWith(companies, x, cmp)
    {
      Lists.SortByStable(companies, x, cmp);
    }
  }

  /** The empty text collates before every other text, as `localeCompare`
      puts it. */
  ghost predicate EmptyFirst(collate: (string, string) -> int) {
    forall t :: t != "" ==> collate("", t) < 0
  }

  function Rank(dir: Direction): Company -> int {
    (c: Company) => if dir == Asc then c.employeeCount else -c.employeeCount
  }

  /** On the employee-count column, where a missing count compares as the
      text '' against numbers, the sorted copy is in count order (missing
      first when ascending) and ties keep their order, provided counts are
      not negative and '' collates first. */
  lemma EmployeeCountSorted(companies: seq<Company>, dir: Direction, collate: (string, string) -> int)
    requires IsCollation(collate) && EmptyFirst(collate)
    requires forall i :: 0 <= i < |companies| ==> companies[i].employeeCount >= 0
    ensures Lists.SortedBy(SortedCompanies(companies, EmployeeCount, dir, collate), Comparator(EmployeeCount, dir, collate))
    ensures forall x :: x in companies ==>
              Lists.TiedWith(SortedCompanies(companies, EmployeeCount, dir, collate), x, Comparator(EmployeeCount, dir, collate))
              == Lists.TiedWith(companies, x, Comparator(EmployeeCount, dir, collate))
  {
    var cmp := Comparator(EmployeeCount, dir, collate);
    forall a, b | a in companies && b in companies
      ensures (cmp(a, b) < 0 <==> Rank(dir)(a) < Rank(dir)(b)) && (cmp(a, b) == 0 <==> Rank(dir)(a) == Rank(dir)(b))
    {
      CountComparison(a, b, collate);
      DescendingIsReversed(a, b, EmployeeCount, collate);
    }
    RankedConsistent(cmp, Rank(dir), companies);
    Lists.SortBySorted(companies, cmp);
    forall x | x in companies
      ensures Lists.TiedWith(Lists.SortBy(companies, cmp), x, cmp) == Lists.TiedWith(companies, x, cmp)
    {
      Lists.SortByStable(companies, x, cmp);
    }
  }

  /** Ascending on employee count compares with the sign of the difference of
      the counts. */
  lemma CountComparison(a: Company, b: Company, collate: (string, string) -> int)
    requires IsCollation(collate) && EmptyFirst(collate)
    requires a.employeeCount >= 0 && b.employeeCount >= 0
    ensures var c := Compare(a, b, EmployeeCount, Asc, collate);
            (c < 0 <==> a.employeeCount < b.employeeCount) && (c == 0 <==> a.employeeCount == b.employeeCount)
  {
    if a.employeeCount == 0 && b.employeeCount == 0 {
      assert collate("", "") == 0;
    } else if a.employeeCount == 0 {
      assert collate("", Text.DecimalText(b.employeeCount)) < 0;
    }
  }

  const IndustryColors: map<string, string> := map[
    "Technology" := "info",
    "Healthcare" := "success",
    "Finance" := "warning",
    "Education" := "purple",
    "Retail" := "teal",
    "Manufacturing" := "default",
    "Other" := "default"
  ]

  /** `getIndustryColor`: the colour of a listed industry, 'default' for any
      other. */
  function IndustryColor(industry: string): (color: string)
    ensures industry in IndustryColors ==> color == IndustryColors[industry]
    ensures industry !in IndustryColors ==> color == "default"
  {
    if industry in IndustryColors && IndustryColors[industry] != "" then IndustryColors[industry] else "default"
  }

  /** Every industry gets one of the badge variants. */
  lemma IndustryColorIsVariant(industry: string)
    ensures IndustryColor(industry) in {"info", "success", "warning", "purple", "teal", "default"}
  {
  }

  /** The link of a non-empty website: unchanged when it starts with "http",
      otherwise prefixed with "https://". */
  function WebsiteHref(website: string): (href: string)
    ensures Text.StartsWith(href, "http")
    ensures Text.StartsWith(website, "http") ==> href == website
    ensures !Text.StartsWith(website, "http") ==> href == "https://" + website
  {
    if Text.StartsWith(website, "http") then website
    else
      assert ("https://" + website)[..4] == "http";
      "https://" + website
  }

  /** Normalising a link twice is normalising it once. */
  lemma WebsiteHrefIdempotent(website: string)
    ensures WebsiteHref(WebsiteHref(website)) == WebsiteHref(website)
  {
  }
}
