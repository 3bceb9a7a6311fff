/** The contact table: its columns, the sort state, the comparator it sorts a
    copy of the contact list with, and the status badge colour. */
module ContactTable {
  import Lists
  import Records
  import opened Sorting

  datatype Field = Name | Company | Email | Phone | Status | DealValue

  /** The table's sort state as it mounts: the name column, ascending. */
  method NewSortState() returns (s: SortState<Field>)
    ensures fresh(s) && s.sortField == Name && s.sortDirection == Asc
  {
    s := new SortState(Name);
  }

  datatype Column = Column(field: Field, heading: string, sortable: bool)

  const Columns: seq<Column> := [
    Column(Name, "Name", true),
    Column(Company, "Company", true),
    Column(Email, "Email", true),
    Column(Phone, "Phone", false),
    Column(Status, "Status", true),
    Column(DealValue, "Deal Value", true)
  ]

  /** A header click runs `handleSort` for every column: the `sortable` flag
      of the phone column is not consulted. */
  method HeaderClick(state: SortState<Field>, column: Column)
    modifies state
    ensures (state.sortField, state.sortDirection) == NextSort(old(state.sortField), old(state.sortDirection), column.field)
  {
    state.HandleSort(column.field);
  }

  /** `contact[field]`: the deal value is a number, every other field text. */
  function FieldValue(c: Records.Contact, f: Field): Value {
    match f
    case Name => Str(c.name)
    case Company => Str(c.company)
    case Email => Str(c.email)
    case Phone => Str(c.phone)
    case Status => Str(c.status)
    case DealValue => Num(c.dealValue)
  }

  /** `modifier`: 1 ascending, -1 descending. */
  function Modifier(dir: Direction): int {
    if dir == Asc then 1 else -1
  }

  /** The comparator of `sortedContacts`: a string left value is collated with
      the right value, otherwise the difference is taken; either is multiplied
      by the modifier. */
  function Compare(a: Records.Contact, b: Records.Contact, field: Field, dir: Direction, collate: (string, string) -> int): (r: int)
    ensures field != DealValue ==> r == Modifier(dir) * collate(TextOf(FieldValue(a, field)), TextOf(FieldValue(b, field)))
    ensures field == DealValue ==> r == Modifier(dir) * (a.dealValue - b.dealValue)
  {
    var aValue := FieldValue(a, field);
    var bValue := FieldValue(b, field);
    if aValue.Str? then collate(aValue.s, TextOf(bValue)) * Modifier(dir)
    else Difference(aValue, bValue) * Modifier(dir)
  }

  function Comparator(field: Field, dir: Direction, collate: (string, string) -> int): (Records.Contact, Records.Contact) -> int {
    (a, b) => Compare(a, b, field, dir, collate)
  }

  /** `[...contacts].sort(comparator)`: a stable sort of a copy, so the result
      is a permutation of the list. */
  function SortedContacts(contacts: seq<Records.Contact>, field: Field, dir: Direction, collate: (string, string) -> int)
    : (r: seq<Records.Contact>)
    ensures multiset(r) == multiset(contacts) && |r| == |contacts|
  {
    Lists.SortBy(contacts, Comparator(field, dir, collate))
  }

  /** Descending compares exactly as ascending with the sign flipped. */
  lemma DescendingIsReversed(a: Records.Contact, b: Records.Contact, field: Field, collate: (string, string) -> int)
    ensures Compare(a, b, field, Desc, collate) == -Compare(a, b, field, Asc, collate)
  {
  }

  /** On the deal-value column the comparison has the sign of the difference
      of the deal values, reversed for descending. */
  lemma DealValueComparison(a: Records.Contact, b: Records.Contact, dir: Direction, collate: (string, string) -> int)
    ensures var c := Compare(a, b, DealValue, dir, collate);
            (c < 0 <==> Rank(dir)(a) < Rank(dir)(b)) && (c == 0 <==> Rank(dir)(a) == Rank(dir)(b))
  {
  }

  function TextKey(field: Field): Records.Contact -> string {
    (c: Records.Contact) => TextOf(FieldValue(c, field))
  }

  function Rank(dir: Direction): Records.Contact -> int {
    (c: Records.Contact) => c.dealValue * Modifier(dir)
  }

  /** Whatever column is chosen, the sorted copy is ordered by the comparator
      and contacts that compare equal keep their relative order, provided the
      collation is a consistent one. */
  lemma SortedAndStable(contacts: seq<Records.Contact>, field: Field, dir: Direction, collate: (string, string) -> int)
    requires IsCollation(collate)
    ensures Lists.SortedBy(SortedContacts(contacts, field, dir, collate), Comparator(field, dir, collate))
    ensures forall x :: x in contacts ==>
              Lists.TiedWith(SortedContacts(contacts, field, dir, collate), x, Comparator(field, dir, collate))
              == Lists.TiedWith(contacts, x, Comparator(field, dir, collate))
  {
    var cmp := Comparator(field, dir, collate);
    if field == DealValue {
      forall a, b | a in contacts && b in contacts
        ensures (cmp(a, b) < 0 <==> Rank(dir)(a) < Rank(dir)(b)) && (cmp(a, b) == 0 <==> Rank(dir)(a) == Rank(dir)(b))
      {
        DealValueComparison(a, b, dir, collate);
      }
      RankedConsistent(cmp, Rank(dir), contacts);
    } else {
      forall a, b | a in contacts && b in contacts
        ensures cmp(a, b) == Directed(dir, collate(TextKey(field)(a), TextKey(field)(b)))
      {
        assert FieldValue(a, field).Str?;
      }
      KeyedConsistent(cmp, TextKey(field), dir, collate, contacts);
    }
    Lists.SortBySorted(contacts, cmp);
    forall x | x in contacts
      ensures Lists.TiedWith(Lists.SortBy(contacts, cmp), x, cmp) == Lists.TiedWith(contacts, x, cmp)
    {
      Lists.SortByStable(contacts, x, cmp);
    }
  }

  /** `getStatusColor` */
  function StatusColor(status: string): (color: string)
    ensures color in {"success", "info", "default"}
    ensures color == "success" <==> status == "Active"
    ensures color == "info" <==> status == "Lead"
  {
    match status
    case "Active" => "success"
    case "Inactive" => "default"
    case "Lead" => "info"
    case _ => "default"
  }
}
