/** What the company and contact tables share: the two-field sort state and
    its header-click toggle, the column values a comparator sees, and the
    conditions under which a table's comparator is consistent. */
module Sorting {
  import opened Optional
  import Text
  import Lists

  datatype Direction = Asc | Desc

  /** `handleSort(field)` as a function of the state: the current field flips
      the direction, any other field becomes current, ascending. */
  function NextSort<F(==)>(sortField: F, sortDirection: Direction, clicked: F): (r: (F, Direction))
    ensures r.0 == clicked
    ensures clicked == sortField ==> r.1 != sortDirection
    ensures clicked != sortField ==> r.1 == Asc
  {
    if sortField == clicked then (sortField, if sortDirection == Asc then Desc else Asc)
    else (clicked, Asc)
  }

  /** Clicking the same header twice returns to the state before. */
  lemma ClickTwiceRestores<F>(sortField: F, sortDirection: Direction)
    ensures var s := NextSort(sortField, sortDirection, sortField);
            NextSort(s.0, s.1, sortField) == (sortField, sortDirection)
  {
  }

  /** A newly chosen field always sorts ascending first, whatever came before. */
  lemma NewFieldStartsAscending<F>(sortField: F, sortDirection: Direction, clicked: F)
    requires clicked != sortField
    ensures NextSort(sortField, sortDirection, clicked) == (clicked, Asc)
  {
  }

  /** The `sortField` / `sortDirection` state of a table. */
  class SortState<F(==)> {
    var sortField: F
    var sortDirection: Direction

    /** A sort state on the given field, ascending; each table starts it on
        its name column. */
    constructor (initialField: F)
      ensures sortField == initialField && sortDirection == Asc
    {
      sortField := initialField;
      sortDirection := Asc;
    }

    /** `handleSort` */
    method HandleSort(field: F)
      modifies this
      ensures (sortField, sortDirection) == NextSort(old(sortField), old(sortDirection), field)
    {
      if sortField == field {
        sortDirection := if sortDirection == Asc then Desc else Asc;
      } else {
        sortField := field;
        sortDirection := Asc;
      }
    }
  }

  /** A column value as the comparator reads it: a string or a number. */
  datatype Value = Str(s: string) | Num(n: int)

  /** `String(v)`, as `localeCompare` converts its argument. */
  function TextOf(v: Value): string {
    match v
    case Str(s) => s
    case Num(n) => Text.DecimalText(n)
  }

  /** `Number(v)` for the values the tables meet: "" is 0 and any other text
      is NaN (None). */
  function NumberOf(v: Value): Option<int> {
    match v
    case Num(n) => Some(n)
    case Str(s) => if s == "" then Some(0) else None
  }

  /** `a - b` as a comparator result: a NaN difference counts as +0 for the
      sort. */
  function Difference(a: Value, b: Value): (r: int)
    ensures a.Num? && b.Num? ==> r == a.n - b.n
    ensures NumberOf(a).None? || NumberOf(b).None? ==> r == 0
  {
    match (NumberOf(a), NumberOf(b))
    case (Some(x), Some(y)) => x - y
    case _ => 0
  }

  /** Swapping the operands negates the difference, NaN included. */
  lemma DifferenceAntisymmetric(a: Value, b: Value)
    ensures Difference(b, a) == -Difference(a, b)
  {
  }

  /** The ascending or descending form of a comparison. */
  function Directed(d: Direction, c: int): int {
    if d == Asc then c else -c
  }

  /** `localeCompare` as the host supplies it: a total preorder on strings
      whose result changes sign when the arguments are swapped. */
  ghost predicate IsCollation(collate: (string, string) -> int) {
    (forall a, b :: (collate(a, b) < 0 <==> collate(b, a) > 0) && (collate(a, b) == 0 <==> collate(b, a) == 0)) &&
    (forall a, b, c {:trigger collate(a, b), collate(b, c), collate(a, c)} ::
       collate(a, b) <= 0 && collate(b, c) <= 0 ==> collate(a, c) <= 0)
  }

  /** A comparator that collates a text key, in either direction, is
      consistent. */
  lemma KeyedConsistent<T>(cmp: (T, T) -> int, key: T -> string, d: Direction,
                           collate: (string, string) -> int, dom: seq<T>)
    requires IsCollation(collate)
    requires forall a, b :: a in dom && b in dom ==> cmp(a, b) == Directed(d, collate(key(a), key(b)))
    ensures Lists.ConsistentOn(cmp, dom)
  {
    forall a, b, c | a in dom && b in dom && c in dom && cmp(a, b) <= 0 && cmp(b, c) <= 0
      ensures cmp(a, c) <= 0
    {
      var ka, kb, kc := key(a), key(b), key(c);
      if d == Asc {
        assert collate(ka, kb) <= 0 && collate(kb, kc) <= 0;
        assert collate(ka, kc) <= 0;
      } else {
        assert collate(kb, ka) <= 0 && collate(kc, kb) <= 0;
        assert collate(kc, ka) <= 0;
      }
    }
  }

  /** A comparator whose sign is that of a difference of integer ranks is
      consistent. */
  lemma RankedConsistent<T>(cmp: (T, T) -> int, rank: T -> int, dom: seq<T>)
    requires forall a, b :: a in dom && b in dom ==>
               (cmp(a, b) < 0 <==> rank(a) < rank(b)) && (cmp(a, b) == 0 <==> rank(a) == rank(b))
    ensures Lists.ConsistentOn(cmp, dom)
  {
  }
}
