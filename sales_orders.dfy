/** The Sales Orders page: the order list as the backend returns it, the
    customer label, the status badge, and the list shown for the search
    term. */
module SalesOrders {
  import opened Optional
  import Text
  import Lists
  import opened Records

  /** An order as far as the page's list reads it; a missing text field is
      None. */
  datatype SalesOrder = SalesOrder(name: Option<string>, orderNumber: Option<string>, customer: Ref, status: Option<string>)

  /** `getCustomerName` */
  function CustomerLabel(r: Ref): (text: string)
    ensures text != ""
    ensures r.Obj? && r.name != "" ==> text == r.name
  {
    RefLabel(r, "No Customer", "Unknown Customer")
  }

  /** `getStatusBadgeVariant`: the five order statuses, compared after
      lowercasing, and "secondary" for a missing or unknown status. */
  function StatusBadge(status: Option<string>): (variant: string)
    ensures variant in {"secondary", "info", "success", "error", "warning"}
    ensures status.None? ==> variant == "secondary"
    ensures status.Some? && Text.Lower(status.value) == "confirmed" ==> variant == "info"
    ensures status.Some? && Text.Lower(status.value) == "shipped" ==> variant == "warning"
    ensures status.Some? && Text.Lower(status.value) == "delivered" ==> variant == "success"
    ensures status.Some? && Text.Lower(status.value) == "cancelled" ==> variant == "error"
    ensures status.Some? && Text.Lower(status.value) !in {"confirmed", "shipped", "delivered", "cancelled"} ==> variant == "secondary"
  {
    if status.None? then "secondary"
    else
      match Text.Lower(status.value)
      case "draft" => "secondary"
      case "confirmed" => "info"
      case "shipped" => "warning"
      case "delivered" => "success"
      case "cancelled" => "error"
      case _ => "secondary"
  }

  /** The badge does not depend on the case of the status. */
  lemma StatusBadgeIgnoresCase(s: string)
    ensures StatusBadge(Some(s)) == StatusBadge(Some(Text.Lower(s)))
  {
    Text.LowerIdempotent(s);
  }

  /** The search of one order: the lowercased term occurs in the lowercased
      Name, order number, customer label or status. */
  predicate MatchesSearch(o: SalesOrder, searchTerm: string) {
    var t := Text.Lower(searchTerm);
    FieldHas(o.name, t) ||
    FieldHas(o.orderNumber, t) ||
    Text.Contains(Text.Lower(CustomerLabel(o.customer)), t) ||
    FieldHas(o.status, t)
  }

  function SearchTest(searchTerm: string): SalesOrder -> bool {
    o => MatchesSearch(o, searchTerm)
  }

  /** `filteredSalesOrders`: an empty term shows every order; any other term
      shows the matching orders in list order. */
  function FilteredSalesOrders(orders: seq<SalesOrder>, searchTerm: string): (r: seq<SalesOrder>)
    ensures searchTerm == "" ==> r == orders
    ensures Lists.IsSubsequence(r, orders)
    ensures searchTerm != "" ==>
              (forall i :: 0 <= i < |r| ==> MatchesSearch(r[i], searchTerm)) &&
              (forall i :: 0 <= i < |orders| && MatchesSearch(orders[i], searchTerm) ==> orders[i] in r)
    ensures searchTerm != "" ==>
              forall x :: multiset(r)[x] == if MatchesSearch(x, searchTerm) then multiset(orders)[x] else 0
  {
    if searchTerm == "" then
      Lists.IsSubsequenceRefl(orders);
      orders
    else
      Lists.FilterMembers(orders, SearchTest(searchTerm));
      Lists.FilterIsSubsequence(orders, SearchTest(searchTerm));
      Lists.FilterMultiplicity(orders, SearchTest(searchTerm));
      Lists.Filter(orders, SearchTest(searchTerm))
  }

  /** An order whose customer lookup carries a Name is found by that name in
      any letter case. */
  lemma FoundByCustomerName(o: SalesOrder)
    requires o.customer.Obj? && o.customer.name != ""
    ensures MatchesSearch(o, Text.Upper(o.customer.name))
  {
    var n := o.customer.name;
    LowerOfUpper(n);
    Text.ContainsSelf(Text.Lower(n));
  }

  lemma LowerOfUpper(s: string)
    ensures Text.Lower(Text.Upper(s)) == Text.Lower(s)
  {
    forall i | 0 <= i < |s| ensures Text.Lower(Text.Upper(s))[i] == Text.Lower(s)[i] {
    }
  }
}
