/** The sales-order form: its field map, how a fetched order fills it, the
    field edit, the copy of the billing address to the shipping address, and
    the data it submits. */
module SalesOrderForm {
  import opened Forms

  /** The nine fields, named as the form and the order record name them
      (`Name`, `order_number_c`, `order_date_c`, …). */
  datatype Key =
    | Name | OrderNumber | OrderDate | TotalAmount | Status
    | CustomerId | ShippingAddress | BillingAddress | Description

  const AllKeys: set<Key> :=
    {Name, OrderNumber, OrderDate, TotalAmount, Status, CustomerId, ShippingAddress, BillingAddress, Description}

  lemma AllKeysListed(k: Key)
    ensures k in AllKeys
  {
  }

  function InitialField(k: Key): Entry {
    if k == Status then Text("Draft") else Text("")
  }

  /** The initial `formData`: every field "" except the status, "Draft". */
  function Initial(): (f: map<Key, Entry>)
    ensures f.Keys == AllKeys
    ensures f[Status] == Text("Draft")
    ensures forall k :: k in f && k != Status ==> f[k] == Text("")
  {
    map k | k in AllKeys :: InitialField(k)
  }

  /** One field of the `formData` a fetched order sets: a missing field is "",
      a missing status "Draft", the date its day, the customer its Id. */
  function LoadedField(order: map<Key, Entry>, lookups: map<Key, int>, isoDay: string -> string, k: Key): (e: Entry)
    ensures k == OrderDate ==> e == DateOr(order, k, isoDay)
    ensures k == CustomerId ==> e == LookupOr(lookups, k)
    ensures k == Status ==> e == Or(order, k, "Draft")
    ensures k != OrderDate && k != CustomerId && k != Status ==> e == Or(order, k, "")
  {
    if k == OrderDate then DateOr(order, k, isoDay)
    else if k == CustomerId then LookupOr(lookups, k)
    else if k == Status then Or(order, k, "Draft")
    else Or(order, k, "")
  }

  /** The `formData` a fetched order sets: all nine fields. */
  function Loaded(order: map<Key, Entry>, lookups: map<Key, int>, isoDay: string -> string): (f: map<Key, Entry>)
    ensures f.Keys == AllKeys
  {
    map k | k in AllKeys :: LoadedField(order, lookups, isoDay, k)
  }

  /** A fetched order with every field missing fills the form exactly as it
      starts. */
  lemma EmptyOrderLoadsInitial(isoDay: string -> string)
    ensures Loaded(map[], map[], isoDay) == Initial()
  {
    forall k | k in AllKeys ensures LoadedField(map[], map[], isoDay, k) == InitialField(k) {
    }
  }

  /** `copyBillingToShipping` as a function of the form: the shipping address
      takes the billing address and every other field stays. */
  function CopiedBilling(f: map<Key, Entry>): (r: map<Key, Entry>)
    requires BillingAddress in f
    ensures r.Keys == f.Keys + {ShippingAddress}
    ensures r[ShippingAddress] == f[BillingAddress]
    ensures forall k :: k in f && k != ShippingAddress ==> r[k] == f[k]
  {
    f[ShippingAddress := f[BillingAddress]]
  }

  /** Copying twice is copying once. */
  lemma CopyBillingIdempotent(f: map<Key, Entry>)
    requires BillingAddress in f
    ensures CopiedBilling(CopiedBilling(f)) == CopiedBilling(f)
  {
  }

  /** `submitData`: every field passes through except the order date, which
      is submitted as an ISO timestamp or null. */
  function SubmitData(f: map<Key, Entry>, isValid: string -> bool): (data: map<Key, SubmitValue>)
    requires OrderDate in f && f[OrderDate].Text?
    ensures data.Keys == f.Keys
    ensures forall k :: k in f && k != OrderDate ==> data[k] == Plain(f[k])
    ensures data[OrderDate] == SubmittedDate(f[OrderDate].s, isValid)
  {
    map k | k in f :: if k == OrderDate then SubmittedDate(f[k].s, isValid) else Plain(f[k])
  }

  /** The form state. */
  class Form {
    var formData: map<Key, Entry>

    /** Every field is present and the order date holds text. */
    ghost predicate Valid()
      reads this
    {
      AllKeys <= formData.Keys && formData[OrderDate].Text?
    }

    constructor ()
      ensures formData == Initial() && Valid()
    {
      formData := Initial();
    }

    /** The effect on `salesOrder` when an order is given. */
    method Load(order: map<Key, Entry>, lookups: map<Key, int>, isoDay: string -> string)
      modifies this
      ensures formData == Loaded(order, lookups, isoDay) && Valid()
    {
      formData := Loaded(order, lookups, isoDay);
    }

    /** `handleChange`: the named field takes the input's text and no other
        field changes. */
    method Change(name: Key, value: string)
      requires Valid()
      modifies this
      ensures formData == old(formData)[name := Text(value)] && Valid()
    {
      formData := formData[name := Text(value)];
    }

    /** `copyBillingToShipping` */
    method CopyBillingToShipping()
      requires Valid()
      modifies this
      ensures formData == CopiedBilling(old(formData)) && Valid()
    {
      formData := CopiedBilling(formData);
    }

    /** `handleSubmit`: the data handed to `onSubmit`. */
    method Submit(isValid: string -> bool) returns (data: map<Key, SubmitValue>)
      requires Valid()
      ensures data == SubmitData(formData, isValid)
    {
      data := SubmitData(formData, isValid);
    }
  }
}
