/** The quote form: its field map, how a fetched quote fills it, the field
    edit, the copy of the billing address to the shipping address, and the
    data it submits. */
module QuoteForm {
  import opened Forms

  /** The six parts of an address. */
  datatype Part = AddressName | Street | City | State | Country | Pincode

  /** The twenty fields, named as the form and the quote record name them
      (`Name`, `quote_date_c`, …, `billing_address_city_c`, …). */
  datatype Key =
    | Name | QuoteDate | Status | DeliveryMethod | ExpiresOn
    | CompanyId | ContactId | DealId
    | Billing(part: Part) | Shipping(part: Part)

  const Parts: set<Part> := {AddressName, Street, City, State, Country, Pincode}

  const AllKeys: set<Key> :=
    {Name, QuoteDate, Status, DeliveryMethod, ExpiresOn, CompanyId, ContactId, DealId} +
    (set p | p in Parts :: Billing(p)) + (set p | p in Parts :: Shipping(p))

  lemma PartsListed(p: Part)
    ensures p in Parts
  {
    match p
    case AddressName =>
    case Street =>
    case City =>
    case State =>
    case Country =>
    case Pincode =>
  }

  lemma AllKeysListed(k: Key)
    ensures k in AllKeys
  {
    if k.Billing? || k.Shipping? {
      PartsListed(k.part);
    }
  }

  predicate IsDate(k: Key) { k == QuoteDate || k == ExpiresOn }

  predicate IsLookup(k: Key) { k == CompanyId || k == ContactId || k == DealId }

  /** The initial `formData`: every field "" except the status, "Draft", and
      the delivery method, "Email". */
  function Initial(): (f: map<Key, Entry>)
    ensures f.Keys == AllKeys
    ensures f[Status] == Text("Draft") && f[DeliveryMethod] == Text("Email")
    ensures forall k :: k in f && k != Status && k != DeliveryMethod ==> f[k] == Text("")
  {
    map k | k in AllKeys :: InitialField(k)
  }

  function InitialField(k: Key): Entry {
    if k == Status then Text("Draft") else if k == DeliveryMethod then Text("Email") else Text("")
  }

  /** One field of the `formData` a fetched quote sets: a missing text field
      is "", a missing status "Draft", a missing delivery method "Email", a
      date its day, a lookup its related Id. */
  function LoadedField(quote: map<Key, Entry>, lookups: map<Key, int>, isoDay: string -> string, k: Key): (e: Entry)
    ensures IsDate(k) ==> e == DateOr(quote, k, isoDay)
    ensures IsLookup(k) ==> e == LookupOr(lookups, k)
    ensures k == Status ==> e == Or(quote, k, "Draft")
    ensures k == DeliveryMethod ==> e == Or(quote, k, "Email")
    ensures !IsDate(k) && !IsLookup(k) && k != Status && k != DeliveryMethod ==> e == Or(quote, k, "")
  {
    if IsDate(k) then DateOr(quote, k, isoDay)
    else if IsLookup(k) then LookupOr(lookups, k)
    else if k == Status then Or(quote, k, "Draft")
    else if k == DeliveryMethod then Or(quote, k, "Email")
    else Or(quote, k, "")
  }

  /** The `formData` a fetched quote sets: all twenty fields. */
  function Loaded(quote: map<Key, Entry>, lookups: map<Key, int>, isoDay: string -> string): (f: map<Key, Entry>)
    ensures f.Keys == AllKeys
  {
    map k | k in AllKeys :: LoadedField(quote, lookups, isoDay, k)
  }

  /** A fetched quote with every field missing fills the form exactly as it
      starts. */
  lemma EmptyQuoteLoadsInitial(isoDay: string -> string)
    ensures Loaded(map[], map[], isoDay) == Initial()
  {
    forall k | k in AllKeys ensures LoadedField(map[], map[], isoDay, k) == InitialField(k) {
    }
  }

  /** `copyBillingToShipping` as a function of the form: each shipping field
      takes its billing counterpart and every other field stays. */
  function CopiedBilling(f: map<Key, Entry>): (r: map<Key, Entry>)
    requires AllKeys <= f.Keys
    ensures r.Keys == f.Keys
    ensures forall p :: Billing(p) in f && Shipping(p) in r && r[Shipping(p)] == f[Billing(p)]
    ensures forall k :: k in f && !k.Shipping? ==> r[k] == f[k]
  {
    forall p ensures Billing(p) in f && Shipping(p) in f {
      AllKeysListed(Billing(p));
      AllKeysListed(Shipping(p));
    }
    map k | k in f :: if k.Shipping? then f[Billing(k.part)] else f[k]
  }

  /** Copying twice is copying once. */
  lemma CopyBillingIdempotent(f: map<Key, Entry>)
    requires AllKeys <= f.Keys
    ensures CopiedBilling(CopiedBilling(f)) == CopiedBilling(f)
  {
  }

  /** `submitData`: every field passes through except the two dates, which are
      submitted as ISO timestamps or null. */
  function SubmitData(f: map<Key, Entry>, isValid: string -> bool): (data: map<Key, SubmitValue>)
    requires QuoteDate in f && ExpiresOn in f && f[QuoteDate].Text? && f[ExpiresOn].Text?
    ensures data.Keys == f.Keys
    ensures forall k :: k in f && !IsDate(k) ==> data[k] == Plain(f[k])
    ensures data[QuoteDate] == SubmittedDate(f[QuoteDate].s, isValid)
    ensures data[ExpiresOn] == SubmittedDate(f[ExpiresOn].s, isValid)
  {
    map k | k in f :: if IsDate(k) then SubmittedDate(f[k].s, isValid) else Plain(f[k])
  }

  /** The form state. */
  class Form {
    var formData: map<Key, Entry>

    /** Every field is present and the date fields hold text. */
    ghost predicate Valid()
      reads this
    {
      AllKeys <= formData.Keys && formData[QuoteDate].Text? && formData[ExpiresOn].Text?
    }

    constructor ()
      ensures formData == Initial() && Valid()
    {
      formData := Initial();
    }

    /** The effect on `quote` when a quote is given. */
    method Load(quote: map<Key, Entry>, lookups: map<Key, int>, isoDay: string -> string)
      modifies this
      ensures formData == Loaded(quote, lookups, isoDay) && Valid()
    {
      formData := Loaded(quote, lookups, isoDay);
    }

    /** `handleChange`: the named field takes the input's text and no other
        field changes. */
    method Change(name: Key, value: string)
      requires Valid()
      modifies this
      ensures formData == old(formData)[name := Text(value)] && Valid()
    {
      formData := formData[name := Text(value)];
    }

    /** `copyBillingToShipping` */
    method CopyBillingToShipping()
      requires Valid()
      modifies this
      ensures formData == CopiedBilling(old(formData)) && Valid()
    {
      formData := CopiedBilling(formData);
    }

    /** `handleSubmit`: the data handed to `onSubmit`. */
    method Submit(isValid: string -> bool) returns (data: map<Key, SubmitValue>)
      requires Valid()
      ensures data == SubmitData(formData, isValid)
    {
      data := SubmitData(formData, isValid);
    }
  }
}
