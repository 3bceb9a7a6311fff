/** The in-memory records the pages receive from the services, after each
    service has mapped the backend's field names. A text field that the backend
    leaves empty is mapped to "", so "" stands for "missing" throughout. */
module Records {
  import opened Optional
  import Text

  datatype Company = Company(
    id: int,
    name: string,
    industry: string,
    address: string,
    city: string,
    state: string,
    zipCode: string,
    phone: string,
    website: string,
    /** 0 stands for a missing count: the service maps both to ''. */
    employeeCount: int,
    companyEmailAddress: string)

  datatype Contact = Contact(
    id: int,
    name: string,
    email: string,
    phone: string,
    company: string,
    position: string,
    status: string,
    dealValue: int,
    notes: string,
    tags: string)

  datatype Deal = Deal(
    id: int,
    title: string,
    value: int,
    stage: string,
    probability: int,
    notes: string,
    status: string,
    /** null when the deal has no contact */
    contactId: Option<int>)

  datatype Activity = Activity(
    id: int,
    activityType: string,
    description: string,
    contactId: Option<int>,
    dealId: Option<int>)

  function CompanyId(c: Company): int { c.id }
  function ContactId(c: Contact): int { c.id }
  function DealId(d: Deal): int { d.id }

  /** `contacts.find(c => c.Id === contactId)`: the first contact whose id is
      the given one; a null id matches no contact. */
  function FindContact(contacts: seq<Contact>, contactId: Option<int>): (r: Option<Contact>)
    ensures r.Some? <==> contactId.Some? && exists i :: 0 <= i < |contacts| && contacts[i].id == contactId.value
    ensures r.Some? ==> exists i :: 0 <= i < |contacts| && contacts[i] == r.value && r.value.id == contactId.value &&
                          forall j :: 0 <= j < i ==> contacts[j].id != contactId.value
  {
    if contactId.None? || contacts == [] then None
    else if contacts[0].id == contactId.value then Some(contacts[0])
    else
      var r := FindContact(contacts[1..], contactId);
      assert forall i :: 1 <= i < |contacts| ==> contacts[i] == contacts[1..][i - 1];
      if r.Some? then
        var i :| 0 <= i < |contacts[1..]| && contacts[1..][i] == r.value && r.value.id == contactId.value &&
                 forall j :: 0 <= j < i ==> contacts[1..][j].id != contactId.value;
        assert contacts[i + 1] == r.value;
        r
      else
        r
  }

  /** A lookup field of a backend record: an object carrying the related
      record's Name ("" when it has none), or anything else (null, an id). */
  datatype Ref = NotObject | Obj(name: string)

  /** The label of a lookup: the placeholder for a non-object, the "unknown"
      text for an object without a Name, its Name otherwise. */
  function RefLabel(r: Ref, missing: string, unknown: string): (text: string)
    ensures r.NotObject? ==> text == missing
    ensures r.Obj? && r.name == "" ==> text == unknown
    ensures r.Obj? && r.name != "" ==> text == r.name
  {
    match r
    case NotObject => missing
    case Obj(name) => if name != "" then name else unknown
  }

  /** `field?.toLowerCase().includes(termLower)`: an optional text field
      contains the lowered term; a missing one never does. */
  predicate FieldHas(field: Option<string>, termLower: string) {
    field.Some? && Text.Contains(Text.Lower(field.value), termLower)
  }
}
