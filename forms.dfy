/** What the quote and sales-order forms share: the values a form field holds,
    how a field of a fetched record becomes a form value, and how a date field
    is turned into the value submitted. */
module Forms {
  import Text

  /** A form value: the text an input holds, or a number carried over from the
      fetched record (a lookup's Id, an amount). */
  datatype Entry = Text(s: string) | Number(n: int)

  /** The falsy form values: the empty text and 0. */
  predicate Falsy(e: Entry) {
    e == Text("") || e == Number(0)
  }

  /** `record[key] || fallback`, where a key absent from the record is null. */
  function Or<K>(record: map<K, Entry>, key: K, fallback: string): (e: Entry)
    ensures key in record && !Falsy(record[key]) ==> e == record[key]
    ensures key !in record || Falsy(record[key]) ==> e == Text(fallback)
  {
    if key in record && !Falsy(record[key]) then record[key] else Text(fallback)
  }

  /** `record[key]?.Id || ""`: lookups maps a lookup field to the Id of the
      related object; an absent key is a null lookup. */
  function LookupOr<K>(lookups: map<K, int>, key: K): (e: Entry)
    ensures key in lookups && lookups[key] != 0 ==> e == Number(lookups[key])
    ensures key !in lookups || lookups[key] == 0 ==> e == Text("")
  {
    if key in lookups && lookups[key] != 0 then Number(lookups[key]) else Text("")
  }

  /** `record[key] ? new Date(record[key]).toISOString().split("T")[0] : ""`
      for a date stored as text; the host's date conversion is isoDay. */
  function DateOr<K>(record: map<K, Entry>, key: K, isoDay: string -> string): (e: Entry)
    ensures e.Text?
    ensures key !in record || record[key] == Text("") ==> e == Text("")
  {
    if key in record && record[key].Text? && record[key].s != "" then Text(isoDay(record[key].s)) else Text("")
  }

  /** A submitted value: a form value passed through, null, or a date text
      the host converts to an ISO timestamp. */
  datatype SubmitValue = Plain(entry: Entry) | Null | Iso(raw: string)

  /** `isValidDate(s) ? new Date(s).toISOString() : null`, where the host's
      date parser accepts the texts isValid holds for: a text that trims to
      nothing is null whatever the parser says. */
  function SubmittedDate(s: string, isValid: string -> bool): (v: SubmitValue)
    ensures v != Plain(Text(s))
    ensures Text.IsBlank(s) ==> v == Null
    ensures v.Iso? <==> !Text.IsBlank(s) && isValid(s)
    ensures v.Iso? ==> v.raw == s
  {
    Text.TrimEmptyIffBlank(s);
    if s == "" || Text.Trim(s) == "" then Null
    else if isValid(s) then Iso(s)
    else Null
  }

  /** A date of spaces and tabs is submitted as null, whatever the host's
      parser would make of it. */
  lemma BlankDateIsNullForAnyParser(s: string, isValid: string -> bool)
    requires forall i :: 0 <= i < |s| ==> s[i] == ' ' || s[i] == '\t'
    ensures SubmittedDate(s, isValid) == Null
  {
  }
}
