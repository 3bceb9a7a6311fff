/** The activity feed: one card per activity with an icon and colour chosen by
    the activity type, the contact's name and the type as a badge label. */
module ActivityFeed {
  import opened Optional
  import Text
  import opened Records

  /** The seven activity types the feed knows. */
  const KnownTypes: set<string> := {"call", "email", "meeting", "note", "deal_created", "deal_updated", "contact_created"}

  /** `getActivityIcon` */
  function Icon(activityType: string): (icon: string)
    ensures activityType !in KnownTypes <==> icon == "Activity"
    ensures activityType == "call" ==> icon == "Phone"
    ensures activityType == "email" ==> icon == "Mail"
    ensures activityType == "meeting" ==> icon == "Calendar"
    ensures activityType == "note" ==> icon == "FileText"
    ensures activityType == "deal_created" ==> icon == "Plus"
    ensures activityType == "deal_updated" ==> icon == "Edit"
    ensures activityType == "contact_created" ==> icon == "UserPlus"
  {
    match activityType
    case "call" => "Phone"
    case "email" => "Mail"
    case "meeting" => "Calendar"
    case "note" => "FileText"
    case "deal_created" => "Plus"
    case "deal_updated" => "Edit"
    case "contact_created" => "UserPlus"
    case _ => "Activity"
  }

  /** Distinct known types get distinct icons. */
  lemma IconsDistinguishKnownTypes(a: string, b: string)
    requires a in KnownTypes && b in KnownTypes && a != b
    ensures Icon(a) != Icon(b)
  {
  }

  /** `getActivityColor` */
  function Color(activityType: string): (color: string)
    ensures activityType !in KnownTypes ==> color == "from-gray-500 to-gray-600"
    ensures activityType in {"deal_created", "deal_updated"} <==> color == "from-indigo-500 to-indigo-600"
  {
    match activityType
    case "call" => "from-blue-500 to-blue-600"
    case "email" => "from-purple-500 to-purple-600"
    case "meeting" => "from-green-500 to-green-600"
    case "note" => "from-yellow-500 to-yellow-600"
    case "deal_created" => "from-indigo-500 to-indigo-600"
    case "deal_updated" => "from-indigo-500 to-indigo-600"
    case "contact_created" => "from-teal-500 to-teal-600"
    case _ => "from-gray-500 to-gray-600"
  }

  /** Apart from the two deal types, which share one, every known type has a
      colour of its own, none of them the default grey. */
  lemma ColorsOfKnownTypes(a: string, b: string)
    requires a in KnownTypes && b in KnownTypes && a != b && {a, b} != {"deal_created", "deal_updated"}
    ensures Color(a) != Color(b)
    ensures Color(a) != "from-gray-500 to-gray-600"
  {
  }

  /** `getContactName`: the name of the first contact with the activity's
      contact id, "Unknown Contact" when there is none. */
  function ContactName(contacts: seq<Contact>, contactId: Option<int>): (name: string)
    ensures FindContact(contacts, contactId).Some? ==> name == FindContact(contacts, contactId).value.name
    ensures (forall i :: 0 <= i < |contacts| ==> Some(contacts[i].id) != contactId) ==> name == "Unknown Contact"
  {
    match FindContact(contacts, contactId)
    case Some(contact) => contact.name
    case None => "Unknown Contact"
  }

  /** The index of the first "_" in s, |s| when there is none. */
  function FirstUnderscore(s: string): (k: nat)
    ensures k <= |s|
    ensures forall j :: 0 <= j < k ==> s[j] != '_'
    ensures k < |s| ==> s[k] == '_'
  {
    if s == [] || s[0] == '_' then 0 else 1 + FirstUnderscore(s[1..])
  }

  /** `s.replace("_", " ")`: a string pattern replaces its first occurrence
      only; a text without "_" is returned as it is. */
  function ReplaceFirstUnderscore(s: string): (r: string)
    ensures |r| == |s|
    ensures forall i :: 0 <= i < |s| ==> r[i] == if i == FirstUnderscore(s) then ' ' else s[i]
  {
    if s == [] then []
    else if s[0] == '_' then " " + s[1..]
    else [s[0]] + ReplaceFirstUnderscore(s[1..])
  }

  lemma NoUnderscoreUnchanged(s: string)
    requires '_' !in s
    ensures ReplaceFirstUnderscore(s) == s
  {
    forall i | 0 <= i < |s| ensures ReplaceFirstUnderscore(s)[i] == s[i] {
      assert s[i] in s;
    }
  }

  /** A text made of a part without "_", a "_" and any rest gets exactly
      that "_" replaced. */
  lemma {:induction false} ReplacesFirstOnly(a: string, b: string)
    requires '_' !in a
    ensures ReplaceFirstUnderscore(a + "_" + b) == a + " " + b
  {
    if a != [] {
      assert (a + "_" + b)[1..] == a[1..] + "_" + b;
      assert a[0] in a;
      ReplacesFirstOnly(a[1..], b);
    }
  }

  /** The badge label: the first "_" becomes a space, then the text is
      uppercased. */
  function TypeLabel(activityType: string): (label_: string)
    ensures |label_| == |activityType|
  {
    Text.Upper(ReplaceFirstUnderscore(activityType))
  }

  /** The label of a type "a_b", where a holds no "_", is a and b uppercased
      around one space; any "_" in b stays ("deal_created" reads "DEAL
      CREATED"). */
  lemma TypeLabelOfSplit(a: string, b: string)
    requires '_' !in a
    ensures TypeLabel(a + "_" + b) == Text.Upper(a) + " " + Text.Upper(b)
  {
    ReplacesFirstOnly(a, b);
    var l := TypeLabel(a + "_" + b);
    var m := Text.Upper(a) + " " + Text.Upper(b);
    forall i | 0 <= i < |l| ensures l[i] == m[i] {
      if i < |a| {
        assert (a + " " + b)[i] == a[i];
      } else if i > |a| {
        assert (a + " " + b)[i] == b[i - |a| - 1];
      }
    }
  }

  /** What one card shows, besides the date. */
  datatype Card = Card(icon: string, color: string, contactName: string, description: string, badge: string)

  function CardOf(a: Activity, contacts: seq<Contact>): Card {
    Card(Icon(a.activityType), Color(a.activityType), ContactName(contacts, a.contactId), a.description, TypeLabel(a.activityType))
  }

  /** `activities.map(...)`: one card per activity, in list order. */
  function Cards(activities: seq<Activity>, contacts: seq<Contact>): (r: seq<Card>)
    ensures |r| == |activities|
    ensures forall i :: 0 <= i < |activities| ==> r[i] == CardOf(activities[i], contacts)
  {
    if activities == [] then []
    else [CardOf(activities[0], contacts)] + Cards(activities[1..], contacts)
  }
}
