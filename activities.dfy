/** The Activities page: the activity list, the contacts it refers to, a type
    selector ("all" or one activity type) and the search box. */
module Activities {
  import opened Optional
  import Text
  import Lists
  import opened Records

  /** The type filter keeps activities whose type is exactly the selected one. */
  function TypeTest(filterType: string): Activity -> bool {
    (a: Activity) => a.activityType == filterType
  }

  /** The search: the lowercased, untrimmed query occurs in the lowercased
      description, or in the lowercased name of the first contact whose id is
      the activity's contact id. */
  predicate MatchesSearch(a: Activity, contacts: seq<Contact>, searchQuery: string) {
    var q := Text.Lower(searchQuery);
    var contact := FindContact(contacts, a.contactId);
    Text.Contains(Text.Lower(a.description), q) ||
    (contact.Some? && Text.Contains(Text.Lower(contact.value.name), q))
  }

  function SearchTest(contacts: seq<Contact>, searchQuery: string): Activity -> bool {
    a => MatchesSearch(a, contacts, searchQuery)
  }

  /** The activities the page lists: of the selected type unless "all" is
      selected, and matching the query unless it trims to nothing. */
  predicate Kept(a: Activity, contacts: seq<Contact>, searchQuery: string, filterType: string) {
    (filterType != "all" ==> a.activityType == filterType) &&
    (Text.Trim(searchQuery) != "" ==> MatchesSearch(a, contacts, searchQuery))
  }

  function KeepTest(contacts: seq<Contact>, searchQuery: string, filterType: string): Activity -> bool {
    a => Kept(a, contacts, searchQuery, filterType)
  }

  /** The two passes in the page's order. */
  function Narrowed(activities: seq<Activity>, contacts: seq<Contact>, searchQuery: string, filterType: string)
    : seq<Activity>
  {
    var byType := if filterType != "all" then Lists.Filter(activities, TypeTest(filterType)) else activities;
    if Text.Trim(searchQuery) != "" then Lists.Filter(byType, SearchTest(contacts, searchQuery)) else byType
  }

  /** Running the two passes keeps exactly the activities passing both active
      tests, in list order. */
  lemma NarrowedIsKept(activities: seq<Activity>, contacts: seq<Contact>, searchQuery: string, filterType: string)
    ensures Narrowed(activities, contacts, searchQuery, filterType)
         == Lists.Filter(activities, KeepTest(contacts, searchQuery, filterType))
  {
    var keep := KeepTest(contacts, searchQuery, filterType);
    var byType := TypeTest(filterType);
    var bySearch := SearchTest(contacts, searchQuery);
    if filterType != "all" && Text.Trim(searchQuery) != "" {
      Lists.FilterFilter(activities, byType, bySearch, keep);
    } else if filterType != "all" {
      Lists.FilterExt(activities, byType, keep);
    } else if Text.Trim(searchQuery) != "" {
      Lists.FilterExt(activities, bySearch, keep);
    } else {
      Lists.FilterAll(activities, keep);
    }
  }

  /** `filterActivities`: a copy of the list, narrowed to the selected type
      and then by the search, each pass only when it is on. */
  method FilterActivities(activities: seq<Activity>, contacts: seq<Contact>, searchQuery: string, filterType: string)
    returns (filtered: seq<Activity>)
    ensures filtered == Lists.Filter(activities, KeepTest(contacts, searchQuery, filterType))
  {
    filtered := activities;
    if filterType != "all" {
      filtered := Lists.Filter(filtered, TypeTest(filterType));
    }
    if Text.Trim(searchQuery) != "" {
      filtered := Lists.Filter(filtered, SearchTest(contacts, searchQuery));
    }
    assert filtered == Narrowed(activities, contacts, searchQuery, filterType);
    NarrowedIsKept(activities, contacts, searchQuery, filterType);
  }

  /** "all" and a blank query list every activity, in order. */
  lemma InactiveKeepsAll(activities: seq<Activity>, contacts: seq<Contact>, searchQuery: string)
    requires Text.Trim(searchQuery) == ""
    ensures Lists.Filter(activities, KeepTest(contacts, searchQuery, "all")) == activities
  {
    Lists.FilterAll(activities, KeepTest(contacts, searchQuery, "all"));
  }

  /** Every listed activity has the selected type, unless "all" is selected,
      and every activity of that type matching the query is listed. */
  lemma ListedHaveSelectedType(activities: seq<Activity>, contacts: seq<Contact>, searchQuery: string, filterType: string)
    requires filterType != "all"
    ensures var r := Lists.Filter(activities, KeepTest(contacts, searchQuery, filterType));
            (forall i :: 0 <= i < |r| ==> r[i].activityType == filterType) &&
            (forall i :: 0 <= i < |activities| && activities[i].activityType == filterType &&
                         (Text.Trim(searchQuery) != "" ==> MatchesSearch(activities[i], contacts, searchQuery))
                         ==> activities[i] in r)
  {
    Lists.FilterMembers(activities, KeepTest(contacts, searchQuery, filterType));
  }

  /** An activity whose contact id matches no contact can only be found
      through its description. */
  lemma NoContactOnlyDescription(a: Activity, contacts: seq<Contact>, searchQuery: string)
    requires forall i :: 0 <= i < |contacts| ==> a.contactId != Some(contacts[i].id)
    ensures MatchesSearch(a, contacts, searchQuery)
        <==> Text.Contains(Text.Lower(a.description), Text.Lower(searchQuery))
  {
    forall i | 0 <= i < |contacts| && a.contactId.Some?
      ensures contacts[i].id != a.contactId.value
    {
      assert a.contactId != Some(contacts[i].id);
    }
  }

  /** The listed activities are a subsequence of the activity list. */
  lemma FilteredIsSubsequence(activities: seq<Activity>, contacts: seq<Contact>, searchQuery: string, filterType: string)
    ensures Lists.IsSubsequence(Lists.Filter(activities, KeepTest(contacts, searchQuery, filterType)), activities)
  {
    Lists.FilterIsSubsequence(activities, KeepTest(contacts, searchQuery, filterType));
  }

  /** The type pass and the search pass can run in either order. */
  lemma TypeAndSearchCommute(activities: seq<Activity>, contacts: seq<Contact>, searchQuery: string, filterType: string)
    ensures Lists.Filter(Lists.Filter(activities, TypeTest(filterType)), SearchTest(contacts, searchQuery))
         == Lists.Filter(Lists.Filter(activities, SearchTest(contacts, searchQuery)), TypeTest(filterType))
  {
    Lists.FilterCommute(activities, TypeTest(filterType), SearchTest(contacts, searchQuery));
  }

  /** The page's state; its effect keeps the shown list equal to the filtered
      activities. */
  class Page {
    var activities: seq<Activity>
    var contacts: seq<Contact>
    var searchQuery: string
    var filterType: string
    var filteredActivities: seq<Activity>

    ghost predicate Valid()
      reads this
    {
      filteredActivities == Lists.Filter(activities, KeepTest(contacts, searchQuery, filterType))
    }

    constructor ()
      ensures Valid()
      ensures activities == [] && contacts == [] && searchQuery == "" && filterType == "all"
      ensures filteredActivities == []
    {
      activities := [];
      contacts := [];
      searchQuery := "";
      filterType := "all";
      filteredActivities := [];
    }

    /** The effect on `[activities, searchQuery, filterType]`. */
    method Refilter()
      modifies this`filteredActivities
      ensures Valid()
    {
      filteredActivities := FilterActivities(activities, contacts, searchQuery, filterType);
    }

    /** `loadActivities` after both services answered. */
    method Loaded(activitiesData: seq<Activity>, contactsData: seq<Contact>)
      modifies this
      ensures Valid()
      ensures activities == activitiesData && contacts == contactsData
      ensures searchQuery == old(searchQuery) && filterType == old(filterType)
    {
      activities := activitiesData;
      contacts := contactsData;
      Refilter();
    }

    /** `handleSearch` */
    method SetSearch(query: string)
      modifies this
      ensures Valid()
      ensures searchQuery == query && activities == old(activities) && contacts == old(contacts)
      ensures filterType == old(filterType)
    {
      searchQuery := query;
      Refilter();
    }

    /** The type selector. */
    method SetFilterType(value: string)
      modifies this
      ensures Valid()
      ensures filterType == value && activities == old(activities) && contacts == old(contacts)
      ensures searchQuery == old(searchQuery)
    {
      filterType := value;
      Refilter();
    }
  }
}
