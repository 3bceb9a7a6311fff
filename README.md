# nexus-dash CRM client core, modelled in Dafny

This project models the client-side logic of the nexus-dash CRM front end.
That logic is the list processing and UI state in its pages and organisms:

- the filter panel, with its ten-key filter map and its saved views mirrored to `localStorage`;
- the search and filter evaluators of the Companies, Contacts, Activities, Quotes and Sales Orders pages, and the list updates that follow a create, an update or a delete;
- the company and contact tables, with their sort state, their comparator and their colour mappings;
- the pipeline board and page: six stage columns, per-stage sums, the drag-and-drop rule, and the deal list updates;
- the Dashboard figures;
- the activity feed's icon, colour and badge label;
- the quote and sales-order forms: defaults, editing, copying billing to shipping, and dates on submit;
- the authentication slice of the store and the header's user initials and display name.

Each page, organism or slice is one module. Where the source updates component state, the module has a class whose fields are that state and whose methods are the handlers, proved against functions of the old state. Filters and sums are functions over sequences, with lemmas.

- `Lists` holds what the pages share: filter, remove-by-Id, replace-by-Id, sum, and a stable insertion sort that stands for `Array.prototype.sort`.
- `Text` holds the JavaScript string operations the pages call.
- `Records` holds the fetched records.
- `Sorting` holds the table sort state.
- `Forms` holds the helpers the two forms share.

The host's `localeCompare`, its `Date` parser and its ISO-day conversion are parameters of the model (`collate`, `isValid`, `isoDay`). The sort is proved sorted and stable only for a `collate` that behaves like a collation (`Sorting.IsCollation`). Service calls are not modelled: each handler that follows a call takes the call's outcome as a parameter.

## Model

| member | source | states |
|---|---|---|
| FilterPanel.KeyOrderListsEveryKey | src/components/molecules/FilterPanel.jsx:18-30 | The panel's declared key order lists each of the ten filter keys. |
| FilterPanel.EmptyFilters | src/components/molecules/FilterPanel.jsx:74-86 | The cleared filter map holds "" under every key it has. |
| FilterPanel.ClearedHasNoActiveFilters | src/components/molecules/FilterPanel.jsx:74-90 | After clearing, `hasActiveFilters` is false. |
| FilterPanel.HasActiveFilters | src/components/molecules/FilterPanel.jsx:90 | An active filter needs some key, and a map of empty values has none active. ActiveFiltersNonEmptyIffHasActive ties it to the map handed on. |
| FilterPanel.ActiveFilters | src/components/molecules/FilterPanel.jsx:57-65 | The map handed to `onFiltersChange` holds exactly the keys whose value is non-empty, with their values. |
| FilterPanel.ActiveFiltersNonEmptyIffHasActive | src/components/molecules/FilterPanel.jsx:57-65 | `hasActiveFilters` holds iff the map handed to `onFiltersChange` is non-empty. |
| FilterPanel.BadgeCountIsActiveCount | src/components/molecules/FilterPanel.jsx:232-236 | The badge number equals the number of keys `onFiltersChange` receives. |
| FilterPanel.CountNonEmptyValues | src/components/molecules/FilterPanel.jsx:232-236 | Over distinct keys, counting the non-empty values counts the distinct keys with a non-empty value. |
| FilterPanel.LoadViews | src/components/molecules/FilterPanel.jsx:38-48 | A stored list replaces the saved views. A missing key leaves them as they were, and so does text that does not parse. |
| FilterPanel.Storage.constructor | src/components/molecules/FilterPanel.jsx:51-54 | The key-value store starts with the given items. |
| FilterPanel.Panel.constructor | src/components/molecules/FilterPanel.jsx:17-48 | Mounting gives the ten keys at "" overlaid with the initial filters, and the views loaded from `${type}_saved_views`. Nothing is active or being edited. |
| FilterPanel.Panel.ChangeFilter | src/components/molecules/FilterPanel.jsx:69-72 | Only the named key changes, and the active view is cleared. |
| FilterPanel.Panel.ClearFilters | src/components/molecules/FilterPanel.jsx:74-88 | All ten keys become "" and the active view is cleared. Nothing else changes. |
| FilterPanel.Panel.SetNewViewName | src/components/molecules/FilterPanel.jsx:394 | The view-name input sets `newViewName`. |
| FilterPanel.Panel.OpenSaveModal | src/components/molecules/FilterPanel.jsx:246-250 | The save modal opens only while some filter is active. |
| FilterPanel.Panel.SaveView | src/components/molecules/FilterPanel.jsx:92-124 | The view is saved iff the trimmed name is non-empty. A blank name changes neither the list nor the storage. A save writes the new list under `${type}_saved_views` and resets the modal. |
| FilterPanel.Panel.ApplyView | src/components/molecules/FilterPanel.jsx:126-130 | The filters become exactly the view's filters, and the view's id becomes active. |
| FilterPanel.Panel.DeleteView | src/components/molecules/FilterPanel.jsx:132-140 | Every view with that id is removed and the others stay in order. The new list is written to storage. The active view is cleared only if it was that id. |
| FilterPanel.Panel.EditView | src/components/molecules/FilterPanel.jsx:142-146 | The modal opens on that view with its name filled in. |
| FilterPanel.Panel.CloseModal | src/components/molecules/FilterPanel.jsx:423-428 | Cancel closes the modal and resets the name and the edited view. |
| FilterPanel.SavedList | src/components/molecules/FilterPanel.jsx:98-118 | With no view being edited, the new view is appended. Otherwise each view with the edited id is replaced in place by the new name and filters, keeping its id and `createdAt`. The length is unchanged. |
| FilterPanel.SavedListKeepsIds | src/components/molecules/FilterPanel.jsx:98-118 | A save keeps every listed id listed. |
| FilterPanel.SaveNewViewListsIt | src/components/molecules/FilterPanel.jsx:114-118 | Saving a new view adds exactly one view and lists its id. |
| FilterPanel.SaveOverUnknownIdKeepsList | src/components/molecules/FilterPanel.jsx:105-112 | Saving over an id that no view has leaves the list unchanged. |
| Companies.NarrowStep | src/components/pages/Companies.jsx:49-92 | Running one more stage on what passed the earlier stages keeps what passes one stage more. |
| Companies.NarrowedIsKept | src/components/pages/Companies.jsx:49-92 | Running the five stages in the page's order keeps exactly the companies that pass every active test. |
| Companies.FilterCompanies | src/components/pages/Companies.jsx:49-92 | The five passes, in the page's order, yield exactly the companies passing the conjunction of the active tests, in order. |
| Companies.AllStagesIsKept | src/components/pages/Companies.jsx:49-92 | Passing all five stages is the conjunction the page applies. |
| Companies.InactiveKeepsAll | src/components/pages/Companies.jsx:50-92 | A blank query with none of the four keys set lists every company, in order. |
| Companies.FilteredIsSubsequence | src/components/pages/Companies.jsx:50-92 | The listed companies are a subsequence of the company list. |
| Companies.StagesCommute | src/components/pages/Companies.jsx:49-92 | Any two stages give the same result in either order. |
| Companies.OtherKeysIgnored | src/components/pages/Companies.jsx:67-91 | Changing any filter key other than industry, city, state or company does not change the result. |
| Companies.PaddedQueryMisses | src/components/pages/Companies.jsx:53-64 | The query " acme" makes the search run, and the search misses a company named "Acme". |
| Companies.PaddedQueryIsNotBlank | src/components/pages/Companies.jsx:53 | " acme" does not trim to nothing. |
| Companies.PlainQueryHits | src/components/pages/Companies.jsx:54-57 | "acme" finds the company named "Acme". |
| Companies.Page.constructor | src/components/pages/Companies.jsx:19-26 | The page starts with no companies, an empty query and no filters. The listed companies are the filtered list. |
| Companies.Page.Refilter | src/components/pages/Companies.jsx:32-92 | After the effect, the listed companies equal the filtered list. |
| Companies.Page.Loaded | src/components/pages/Companies.jsx:36-41 | The list becomes the fetched data, and the query and filters stay. |
| Companies.Page.SetSearch | src/components/pages/Companies.jsx:99-101 | Only the query changes. |
| Companies.Page.SetFilters | src/components/pages/Companies.jsx:95-97 | Only the active filters change. |
| Companies.Page.Deleted | src/components/pages/Companies.jsx:117-120 | Exactly the companies with the deleted Id are removed. |
| Companies.Page.Updated | src/components/pages/Companies.jsx:129-131 | Companies whose Id matches are replaced by the update. |
| Companies.Page.Created | src/components/pages/Companies.jsx:133-135 | The created company is appended at the end. |
| Contacts.FilterContacts | src/components/pages/Contacts.jsx:45-59 | A query that trims to nothing lists every contact. Otherwise a contact is kept iff the lowercased, untrimmed query occurs in its lowercased name, email, company or phone. The result is a subsequence of the input. Each kept record appears as often as in the input, and no other record appears. |
| Contacts.Page.constructor | src/components/pages/Contacts.jsx:16-22 | The page starts empty, and the listed contacts are the filtered list. |
| Contacts.Page.Refilter | src/components/pages/Contacts.jsx:28-59 | After the effect, the listed contacts equal the filtered list. |
| Contacts.Page.Loaded | src/components/pages/Contacts.jsx:32-37 | The list becomes the fetched data. |
| Contacts.Page.SetSearch | src/components/pages/Contacts.jsx:62-64 | Only the query changes. |
| Contacts.Page.Deleted | src/components/pages/Contacts.jsx:76-79 | Exactly the contacts with the deleted Id are removed. |
| Contacts.Page.Updated | src/components/pages/Contacts.jsx:87-89 | Contacts whose Id matches are replaced, and the length is unchanged. |
| Contacts.Page.Created | src/components/pages/Contacts.jsx:91-93 | The created contact is appended at the end. |
| Activities.NarrowedIsKept | src/components/pages/Activities.jsx:48-66 | The type pass followed by the search pass keeps exactly the activities passing both active tests. |
| Activities.FilterActivities | src/components/pages/Activities.jsx:48-66 | The method's two optional passes yield exactly the activities of the selected type that match the search, in order. |
| Activities.InactiveKeepsAll | src/components/pages/Activities.jsx:48-66 | "all" with a blank query lists every activity, in order. |
| Activities.ListedHaveSelectedType | src/components/pages/Activities.jsx:51-53 | With a type other than "all", every listed activity has exactly that type. |
| Activities.NoContactOnlyDescription | src/components/pages/Activities.jsx:55-64 | An activity whose contact id matches no contact is found iff its description contains the query. |
| Activities.FilteredIsSubsequence | src/components/pages/Activities.jsx:49-66 | The listed activities are a subsequence of the input. |
| Activities.TypeAndSearchCommute | src/components/pages/Activities.jsx:49-66 | The type pass and the search pass give the same result in either order. |
| Activities.Page.constructor | src/components/pages/Activities.jsx:15-21 | The page starts empty with type "all", and the listed activities are the filtered list. |
| Activities.Page.Refilter | src/components/pages/Activities.jsx:27-66 | After the effect, the listed activities equal the filtered list. |
| Activities.Page.Loaded | src/components/pages/Activities.jsx:31-40 | The activities and contacts become the fetched data. |
| Activities.Page.SetSearch | src/components/pages/Activities.jsx:69-71 | Only the query changes. |
| Activities.Page.SetFilterType | src/components/pages/Activities.jsx:110 | Only the selected type changes. |
| Records.FindContact | src/components/pages/Activities.jsx:58 | `find` returns the first contact with the given Id, and nothing iff there is none. |
| Records.RefLabel | src/components/pages/Quotes.jsx:114-127 | A non-object gives the "No …" label, an object without Name gives the "Unknown …" label, and otherwise the label is the Name. |
| Quotes.LabelsNeverEmpty | src/components/pages/Quotes.jsx:114-127 | The company, contact and deal labels are never empty. |
| Quotes.CompanyLabel | src/components/pages/Quotes.jsx:114-117 | The company label is never empty, and it is the company's Name whenever the lookup has one. |
| Quotes.ContactLabel | src/components/pages/Quotes.jsx:119-122 | The contact label is never empty, and it is the contact's Name whenever the lookup has one. |
| Quotes.DealLabel | src/components/pages/Quotes.jsx:124-127 | The deal label is never empty, and it is the deal's Name whenever the lookup has one. |
| Quotes.StatusBadge | src/components/pages/Quotes.jsx:103-112 | Sent maps to info, accepted to success, rejected to error and expired to warning, compared case-insensitively. Anything else, and a missing status, maps to secondary. |
| Quotes.StatusBadgeIgnoresCase | src/components/pages/Quotes.jsx:103-104 | The variant depends only on the lowercased status. |
| Quotes.FilteredQuotes | src/components/pages/Quotes.jsx:129-138 | An empty term lists every quote. Otherwise a quote is kept iff the lowercased term occurs in its Name, company label, contact label or status, where a missing Name or status never matches. The result is a subsequence of the input. Each kept record appears as often as in the input, and no other record appears. |
| Quotes.NoCompanyPlaceholderIsSearched | src/components/pages/Quotes.jsx:114-137 | A quote without a company matches "no company". |
| Quotes.SpacesAreNotBlank | src/components/pages/Quotes.jsx:129-137 | A term of one space is an ordinary search, and it misses a quote with no space in any searched text. |
| Quotes.NoSpaceIn | src/components/pages/Quotes.jsx:131-137 | A text without spaces, once lowercased, contains no space. |
| SalesOrders.StatusBadge | src/components/pages/SalesOrders.jsx:95-104 | Confirmed maps to info, shipped to warning, delivered to success and cancelled to error, compared case-insensitively. Anything else maps to secondary. |
| SalesOrders.StatusBadgeIgnoresCase | src/components/pages/SalesOrders.jsx:95-96 | The variant depends only on the lowercased status. |
| SalesOrders.CustomerLabel | src/components/pages/SalesOrders.jsx:106-109 | The customer label is never empty, and it is the customer's Name whenever the lookup has one. |
| SalesOrders.FilteredSalesOrders | src/components/pages/SalesOrders.jsx:111-120 | An empty term lists every order. Otherwise an order is kept iff the lowercased term occurs in its Name, order number, customer label or status. The result is a subsequence of the input. Each kept record appears as often as in the input, and no other record appears. |
| SalesOrders.FoundByCustomerName | src/components/pages/SalesOrders.jsx:106-119 | An order is found by its customer's name typed in upper case. |
| SalesOrders.LowerOfUpper | src/components/pages/SalesOrders.jsx:113 | Lowercasing an uppercased text gives the lowercased text. |
| Sorting.NextSort | src/components/organisms/CompanyTable.jsx:12-19 | Clicking the sorted field flips the direction. Clicking another field selects it in ascending order. |
| Sorting.ClickTwiceRestores | src/components/organisms/CompanyTable.jsx:12-19 | Two clicks on the sorted field restore the sort state. |
| Sorting.NewFieldStartsAscending | src/components/organisms/ContactTable.jsx:15-22 | A new field always starts ascending. |
| Sorting.SortState.constructor | src/components/organisms/CompanyTable.jsx:9-10 | The sort state starts on the given field, ascending. |
| CompanyTable.NewSortState | src/components/organisms/CompanyTable.jsx:9-10 | The company table mounts sorted by name, ascending. |
| ContactTable.NewSortState | src/components/organisms/ContactTable.jsx:12-13 | The contact table mounts sorted by name, ascending. |
| Sorting.SortState.HandleSort | src/components/organisms/ContactTable.jsx:15-22 | `handleSort` moves the state to the next sort state. |
| Sorting.Difference | src/components/organisms/CompanyTable.jsx:47-48 | The difference of two numbers is their arithmetic difference. It is 0 when either side is not a number. |
| Sorting.DifferenceAntisymmetric | src/components/organisms/CompanyTable.jsx:47-48 | Swapping the operands negates the difference. |
| Sorting.KeyedConsistent | src/components/organisms/CompanyTable.jsx:40-50 | A comparator that collates a text key in either direction orders its input consistently. |
| Sorting.RankedConsistent | src/components/organisms/CompanyTable.jsx:40-50 | A comparator that agrees in sign with an integer rank orders its input consistently. |
| Lists.Filter | src/components/pages/Companies.jsx:55-63 | `filter` never lengthens the list. |
| Lists.FilterMembers | src/components/pages/Companies.jsx:55-63 | An element is kept iff it is in the list and passes the test. |
| Lists.FilterMultiplicity | src/components/pages/Companies.jsx:55-63 | A filter keeps every copy of an element the test accepts and no copy of any other. |
| Lists.FilterIsSubsequence | src/components/pages/Companies.jsx:50-92 | `filter` yields a subsequence, in order. |
| Lists.FilterAll | src/components/pages/Companies.jsx:50-53 | A test every element passes keeps the whole list. |
| Lists.FilterFilter | src/components/pages/Companies.jsx:66-90 | Two filters in a row are one filter by the conjunction. |
| Lists.FilterCommute | src/components/pages/Companies.jsx:66-90 | Two filters commute. |
| Lists.FilterIdempotent | src/components/pages/Companies.jsx:55-63 | Filtering twice by one test is filtering once. |
| Lists.RemoveById | src/components/pages/Companies.jsx:120 | Every kept record comes from the list and has another Id, and every record with another Id is kept. |
| Lists.RemoveByIdIdempotent | src/components/pages/Contacts.jsx:79 | Deleting an Id twice is deleting it once, and deleting an absent Id changes nothing. The result is a subsequence of the list, in order. |
| Lists.ReplaceById | src/components/pages/Companies.jsx:131 | The length is unchanged. Records whose Id matches become the update and the others stay. |
| Lists.ReplaceUnknownId | src/components/pages/Pipeline.jsx:58 | Replacing an Id that no record has changes nothing. |
| Lists.FilterExt | src/components/pages/Companies.jsx:66-90 | Two tests that agree on the list filter it alike. |
| Lists.FilterAppend | src/components/pages/Pipeline.jsx:81 | Filtering a concatenation filters each part. |
| Lists.FilterNone | src/components/organisms/PipelineBoard.jsx:27-29 | A test nothing passes keeps nothing. |
| Lists.SumNonNegative | src/components/pages/Pipeline.jsx:102 | A sum of non-negative values is non-negative. |
| Lists.SumAppend | src/components/pages/Pipeline.jsx:102 | The sum of a concatenation is the sum of the parts. |
| Lists.SumFilter | src/components/pages/Dashboard.jsx:49-51 | Summing over a filtered list is summing the masked value over the whole list. |
| Lists.SumOfOnes | src/components/pages/Dashboard.jsx:53-55 | Summing one per element gives the length. |
| Lists.SortBy | src/components/organisms/CompanyTable.jsx:40 | The sorted copy is a permutation of the input. |
| Lists.SortBySorted | src/components/organisms/CompanyTable.jsx:40-50 | With a consistent comparator, the sorted copy is sorted. |
| Lists.SortByStable | src/components/organisms/CompanyTable.jsx:40-50 | Elements that compare equal keep their input order. |
| CompanyTable.SortableColumns | src/components/organisms/CompanyTable.jsx:52-61 | Exactly phone, website and email are not sortable. |
| CompanyTable.HeaderClick | src/components/organisms/CompanyTable.jsx:75 | A sortable column moves the sort state on. Any other column leaves it unchanged. |
| CompanyTable.OrEmpty | src/components/organisms/CompanyTable.jsx:41-42 | Falsy values, 0 included, become "". Others are unchanged. |
| CompanyTable.SortedCompanies | src/components/organisms/CompanyTable.jsx:40 | The sorted list is a permutation of the input copy. |
| CompanyTable.DescendingIsReversed | src/components/organisms/CompanyTable.jsx:44-49 | The descending comparison is the negated ascending one. |
| CompanyTable.Compare | src/components/organisms/CompanyTable.jsx:40-50 | A text column collates the two cells' texts, negated for descending. Two non-zero employee counts compare by their difference, with the operands swapped for descending. The ordering this induces is stated by DescendingIsReversed, TextColumnSorted and CountComparison. |
| CompanyTable.TextColumnSorted | src/components/organisms/CompanyTable.jsx:40-50 | A text column is sorted by the collation, and ties keep input order. |
| CompanyTable.EmployeeCountSorted | src/components/organisms/CompanyTable.jsx:40-50 | With empty text collating first, the employee-count column is sorted by its rank, and ties keep input order. |
| CompanyTable.CountComparison | src/components/organisms/CompanyTable.jsx:41-49 | For non-negative counts, with empty text collating first, the ascending comparison is negative iff the first count is smaller. It is zero iff the counts are equal. A count of 0 is compared as "". |
| CompanyTable.IndustryColor | src/components/organisms/CompanyTable.jsx:27-38 | The seven industries map to their colours, and anything else maps to 'default'. |
| CompanyTable.IndustryColorIsVariant | src/components/organisms/CompanyTable.jsx:27-38 | Every colour is one of the Badge variants listed. |
| CompanyTable.WebsiteHref | src/components/organisms/CompanyTable.jsx:142 | A website starting with "http" is kept, and any other gets "https://" prefixed. The href always starts with "http". |
| CompanyTable.WebsiteHrefIdempotent | src/components/organisms/CompanyTable.jsx:142 | Normalising twice is normalising once. |
| ContactTable.HeaderClick | src/components/organisms/ContactTable.jsx:61-71 | Every header, phone included, moves the sort state on. |
| ContactTable.SortedContacts | src/components/organisms/ContactTable.jsx:24 | The sorted list is a permutation of the input copy. |
| ContactTable.DescendingIsReversed | src/components/organisms/ContactTable.jsx:25-32 | With modifier −1, the comparison is the negated ascending one. |
| ContactTable.Compare | src/components/organisms/ContactTable.jsx:24-33 | A text column collates the two cells' texts, and the deal-value column takes the difference of the values. Either result is multiplied by the modifier. The ordering is stated by DescendingIsReversed, DealValueComparison and SortedAndStable. |
| ContactTable.DealValueComparison | src/components/organisms/ContactTable.jsx:25-32 | Deal values compare by (a − b) × modifier. |
| ContactTable.SortedAndStable | src/components/organisms/ContactTable.jsx:24-33 | Every column sorts by its key in the chosen direction, and ties keep input order. |
| ContactTable.StatusColor | src/components/organisms/ContactTable.jsx:42-53 | Active maps to success and Lead to info, each iff. Everything else maps to default. |
| PipelineBoard.StagesAreDistinct | src/components/organisms/PipelineBoard.jsx:9 | There are six distinct stages. |
| PipelineBoard.DealsByStageExact | src/components/organisms/PipelineBoard.jsx:27-29 | A column holds exactly the deals in that stage, in input order. |
| PipelineBoard.DealsByStage | src/components/organisms/PipelineBoard.jsx:27-29 | A column is no longer than the list, and every deal in it has the column's stage. DealsByStageExact adds that it holds every such deal, in order. |
| PipelineBoard.StageValue | src/components/organisms/PipelineBoard.jsx:46-49 | An empty column is worth 0. |
| PipelineBoard.StageValueOverAllDeals | src/components/organisms/PipelineBoard.jsx:46-49 | A column's value is the sum of `value` over the deals in that stage. |
| PipelineBoard.ColumnSumStep | src/components/organisms/PipelineBoard.jsx:27-49 | A column's sum splits into the head's share and the rest. |
| PipelineBoard.StagesTotalStep | src/components/organisms/PipelineBoard.jsx:53-55 | Over distinct stages, the columns' total splits into the head's share and the rest. |
| PipelineBoard.StagesTotalOfNoDeals | src/components/organisms/PipelineBoard.jsx:53-55 | With no deals, every column total is 0. |
| PipelineBoard.StagesTotalIsListedTotal | src/components/organisms/PipelineBoard.jsx:27-55 | Over distinct stages, the column totals add up to the total of the deals in those stages. |
| PipelineBoard.ColumnCountTotalIsStagesTotal | src/components/organisms/PipelineBoard.jsx:53-54 | The column counts are the column totals of one per deal. |
| PipelineBoard.ColumnCountsCoverDeals | src/components/organisms/PipelineBoard.jsx:9-29 | The six columns hold at most all deals, and exactly all when every stage is one of the six. |
| PipelineBoard.ColumnValuesAddUp | src/components/organisms/PipelineBoard.jsx:46-55 | When every stage is one of the six, the column values add up to the value of all deals. |
| PipelineBoard.ContactName | src/components/organisms/PipelineBoard.jsx:22-25 | The name of the first contact with the Id, or "Unknown". |
| PipelineBoard.StageChangeOnDrop | src/components/organisms/PipelineBoard.jsx:39-42 | A stage change is requested iff a deal is dragged and its stage differs from the target. The request carries the deal's Id and the target. |
| PipelineBoard.Board.constructor | src/components/organisms/PipelineBoard.jsx:20 | Nothing is dragged at first. |
| PipelineBoard.Board.DragStart | src/components/organisms/PipelineBoard.jsx:31-33 | The dragged deal is set. |
| PipelineBoard.Board.Drop | src/components/organisms/PipelineBoard.jsx:39-44 | The drop makes the call the drop rule gives, and the dragged deal is then null. |
| Pipeline.OpenDeals | src/components/pages/Pipeline.jsx:36 | The open deals never outnumber the fetched deals. |
| Pipeline.OpenDealsExact | src/components/pages/Pipeline.jsx:36 | The list holds exactly the fetched deals with status "Open", in order. |
| Pipeline.TotalValueIsBoardValue | src/components/pages/Pipeline.jsx:102 | When every stage is one of the six, `totalValue` equals the board's column values added up. |
| Pipeline.TotalValue | src/components/pages/Pipeline.jsx:102 | No deals are worth 0, and non-negative deal values give a non-negative total. TotalValueIsBoardValue and TotalValueAfterCreate relate it to the board and to a create. |
| Pipeline.TotalValueAfterCreate | src/components/pages/Pipeline.jsx:80-102 | Appending a created deal adds its value to `totalValue`. |
| Pipeline.AvgDealSize | src/components/pages/Pipeline.jsx:103 | The average is 0 iff there are no deals. Otherwise it is the total over the count. |
| Pipeline.Page.constructor | src/components/pages/Pipeline.jsx:17-22 | The page starts empty with the modal closed. |
| Pipeline.Page.Loaded | src/components/pages/Pipeline.jsx:36-37 | The deals become the open fetched deals, and the contacts become the fetched contacts. |
| Pipeline.Page.AddDeal | src/components/pages/Pipeline.jsx:45-48 | The modal opens with no deal selected. |
| Pipeline.Page.DealClick | src/components/pages/Pipeline.jsx:50-53 | The modal opens on the clicked deal. |
| Pipeline.Page.StageChanged | src/components/pages/Pipeline.jsx:55-71 | Success replaces the deals with the returned Id and logs "deal_updated" with "Deal moved to <stage> stage". Failure changes nothing. |
| Pipeline.Page.Submitted | src/components/pages/Pipeline.jsx:73-97 | An edit replaces by Id. A create appends and logs "deal_created". A successful save closes the modal and clears the selection. A create whose activity log fails keeps the appended deal but leaves the modal open and the selection set. A failed save changes nothing. |
| Dashboard.RecentActivities | src/components/pages/Dashboard.jsx:38 | The result is the first six activities, or all of them, in order. |
| Dashboard.TotalPipelineValueCountsOpenDeals | src/components/pages/Dashboard.jsx:49-51 | The pipeline value sums the value of the open deals only. With non-negative values it lies between 0 and the value of all deals. |
| Dashboard.TotalPipelineValue | src/components/pages/Dashboard.jsx:49-51 | With no open deal, the pipeline value is 0. TotalPipelineValueCountsOpenDeals gives the value in general. |
| Dashboard.MaskedSumBounds | src/components/pages/Dashboard.jsx:49-51 | For non-negative values, a masked sum lies between 0 and the full sum. |
| Dashboard.WonDeals | src/components/pages/Dashboard.jsx:53 | The won count lies between 0 and the number of deals. |
| Dashboard.OpenDealCount | src/components/pages/Dashboard.jsx:54 | The open count lies between 0 and the number of deals. |
| Dashboard.ActiveContacts | src/components/pages/Dashboard.jsx:55 | The active count lies between 0 and the number of contacts. |
| Dashboard.CountsCountQualifying | src/components/pages/Dashboard.jsx:53-55 | Each count is one per deal in "Closed Won" whatever its status, one per "Open" deal, and one per "Active" contact. |
| Dashboard.StageCounts | src/components/pages/Dashboard.jsx:57-64 | There is one entry per stage, in order, each with that stage's deal count. |
| Dashboard.ClosedWonBarIsWonDeals | src/components/pages/Dashboard.jsx:53-64 | There are six bars, and the "Closed Won" bar equals `wonDeals`. |
| Dashboard.DealsByStage | src/components/pages/Dashboard.jsx:57-64 | One bar per stage, in the board's order, each counting between 0 and all of the deals. ClosedWonBarIsWonDeals and DealsByStageAddsUp tie the bars to the won figure and to the deal count. |
| Dashboard.StageCountsTotal | src/components/pages/Dashboard.jsx:57-64 | The chart counts add up to the board's column counts. |
| Dashboard.DealsByStageAddsUp | src/components/pages/Dashboard.jsx:57-64 | The six counts add up to at most the number of deals, and exactly that when every stage is one of the six. |
| ActivityFeed.Icon | src/components/organisms/ActivityFeed.jsx:7-26 | The seven known types map to their icons, and any other type maps to "Activity". |
| ActivityFeed.IconsDistinguishKnownTypes | src/components/organisms/ActivityFeed.jsx:7-26 | Distinct known types get distinct icons. |
| ActivityFeed.Color | src/components/organisms/ActivityFeed.jsx:28-46 | deal_created and deal_updated, and only they, get indigo. Unknown types get gray. |
| ActivityFeed.ColorsOfKnownTypes | src/components/organisms/ActivityFeed.jsx:28-46 | Apart from the two deal types, distinct known types get distinct colours, none of them gray. |
| ActivityFeed.ContactName | src/components/organisms/ActivityFeed.jsx:48-51 | The name of the first contact with the Id, or "Unknown Contact". |
| ActivityFeed.FirstUnderscore | src/components/organisms/ActivityFeed.jsx:77 | The result is the index of the first "_", or the length when there is none. |
| ActivityFeed.ReplaceFirstUnderscore | src/components/organisms/ActivityFeed.jsx:77 | Only the first "_" becomes a space, and every other character is kept. |
| ActivityFeed.NoUnderscoreUnchanged | src/components/organisms/ActivityFeed.jsx:77 | A type without "_" is unchanged. |
| ActivityFeed.ReplacesFirstOnly | src/components/organisms/ActivityFeed.jsx:77 | In a+"_"+b, where a has no "_", exactly that "_" is replaced. |
| ActivityFeed.TypeLabel | src/components/organisms/ActivityFeed.jsx:77 | The label has the type's length. |
| ActivityFeed.TypeLabelOfSplit | src/components/organisms/ActivityFeed.jsx:77 | The label of "a_b" is A + " " + B, with a later "_" kept ("deal_created" gives "DEAL CREATED"). |
| ActivityFeed.Cards | src/components/organisms/ActivityFeed.jsx:55-79 | There is one card per activity, in input order. |
| Forms.Or | src/components/organisms/QuoteForm.jsx:32-36 | `record[key] \|\| fallback`: a falsy or missing value gives the fallback. |
| Forms.LookupOr | src/components/organisms/QuoteForm.jsx:38-40 | `record[key]?.Id \|\| ""`: a missing or zero Id gives "". |
| Forms.DateOr | src/components/organisms/QuoteForm.jsx:37-41 | A date field loads as text, and a missing or empty date gives "". |
| Forms.SubmittedDate | src/components/organisms/QuoteForm.jsx:64-80 | A blank date becomes null. A date is converted iff it is non-blank and valid. |
| Forms.BlankDateIsNullForAnyParser | src/components/organisms/QuoteForm.jsx:67-80 | A date of spaces and tabs is null, whatever the parser would say. |
| QuoteForm.PartsListed | src/components/organisms/QuoteForm.jsx:15-26 | The six address parts are all listed. |
| QuoteForm.AllKeysListed | src/components/organisms/QuoteForm.jsx:6-27 | The form holds every one of its twenty fields. |
| QuoteForm.Initial | src/components/organisms/QuoteForm.jsx:6-27 | Every field is "" except status "Draft" and delivery method "Email". |
| QuoteForm.LoadedField | src/components/organisms/QuoteForm.jsx:29-53 | A missing text field loads as "", status as "Draft" and delivery as "Email". Dates load as their day, and lookups as their `.Id` or "". |
| QuoteForm.Loaded | src/components/organisms/QuoteForm.jsx:29-53 | Loading sets all twenty fields. |
| QuoteForm.EmptyQuoteLoadsInitial | src/components/organisms/QuoteForm.jsx:6-53 | A quote with nothing set loads as the initial form. |
| QuoteForm.CopiedBilling | src/components/organisms/QuoteForm.jsx:83-93 | Each shipping field equals its billing counterpart, and every other field stays. |
| QuoteForm.CopyBillingIdempotent | src/components/organisms/QuoteForm.jsx:83-93 | Copying twice is copying once. |
| QuoteForm.SubmitData | src/components/organisms/QuoteForm.jsx:64-81 | Both dates are submitted as the date rule gives, and every other field passes through. |
| QuoteForm.Form.constructor | src/components/organisms/QuoteForm.jsx:6-27 | The form starts as the initial form. |
| QuoteForm.Form.Load | src/components/organisms/QuoteForm.jsx:29-54 | The form becomes the loaded form. |
| QuoteForm.Form.Change | src/components/organisms/QuoteForm.jsx:56-62 | Only the named field changes. |
| QuoteForm.Form.CopyBillingToShipping | src/components/organisms/QuoteForm.jsx:83-93 | The form becomes the copied form. |
| QuoteForm.Form.Submit | src/components/organisms/QuoteForm.jsx:64-81 | The submitted data is the form's submit data. |
| SalesOrderForm.AllKeysListed | src/components/organisms/SalesOrderForm.jsx:6-16 | The form holds every one of its nine fields. |
| SalesOrderForm.Initial | src/components/organisms/SalesOrderForm.jsx:6-16 | Every field is "" except status "Draft". |
| SalesOrderForm.LoadedField | src/components/organisms/SalesOrderForm.jsx:18-32 | A missing field loads as "" and status as "Draft". The date loads as its day, and the customer as its `.Id` or "". |
| SalesOrderForm.Loaded | src/components/organisms/SalesOrderForm.jsx:18-32 | Loading sets all nine fields. |
| SalesOrderForm.EmptyOrderLoadsInitial | src/components/organisms/SalesOrderForm.jsx:6-32 | An order with nothing set loads as the initial form. |
| SalesOrderForm.CopiedBilling | src/components/organisms/SalesOrderForm.jsx:60-65 | The shipping address equals the billing address, and every other field stays. |
| SalesOrderForm.CopyBillingIdempotent | src/components/organisms/SalesOrderForm.jsx:60-65 | Copying twice is copying once. |
| SalesOrderForm.SubmitData | src/components/organisms/SalesOrderForm.jsx:42-58 | The order date is submitted as the date rule gives, and every other field passes through. |
| SalesOrderForm.Form.constructor | src/components/organisms/SalesOrderForm.jsx:6-16 | The form starts as the initial form. |
| SalesOrderForm.Form.Load | src/components/organisms/SalesOrderForm.jsx:18-32 | The form becomes the loaded form. |
| SalesOrderForm.Form.Change | src/components/organisms/SalesOrderForm.jsx:34-40 | Only the named field changes. |
| SalesOrderForm.Form.CopyBillingToShipping | src/components/organisms/SalesOrderForm.jsx:60-65 | The form becomes the copied form. |
| SalesOrderForm.Form.Submit | src/components/organisms/SalesOrderForm.jsx:42-58 | The submitted data is the form's submit data. |
| UserSlice.Step | src/store/userSlice.js:13-23 | `setUser` sets the user and authenticates. `clearUser` clears both. `setInitialized` sets only `isInitialized`. No reducer touches the fields it does not name. |
| UserSlice.StepConsistent | src/store/userSlice.js:13-23 | Every reducer keeps "a user implies authenticated". |
| UserSlice.ClearUserIdempotent | src/store/userSlice.js:17-20 | Clearing twice is clearing once. |
| UserSlice.RunConsistent | src/store/userSlice.js:13-23 | Any sequence of actions keeps a consistent state consistent. |
| UserSlice.ReachableConsistent | src/store/userSlice.js:3-23 | In every state reachable from the initial one, a user implies authenticated. |
| UserSlice.Slice.constructor | src/store/userSlice.js:3-7 | The slice starts with no user, not authenticated, not initialized. |
| UserSlice.Slice.SetUser | src/store/userSlice.js:13-16 | The state moves by the `setUser` step. |
| UserSlice.Slice.ClearUser | src/store/userSlice.js:17-20 | The state moves by the `clearUser` step. |
| UserSlice.Slice.SetInitialized | src/store/userSlice.js:21-23 | The state moves by the `setInitialized` step. |
| Header.Initials | src/components/organisms/Header.jsx:103-105 | With both names present, the initials are their first characters as typed. Otherwise they are the uppercased first character of a non-empty email, and otherwise "U". |
| Header.NameInitialsNotUppercased | src/components/organisms/Header.jsx:103-104 | Name initials keep their case. |
| Header.DisplayName | src/components/organisms/Header.jsx:107-109 | The result is "first last" with one space, else the email, else "User". |
| Header.InitialsMatchDisplayName | src/components/organisms/Header.jsx:103-109 | The initials are the first characters of the shown name's parts, or its uppercased first character. |
| Text.LowerIdempotent | src/components/pages/Companies.jsx:54 | Lowercasing twice is lowercasing once. |
| Text.Lower | src/components/pages/Companies.jsx:54 | Lowercasing keeps the length and leaves no capital letter A-Z. LowerIdempotent and SalesOrders.LowerOfUpper build on it. |
| Text.Upper | src/components/organisms/ActivityFeed.jsx:77 | Uppercasing keeps the length and leaves no small letter a-z. |
| Text.Contains | src/components/pages/Companies.jsx:57-62 | `includes` holds iff the text occurs at some index. |
| Text.ContainsEmpty | src/components/pages/Quotes.jsx:131-136 | Every text includes "". |
| Text.ContainsSelf | src/components/pages/Companies.jsx:57 | Every text includes itself. |
| Text.LongerNotContained | src/components/pages/Companies.jsx:57-62 | A longer text is never included. |
| Text.TrimStart | src/components/pages/Companies.jsx:53 | Leading whitespace is dropped, and the rest is a suffix of the text. |
| Text.TrimEnd | src/components/pages/Companies.jsx:53 | Trailing whitespace is dropped, and the rest is a prefix of the text. |
| Text.Trim | src/components/pages/Companies.jsx:53 | Trimming never lengthens the text, and a non-empty result neither starts nor ends with whitespace. TrimEmptyIffBlank says when it is empty. |
| Text.TrimEmptyIffBlank | src/components/pages/Contacts.jsx:46 | `trim()` gives "" iff every character is whitespace. |
| Text.BlankTrimsToEmpty | src/components/pages/Contacts.jsx:46 | Trimming the start of a whitespace-only text leaves "". |
| Text.StartsWith | src/components/organisms/CompanyTable.jsx:142 | The result holds iff p occurs at index 0, so a text that starts with p also includes p. |
| Text.DecimalText | src/components/organisms/CompanyTable.jsx:44-46 | A number's decimal text, which `localeCompare` compares, is never empty. |

## Left out

- The service modules under `src/services/api/` are not part of this model. They are network clients of a hosted backend. Each handler that follows a service call takes the call's outcome as a parameter.
- Asynchronous orchestration is not modelled: `await` ordering, `Promise.all`, the loading and error flags, toasts and `window.confirm`. Only the state change after a resolved call is modelled.
- `Pipeline.AvgDealSize`: the non-empty branch is an exact `Quotient(total, count)` rather than the floating-point division. `toFixed` and `toLocaleString` formatting are not modelled. The Dashboard's average deal size and win rate divide floats and are not modelled.
- Dates beyond the blank check are not modelled. `new Date(...)`, `toISOString().split("T")[0]` and `isValidDate` on non-blank input are the parameters `isoDay` and `isValid`. A date stored as a number rather than text loads as "". The `date-fns` rendering in the activity feed and on the board is left out.
- Deal values (`Deal.value`) and contact deal values (`Contact.dealValue`) are integers. The services parse them with `parseFloat(...) || 0`, so fractional values and floating-point rounding are not modelled. This applies to `totalValue`, the column values, the pipeline value and the deal-value sort.
- `toLowerCase` and `toUpperCase` are ASCII case mappings. Unicode case folding is not modelled.
- `localeCompare` is a parameter `collate`, with sortedness proved for any collation-like `collate`.
- `FilterPanel.LoadViews`: stored text that `JSON.parse` accepts but that is not a list of views is not modelled.
- `Sorting.Difference`: a subtraction involving non-numeric text is 0 here. JavaScript gives NaN, and the sort treats NaN as 0.
- Deal-value and date-range filtering is not modelled. The filter panel collects these keys, but no page applies them (`Companies.OtherKeysIgnored`).
- The filter panel's open/closed toggle and its option lists are not modelled, because they are rendering only.
- `CompanyTable.IndustryColor`: property names inherited from `Object.prototype` (for example "toString") are not modelled. In the source they would index the colour object.
- `ContactTable.HeaderClick`: the phone column is marked `sortable: false` but still sorts on click. That is how the source behaves, and it is modelled as written.
- Form fields are an enumeration of the form's own keys, so `handleChange` with an input name outside the form is not modelled. A fetched quote or order is given as a map keyed by those same field names, with its lookup Ids as a separate map.
- The remaining organisms and atoms render only, and are not part of this model: forms for companies, contacts and deals, modals, layout, badges, inputs and metric cards.
